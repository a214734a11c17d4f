/** The services driven together through the paths their unit tests check,
    from an empty database with one user. */
module Scenarios {
  import opened Wrappers
  import opened Time
  import opened Entities
  import opened Exceptions
  import opened Repositories
  import opened CardGenerator
  import Cards = CardService
  import Users = UserService

  /** A user with one USER-role account and nothing else. */
  method NewDatabase() returns (db: Database)
    ensures fresh(db) && db.Valid()
    ensures 1 in db.users && db.cards == map[] && db.requests == map[]
    ensures db.nextCardId == 1 && db.nextRequestId == 1 && db.TotalBalance(1) == 0.0
  {
    var owner := User(1, "testuser", "Test", "User", "test.user", "+70000000000", USER, true);
    db := new Database(map[1 := owner]);
    BalanceOfNoCards(db.cards, 1, db.nextCardId);
  }

  /** Two cards issued to one user hold 20000 between them; sending the
      whole balance of one to the other is accepted and the total, and each
      card's balance, stay where they were. */
  method TransferScenario(now: Instant, draws: seq<int>)
    returns (transferAccepted: bool, totalAfter: real, senderBalance: real)
    requires IsValid(now)
    requires |draws| == DrawCount && forall i :: 0 <= i < |draws| ==> 0 <= draws[i] <= 9
    ensures transferAccepted && totalAfter == 20000.0 && senderBalance == 10000.0
  {
    var db := NewDatabase();
    var cards := new Cards.CardService(db);
    var users := new Users.UserService(db);
    var first := cards.CreateCard(1, now, true, draws);
    assert first.Success? && db.TotalBalance(1) == 10000.0;
    assert db.cards[1].balance == 10000.0;
    var second := cards.CreateCard(1, now, false, draws);
    assert second.Success? && db.TotalBalance(1) == 20000.0;
    assert db.cards[1].balance == 10000.0 && db.cards[2].ownerId == 1;

    var transfer := cards.SendTransfer(1, 2, 10000.0, None, 1, now);
    transferAccepted := transfer.Success?;
    senderBalance := db.cards[1].balance;
    var total := users.GetUserWithBalance(1);
    totalAfter := total.value.balance;
  }

  /** A block request can be approved once, is refused a second approval,
      can then still be declined, and the card stays ACTIVE throughout. */
  method BlockRequestScenario(now: Instant, draws: seq<int>)
    returns (secondApproval: Option<ServiceError>, declineAccepted: bool, cardStatus: CardStatus)
    requires IsValid(now)
    requires |draws| == DrawCount && forall i :: 0 <= i < |draws| ==> 0 <= draws[i] <= 9
    ensures secondApproval == Some(RequestAlreadyApproved)
    ensures declineAccepted && cardStatus == ACTIVE
  {
    var db := NewDatabase();
    var cards := new Cards.CardService(db);
    var card := cards.CreateCard(1, now, true, draws);
    assert db.cards[1].ownerId == 1 && db.cards[1].status == ACTIVE;

    var request := cards.SendRequest(1, 1, now);
    assert db.requests[1].status == PENDING;
    var approved := cards.ApproveRequest(1, now);
    assert db.requests[1].status == APPROVED;
    var again := cards.ApproveRequest(1, now);
    secondApproval := if again.Failure? then Some(again.error) else None;
    var declined := cards.DeclineRequest(1, now);
    declineAccepted := declined.Success?;
    cardStatus := db.cards[1].status;
  }
}
