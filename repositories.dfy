/** The four repositories the services share (UserRepository, CardRepository,
    CardBlockRequestRepository, TransferRepository) as one Database object:
    a map from id to row per table, and the next value of each IDENTITY
    column. Also the aggregate CardRepository.getTotalBalanceByUserId. */
module Repositories {
  import opened Wrappers
  import opened Time
  import opened Entities

  predicate UsersKeyed(users: map<UserId, User>) {
    forall id | id in users :: users[id].id == id
  }

  /** Every card row sits under its own id, below the next id, and has an
      existing owner (owner_id is a non-null foreign key). */
  predicate CardsWellFormed(cards: map<CardId, Card>, users: map<UserId, User>, nextId: nat) {
    forall id | id in cards :: cards[id].id == id && id < nextId && cards[id].ownerId in users
  }

  /** processedBy and processedAt are unset while a request is PENDING; once
      processed, processedBy is the requester and processedAt is set. */
  predicate RequestWellFormed(r: CardBlockRequest) {
    if r.status == PENDING then r.processedBy.None? && r.processedAt.None?
    else r.processedBy == Some(r.requestedBy) && r.processedAt.Some?
  }

  predicate RequestsWellFormed(requests: map<RequestId, CardBlockRequest>, cards: map<CardId, Card>,
                               users: map<UserId, User>, nextId: nat) {
    forall id | id in requests ::
      && requests[id].id == id && id < nextId
      && requests[id].cardId in cards && requests[id].requestedBy in users
      && RequestWellFormed(requests[id])
  }

  /** Both card references exist and the currency fits its 3-character column. */
  predicate TransfersWellFormed(transfers: map<TransferId, Transfer>, cards: map<CardId, Card>, nextId: nat) {
    forall id | id in transfers ::
      && transfers[id].id == id && id < nextId
      && transfers[id].sourceCardId in cards && transfers[id].targetCardId in cards
      && |transfers[id].currency| <= CurrencyColumnLength
  }

  /** The block requests left after deleting a card: its own go with it
      (cascade = ALL on Card.blockRequests). */
  function RequestsWithoutCard(requests: map<RequestId, CardBlockRequest>, cardId: CardId)
    : (r: map<RequestId, CardBlockRequest>)
    ensures forall id :: id in r <==> id in requests && requests[id].cardId != cardId
    ensures forall id | id in r :: r[id] == requests[id]
  {
    map id | id in requests && requests[id].cardId != cardId :: requests[id]
  }

  /** The transfers left after deleting a card: those from or to it go with
      it (cascade = ALL on Card.outgoingTransfers and incomingTransfers). */
  function TransfersWithoutCard(transfers: map<TransferId, Transfer>, cardId: CardId)
    : (r: map<TransferId, Transfer>)
    ensures forall id :: id in r <==> id in transfers && transfers[id].sourceCardId != cardId
                                                      && transfers[id].targetCardId != cardId
    ensures forall id | id in r :: r[id] == transfers[id]
  {
    map id | id in transfers && transfers[id].sourceCardId != cardId && transfers[id].targetCardId != cardId
      :: transfers[id]
  }

  /** What one card adds to its owner's total. */
  function Held(cards: map<CardId, Card>, owner: UserId, id: CardId): real {
    if id in cards && cards[id].ownerId == owner then cards[id].balance else 0.0
  }

  /** SUM(c.balance) over the cards with id below n owned by owner, 0 when
      there are none (the COALESCE). */
  function BalanceBelow(cards: map<CardId, Card>, owner: UserId, n: nat): real {
    if n == 0 then 0.0 else BalanceBelow(cards, owner, n - 1) + Held(cards, owner, n - 1)
  }

  /** An owner with no cards has total 0. */
  lemma {:induction false} BalanceOfNoCards(cards: map<CardId, Card>, owner: UserId, n: nat)
    requires forall id | id in cards :: cards[id].ownerId != owner
    ensures BalanceBelow(cards, owner, n) == 0.0
  {
    if n > 0 {
      BalanceOfNoCards(cards, owner, n - 1);
    }
  }

  /** With non-negative balances the total is non-negative. */
  lemma {:induction false} BalanceNonNegative(cards: map<CardId, Card>, owner: UserId, n: nat)
    requires forall id | id in cards :: cards[id].balance >= 0.0
    ensures BalanceBelow(cards, owner, n) >= 0.0
  {
    if n > 0 {
      BalanceNonNegative(cards, owner, n - 1);
    }
  }

  /** The total depends only on what each card below n contributes. */
  lemma {:induction false} BalanceFrame(c1: map<CardId, Card>, c2: map<CardId, Card>, owner: UserId, n: nat)
    requires forall id: CardId | id < n :: Held(c1, owner, id) == Held(c2, owner, id)
    ensures BalanceBelow(c1, owner, n) == BalanceBelow(c2, owner, n)
  {
    if n > 0 {
      BalanceFrame(c1, c2, owner, n - 1);
    }
  }

  /** Changing one card below n changes the total by the difference of what
      it contributes. */
  lemma {:induction false} BalanceReplace(c1: map<CardId, Card>, c2: map<CardId, Card>, owner: UserId, n: nat, k: CardId)
    requires k < n
    requires forall id: CardId | id < n && id != k :: Held(c1, owner, id) == Held(c2, owner, id)
    ensures BalanceBelow(c2, owner, n) == BalanceBelow(c1, owner, n) - Held(c1, owner, k) + Held(c2, owner, k)
  {
    if n - 1 == k {
      BalanceFrame(c1, c2, owner, n - 1);
    } else {
      BalanceReplace(c1, c2, owner, n - 1, k);
    }
  }

  /** The two bounds on a total, as implications. */
  lemma BalanceBounds(cards: map<CardId, Card>, owner: UserId, n: nat)
    ensures (forall id | id in cards :: cards[id].ownerId != owner) ==> BalanceBelow(cards, owner, n) == 0.0
    ensures (forall id | id in cards :: cards[id].balance >= 0.0) ==> BalanceBelow(cards, owner, n) >= 0.0
  {
    if forall id | id in cards :: cards[id].ownerId != owner {
      BalanceOfNoCards(cards, owner, n);
    }
    if forall id | id in cards :: cards[id].balance >= 0.0 {
      BalanceNonNegative(cards, owner, n);
    }
  }

  /** Cards at or above n do not count. */
  lemma {:induction false} BalanceExtend(cards: map<CardId, Card>, owner: UserId, n: nat, m: nat)
    requires n <= m && forall id | id in cards :: id < n
    ensures BalanceBelow(cards, owner, m) == BalanceBelow(cards, owner, n)
  {
    if m > n {
      BalanceExtend(cards, owner, n, m - 1);
    }
  }

  class Database {
    var users: map<UserId, User>
    var cards: map<CardId, Card>
    var requests: map<RequestId, CardBlockRequest>
    var transfers: map<TransferId, Transfer>
    var nextCardId: nat
    var nextRequestId: nat
    var nextTransferId: nat

    /** Keys match ids, ids are below the next IDENTITY value, and every
        foreign key refers to an existing row. */
    ghost predicate Valid()
      reads this
    {
      && UsersKeyed(users)
      && CardsWellFormed(cards, users, nextCardId)
      && RequestsWellFormed(requests, cards, users, nextRequestId)
      && TransfersWellFormed(transfers, cards, nextTransferId)
    }

    /** A database holding the given users and nothing else. Users are
        created outside the core. */
    constructor (users: map<UserId, User>)
      requires UsersKeyed(users)
      ensures Valid()
      ensures this.users == users && cards == map[] && requests == map[] && transfers == map[]
      ensures nextCardId == 1 && nextRequestId == 1 && nextTransferId == 1
    {
      this.users := users;
      cards, requests, transfers := map[], map[], map[];
      nextCardId, nextRequestId, nextTransferId := 1, 1, 1;
    }

    /** CardRepository.getTotalBalanceByUserId: the sum of the balances of
        all cards the user owns; 0 when there are none (the COALESCE). */
    function TotalBalance(owner: UserId): (total: real)
      reads this`cards, this`nextCardId
      ensures (forall id | id in cards :: cards[id].ownerId != owner) ==> total == 0.0
      ensures (forall id | id in cards :: cards[id].balance >= 0.0) ==> total >= 0.0
    {
      BalanceBounds(cards, owner, nextCardId);
      BalanceBelow(cards, owner, nextCardId)
    }
  }
}
