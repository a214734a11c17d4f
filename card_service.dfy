/** CardServiceImpl: card issuing, blocking, activation and deletion, the
    block-request workflow, and transfers, over the shared Database. Each
    operation loads rows, checks them in the order the source does, and
    either fails with a ServiceError having written nothing, or saves what
    it changed. The clock reading (now) and the random draws are inputs.

    As the source has it: a transfer moves no money, it only records a
    Transfer row; approving or declining a request does not touch the card;
    the workflow rejects only a repeat of the same outcome. */
module CardService {
  import opened Wrappers
  import opened Time
  import opened Entities
  import opened Exceptions
  import opened Dto
  import opened Repositories
  import opened CardGenerator

  /** The balance every new card is issued with. */
  const OpeningBalance: real := 10000.0
  /** A new card expires this many years after it is issued. */
  const ValidityYears := 5
  /** The currency every transfer is recorded in. */
  const TransferCurrency: string := "RUB"

  /** The checks sendTransfer makes, in its order: the sender card exists,
      the receiver card exists, the user owns both, neither is BLOCKED, and
      the sender's balance is not below the amount. None: all pass. The
      amount's sign and whether the two cards differ are not checked. */
  function TransferCheck(cards: map<CardId, Card>, senderCardId: CardId, receiverCardId: CardId,
                         amount: real, user: UserId): (e: Option<ServiceError>)
    ensures e.None? <==>
      && senderCardId in cards && receiverCardId in cards
      && cards[senderCardId].ownerId == user && cards[receiverCardId].ownerId == user
      && cards[senderCardId].status != BLOCKED && cards[receiverCardId].status != BLOCKED
      && amount <= cards[senderCardId].balance
    ensures senderCardId !in cards || receiverCardId !in cards <==> e == Some(CardNotFound)
    ensures e == Some(NotUserCard) <==>
      && senderCardId in cards && receiverCardId in cards
      && (cards[senderCardId].ownerId != user || cards[receiverCardId].ownerId != user)
    ensures e == Some(CardBlocked) <==>
      && senderCardId in cards && receiverCardId in cards
      && cards[senderCardId].ownerId == user && cards[receiverCardId].ownerId == user
      && (cards[senderCardId].status == BLOCKED || cards[receiverCardId].status == BLOCKED)
    ensures e == Some(NotEnoughBalance) <==>
      && senderCardId in cards && receiverCardId in cards
      && cards[senderCardId].ownerId == user && cards[receiverCardId].ownerId == user
      && cards[senderCardId].status != BLOCKED && cards[receiverCardId].status != BLOCKED
      && cards[senderCardId].balance < amount
  {
    if senderCardId !in cards || receiverCardId !in cards then Some(CardNotFound)
    else
      var sender, receiver := cards[senderCardId], cards[receiverCardId];
      if sender.ownerId != user || receiver.ownerId != user then Some(NotUserCard)
      else if sender.status == BLOCKED || receiver.status == BLOCKED then Some(CardBlocked)
      else if sender.balance < amount then Some(NotEnoughBalance)
      else None
  }

  /** The balance test is strict: a card may send its whole balance, to
      itself, while one unit more is refused; and with a non-negative
      balance a negative amount passes. */
  lemma TransferCheckBoundaries(cards: map<CardId, Card>, id: CardId, user: UserId)
    requires id in cards && cards[id].ownerId == user && cards[id].status != BLOCKED
    ensures TransferCheck(cards, id, id, cards[id].balance, user) == None
    ensures TransferCheck(cards, id, id, cards[id].balance + 1.0, user) == Some(NotEnoughBalance)
    ensures cards[id].balance >= 0.0 ==> TransferCheck(cards, id, id, -1.0, user) == None
  {
  }

  /** An EXPIRED card is no obstacle to a transfer; only BLOCKED is. */
  lemma ExpiredCardsTransfer(cards: map<CardId, Card>, s: CardId, t: CardId, amount: real, user: UserId)
    requires s in cards && t in cards && cards[s].ownerId == user && cards[t].ownerId == user
    requires cards[s].status == EXPIRED && cards[t].status == EXPIRED
    ensures TransferCheck(cards, s, t, amount, user) == None <==> amount <= cards[s].balance
  {
  }

  class CardService {
    const db: Database

    constructor (db: Database)
      ensures this.db == db
    {
      this.db := db;
    }

    /** createCard: fails with UserNotFound and stores nothing for an unknown
        user; otherwise stores one new ACTIVE card for that user with the
        generated number, the opening balance and an expiration five years
        on. Only the owner's total balance grows, by the opening balance. */
    method CreateCard(userId: UserId, now: Instant, visa: bool, draws: seq<int>)
      returns (r: Result<CardResponse, ServiceError>)
      requires db.Valid() && IsValid(now)
      requires |draws| == DrawCount && forall i :: 0 <= i < |draws| ==> 0 <= draws[i] <= 9
      modifies db`cards, db`nextCardId
      ensures db.Valid()
      ensures userId !in old(db.users) ==>
        r == Failure(UserNotFound) && db.cards == old(db.cards) && db.nextCardId == old(db.nextCardId)
      ensures userId in old(db.users) ==>
        var id := old(db.nextCardId);
        var card := Card(id, CardNumberFor(if visa then VisaPrefix else MastercardPrefix, draws), userId,
                         PlusYears(now, ValidityYears), OpeningBalance, ACTIVE, now, now);
        && db.cards == old(db.cards)[id := card]
        && db.nextCardId == id + 1
        && r == Success(CardResponseFromEntity(card, db.users[userId]))
      ensures forall u :: db.TotalBalance(u) == old(db.TotalBalance(u)) + (if r.Success? && u == userId then OpeningBalance else 0.0)
    {
      if userId !in db.users {
        return Failure(UserNotFound);
      }
      var user := db.users[userId];
      var number := GenerateCardNumber(visa, draws);
      var card := Card(db.nextCardId, number, userId, PlusYears(now, ValidityYears), OpeningBalance, ACTIVE, now, now);
      // onCreate is called here and again by PrePersist; both stamp now.
      card := CardOnCreate(card, now);
      ghost var before := db.cards;
      ghost var n := db.nextCardId;
      db.cards := db.cards[card.id := card];
      db.nextCardId := db.nextCardId + 1;
      forall u
        ensures BalanceBelow(db.cards, u, n + 1) == BalanceBelow(before, u, n) + (if u == userId then OpeningBalance else 0.0)
      {
        BalanceFrame(before, db.cards, u, n);
      }
      r := Success(CardResponseFromEntity(card, user));
    }

    /** blockCard: CardNotFound for an unknown id, CardAlreadyBlocked for a
        BLOCKED card, with nothing saved; an ACTIVE or EXPIRED card becomes
        BLOCKED, and the save's PreUpdate stamps updatedAt. */
    method BlockCard(cardId: CardId, now: Instant) returns (r: Result<CardResponse, ServiceError>)
      requires db.Valid()
      modifies db`cards
      ensures db.Valid()
      ensures cardId !in old(db.cards) ==> r == Failure(CardNotFound) && db.cards == old(db.cards)
      ensures cardId in old(db.cards) && old(db.cards[cardId]).status == BLOCKED ==>
        r == Failure(CardAlreadyBlocked) && db.cards == old(db.cards)
      ensures cardId in old(db.cards) && old(db.cards[cardId]).status != BLOCKED ==>
        var card := old(db.cards[cardId]).(status := BLOCKED, updatedAt := now);
        && db.cards == old(db.cards)[cardId := card]
        && r == Success(CardResponseFromEntity(card, db.users[card.ownerId]))
      ensures forall u :: db.TotalBalance(u) == old(db.TotalBalance(u))
    {
      if cardId !in db.cards {
        return Failure(CardNotFound);
      }
      var card := db.cards[cardId];
      if card.status == BLOCKED {
        return Failure(CardAlreadyBlocked);
      }
      card := CardOnUpdate(card.(status := BLOCKED), now);
      ghost var before := db.cards;
      db.cards := db.cards[cardId := card];
      forall u ensures BalanceBelow(db.cards, u, db.nextCardId) == BalanceBelow(before, u, db.nextCardId) {
        BalanceFrame(before, db.cards, u, db.nextCardId);
      }
      r := Success(CardResponseFromEntity(card, db.users[card.ownerId]));
    }

    /** activateCard: CardNotFound for an unknown id, CardAlreadyActive for an
        ACTIVE card, with nothing saved; a BLOCKED or EXPIRED card becomes
        ACTIVE, and the save's PreUpdate stamps updatedAt. */
    method ActivateCard(cardId: CardId, now: Instant) returns (r: Result<CardResponse, ServiceError>)
      requires db.Valid()
      modifies db`cards
      ensures db.Valid()
      ensures cardId !in old(db.cards) ==> r == Failure(CardNotFound) && db.cards == old(db.cards)
      ensures cardId in old(db.cards) && old(db.cards[cardId]).status == ACTIVE ==>
        r == Failure(CardAlreadyActive) && db.cards == old(db.cards)
      ensures cardId in old(db.cards) && old(db.cards[cardId]).status != ACTIVE ==>
        var card := old(db.cards[cardId]).(status := ACTIVE, updatedAt := now);
        && db.cards == old(db.cards)[cardId := card]
        && r == Success(CardResponseFromEntity(card, db.users[card.ownerId]))
      ensures forall u :: db.TotalBalance(u) == old(db.TotalBalance(u))
    {
      if cardId !in db.cards {
        return Failure(CardNotFound);
      }
      var card := db.cards[cardId];
      if card.status == ACTIVE {
        return Failure(CardAlreadyActive);
      }
      card := CardOnUpdate(card.(status := ACTIVE), now);
      ghost var before := db.cards;
      db.cards := db.cards[cardId := card];
      forall u ensures BalanceBelow(db.cards, u, db.nextCardId) == BalanceBelow(before, u, db.nextCardId) {
        BalanceFrame(before, db.cards, u, db.nextCardId);
      }
      r := Success(CardResponseFromEntity(card, db.users[card.ownerId]));
    }

    /** deleteCard: removes the card, and with it (cascade) its block requests
        and every transfer from or to it. An unknown id is silently ignored.
        The owner's total balance drops by the card's balance. */
    method DeleteCard(cardId: CardId)
      requires db.Valid()
      modifies db`cards, db`requests, db`transfers
      ensures db.Valid()
      ensures db.cards == old(db.cards) - {cardId}
      ensures db.requests == RequestsWithoutCard(old(db.requests), cardId)
      ensures db.transfers == TransfersWithoutCard(old(db.transfers), cardId)
      ensures cardId !in old(db.cards) ==> db.requests == old(db.requests) && db.transfers == old(db.transfers)
      ensures forall u :: db.TotalBalance(u) == old(db.TotalBalance(u)) - Held(old(db.cards), u, cardId)
    {
      ghost var before := db.cards;
      db.requests := RequestsWithoutCard(db.requests, cardId);
      db.transfers := TransfersWithoutCard(db.transfers, cardId);
      db.cards := db.cards - {cardId};
      forall u
        ensures BalanceBelow(db.cards, u, db.nextCardId) == BalanceBelow(before, u, db.nextCardId) - Held(before, u, cardId)
      {
        if cardId < db.nextCardId {
          BalanceReplace(before, db.cards, u, db.nextCardId, cardId);
        } else {
          BalanceFrame(before, db.cards, u, db.nextCardId);
        }
      }
    }

    /** approveRequest: RequestNotFound for an unknown id, and
        RequestAlreadyApproved only when the request is already APPROVED (a
        REJECTED one can still be approved). Otherwise the request becomes
        APPROVED, processed by its own requester, at now. The card is not
        touched. */
    method ApproveRequest(requestId: RequestId, now: Instant) returns (r: Result<CardProcessResponse, ServiceError>)
      requires db.Valid()
      modifies db`requests
      ensures db.Valid()
      ensures requestId !in old(db.requests) ==> r == Failure(RequestNotFound) && db.requests == old(db.requests)
      ensures requestId in old(db.requests) && old(db.requests[requestId]).status == APPROVED ==>
        r == Failure(RequestAlreadyApproved) && db.requests == old(db.requests)
      ensures requestId in old(db.requests) && old(db.requests[requestId]).status != APPROVED ==>
        var q := old(db.requests[requestId]);
        var q' := q.(status := APPROVED, processedBy := Some(q.requestedBy), processedAt := Some(now));
        && db.requests == old(db.requests)[requestId := q']
        && r == Success(CardProcessFromEntity(q', db.users[q.requestedBy], db.cards[q.cardId]))
    {
      if requestId !in db.requests {
        return Failure(RequestNotFound);
      }
      var request := db.requests[requestId];
      if request.status == APPROVED {
        return Failure(RequestAlreadyApproved);
      }
      request := request.(status := APPROVED, processedBy := Some(request.requestedBy), processedAt := Some(now));
      db.requests := db.requests[requestId := request];
      r := Success(CardProcessFromEntity(request, db.users[request.requestedBy], db.cards[request.cardId]));
    }

    /** declineRequest: RequestNotFound for an unknown id, and
        RequestAlreadyDenied only when the request is already REJECTED (an
        APPROVED one can still be declined). Otherwise the request becomes
        REJECTED, processed by its own requester, at now. */
    method DeclineRequest(requestId: RequestId, now: Instant) returns (r: Result<CardProcessResponse, ServiceError>)
      requires db.Valid()
      modifies db`requests
      ensures db.Valid()
      ensures requestId !in old(db.requests) ==> r == Failure(RequestNotFound) && db.requests == old(db.requests)
      ensures requestId in old(db.requests) && old(db.requests[requestId]).status == REJECTED ==>
        r == Failure(RequestAlreadyDenied) && db.requests == old(db.requests)
      ensures requestId in old(db.requests) && old(db.requests[requestId]).status != REJECTED ==>
        var q := old(db.requests[requestId]);
        var q' := q.(status := REJECTED, processedBy := Some(q.requestedBy), processedAt := Some(now));
        && db.requests == old(db.requests)[requestId := q']
        && r == Success(CardProcessFromEntity(q', db.users[q.requestedBy], db.cards[q.cardId]))
    {
      if requestId !in db.requests {
        return Failure(RequestNotFound);
      }
      var request := db.requests[requestId];
      if request.status == REJECTED {
        return Failure(RequestAlreadyDenied);
      }
      request := request.(status := REJECTED, processedBy := Some(request.requestedBy), processedAt := Some(now));
      db.requests := db.requests[requestId := request];
      r := Success(CardProcessFromEntity(request, db.users[request.requestedBy], db.cards[request.cardId]));
    }

    /** sendRequest: CardNotFound for an unknown card, then NotUserCard when
        the card's owner is not the user, then CardAlreadyBlocked for a
        BLOCKED card. Otherwise stores one new PENDING request for the card,
        requested by its owner, dated now (PrePersist). The card is not
        touched. */
    method SendRequest(cardId: CardId, user: UserId, now: Instant) returns (r: Result<CardProcessResponse, ServiceError>)
      requires db.Valid()
      modifies db`requests, db`nextRequestId
      ensures db.Valid()
      ensures r.Failure? ==> db.requests == old(db.requests) && db.nextRequestId == old(db.nextRequestId)
      ensures cardId !in db.cards ==> r == Failure(CardNotFound)
      ensures cardId in db.cards && db.cards[cardId].ownerId != user ==> r == Failure(NotUserCard)
      ensures cardId in db.cards && db.cards[cardId].ownerId == user && db.cards[cardId].status == BLOCKED ==>
        r == Failure(CardAlreadyBlocked)
      ensures cardId in db.cards && db.cards[cardId].ownerId == user && db.cards[cardId].status != BLOCKED ==>
        var id := old(db.nextRequestId);
        var q := CardBlockRequest(id, cardId, user, now, PENDING, None, None);
        && db.requests == old(db.requests)[id := q]
        && db.nextRequestId == id + 1
        && r == Success(CardProcessFromEntity(q, db.users[user], db.cards[cardId]))
    {
      if cardId !in db.cards {
        return Failure(CardNotFound);
      }
      var card := db.cards[cardId];
      if card.ownerId != user {
        return Failure(NotUserCard);
      }
      if card.status == BLOCKED {
        return Failure(CardAlreadyBlocked);
      }
      var request := CardBlockRequest(db.nextRequestId, cardId, card.ownerId, now, PENDING, None, None);
      request := RequestOnCreate(request, now);
      db.requests := db.requests[request.id := request];
      db.nextRequestId := db.nextRequestId + 1;
      r := Success(CardProcessFromEntity(request, db.users[card.ownerId], card));
    }

    /** sendTransfer: fails with the first failing check of TransferCheck,
        storing nothing. Otherwise stores exactly one Transfer of the amount
        in RUB with the description, dated now (PrePersist). No balance
        changes, on either path. */
    method SendTransfer(senderCardId: CardId, receiverCardId: CardId, amount: real, description: Option<string>,
                        user: UserId, now: Instant)
      returns (r: Result<TransferResponse, ServiceError>)
      requires db.Valid()
      modifies db`transfers, db`nextTransferId
      ensures db.Valid()
      ensures db.cards == old(db.cards)
      ensures r.Failure? <==> TransferCheck(db.cards, senderCardId, receiverCardId, amount, user).Some?
      ensures r.Failure? ==>
        && r.error == TransferCheck(db.cards, senderCardId, receiverCardId, amount, user).value
        && db.transfers == old(db.transfers) && db.nextTransferId == old(db.nextTransferId)
      ensures r.Success? ==>
        var id := old(db.nextTransferId);
        var t := Transfer(id, senderCardId, receiverCardId, amount, TransferCurrency, now, description);
        && db.transfers == old(db.transfers)[id := t]
        && db.nextTransferId == id + 1
        && r.value == TransferResponse(senderCardId, receiverCardId, amount, now)
    {
      if senderCardId !in db.cards {
        return Failure(CardNotFound);
      }
      var senderCard := db.cards[senderCardId];
      if receiverCardId !in db.cards {
        return Failure(CardNotFound);
      }
      var receiverCard := db.cards[receiverCardId];
      if senderCard.ownerId != user || receiverCard.ownerId != user {
        return Failure(NotUserCard);
      }
      if senderCard.status == BLOCKED || receiverCard.status == BLOCKED {
        return Failure(CardBlocked);
      }
      if senderCard.balance < amount {
        return Failure(NotEnoughBalance);
      }
      var transfer := Transfer(db.nextTransferId, senderCardId, receiverCardId, amount, TransferCurrency, now, description);
      transfer := TransferOnCreate(transfer, now);
      db.transfers := db.transfers[transfer.id := transfer];
      db.nextTransferId := db.nextTransferId + 1;
      r := Success(TransferFromEntity(transfer));
    }
  }
}
