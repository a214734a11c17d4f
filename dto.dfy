/** The response records the services build from entities: CardResponseDto
    (with the card-number mask), CardProcessDto, TransferDto, UserDto and
    UserWithBalanceDto. */
module Dto {
  import opened Wrappers
  import opened Time
  import opened Entities

  /** The mask shown when there is no number, or fewer than four characters. */
  const HiddenNumber: string := "**** **** **** ****"
  const MaskPrefix: string := "**** **** **** "

  /** CardResponseDto.maskCardNumber: everything hidden except the last four
      characters. */
  function MaskCardNumber(fullNumber: Option<string>): (masked: string)
    ensures |masked| == 19 && masked[..15] == MaskPrefix
    ensures fullNumber.None? || |fullNumber.value| < 4 ==> masked == HiddenNumber
    ensures fullNumber.Some? && |fullNumber.value| >= 4 ==>
      masked[15..] == fullNumber.value[|fullNumber.value| - 4..]
  {
    if fullNumber.None? || |fullNumber.value| < 4 then HiddenNumber
    else MaskPrefix + fullNumber.value[|fullNumber.value| - 4..]
  }

  /** The mask reveals nothing but the last four characters: numbers that
      end alike mask alike, whatever comes before. */
  lemma MaskRevealsOnlyLastFour(a: string, b: string)
    requires |a| >= 4 && |b| >= 4 && a[|a| - 4..] == b[|b| - 4..]
    ensures MaskCardNumber(Some(a)) == MaskCardNumber(Some(b))
  {
    assert MaskCardNumber(Some(a))[..15] == MaskCardNumber(Some(b))[..15];
    assert MaskCardNumber(Some(a))[15..] == MaskCardNumber(Some(b))[15..];
    assert MaskCardNumber(Some(a)) == MaskCardNumber(Some(a))[..15] + MaskCardNumber(Some(a))[15..];
    assert MaskCardNumber(Some(b)) == MaskCardNumber(Some(b))[..15] + MaskCardNumber(Some(b))[15..];
  }

  /** Status.name(). */
  function CardStatusName(s: CardStatus): string {
    match s
    case ACTIVE => "ACTIVE"
    case BLOCKED => "BLOCKED"
    case EXPIRED => "EXPIRED"
  }

  function RequestStatusName(s: RequestStatus): string {
    match s
    case PENDING => "PENDING"
    case APPROVED => "APPROVED"
    case REJECTED => "REJECTED"
  }

  function RoleName(r: Role): string {
    match r
    case USER => "USER"
    case ADMIN => "ADMIN"
  }

  /** Distinct states have distinct names, so a response's status or role
      text determines the state it came from. */
  lemma NamesIdentifyStates(a: CardStatus, b: CardStatus, p: RequestStatus, q: RequestStatus, x: Role, y: Role)
    ensures CardStatusName(a) == CardStatusName(b) ==> a == b
    ensures RequestStatusName(p) == RequestStatusName(q) ==> p == q
    ensures RoleName(x) == RoleName(y) ==> x == y
  {
  }

  /** CardResponseDto. createdAt is kept as the timestamp rather than its
      toString() text. */
  datatype CardResponse = CardResponse(
    id: CardId,
    maskedNumber: string,
    ownerName: string,
    balance: real,
    status: string,
    createdAt: Instant)

  /** CardResponseDto.fromEntity; owner is the card's owner row. */
  function CardResponseFromEntity(card: Card, owner: User): (r: CardResponse)
    ensures r.id == card.id && r.balance == card.balance && r.createdAt == card.createdAt
    ensures r.ownerName == owner.firstName + " " + owner.lastName
    ensures r.status == CardStatusName(card.status)
    ensures r.maskedNumber == MaskCardNumber(Some(card.cardNumber))
  {
    CardResponse(
      card.id,
      MaskCardNumber(Some(card.cardNumber)),
      owner.firstName + " " + owner.lastName,
      card.balance,
      CardStatusName(card.status),
      card.createdAt)
  }

  /** CardProcessDto: note that it carries the card number unmasked. */
  datatype CardProcessResponse = CardProcessResponse(id: RequestId, username: string, cardNumber: string, status: string)

  function CardProcessFromEntity(request: CardBlockRequest, requester: User, card: Card): (r: CardProcessResponse)
    ensures r.id == request.id && r.username == requester.username
    ensures r.cardNumber == card.cardNumber
    ensures r.status == RequestStatusName(request.status)
  {
    CardProcessResponse(request.id, requester.username, card.cardNumber, RequestStatusName(request.status))
  }

  /** TransferDto. */
  datatype TransferResponse = TransferResponse(senderCardId: CardId, receiverCardId: CardId, amount: real, transferDate: Instant)

  function TransferFromEntity(t: Transfer): (r: TransferResponse)
    ensures r.senderCardId == t.sourceCardId && r.receiverCardId == t.targetCardId
    ensures r.amount == t.amount && r.transferDate == t.transferDate
  {
    TransferResponse(t.sourceCardId, t.targetCardId, t.amount, t.transferDate)
  }

  /** UserDto. */
  datatype UserResponse = UserResponse(
    id: UserId,
    username: string,
    firstName: string,
    lastName: string,
    email: string,
    phone: string,
    role: string,
    isActive: bool)

  function UserFromEntity(u: User): (r: UserResponse)
    ensures r.id == u.id && r.username == u.username && r.isActive == u.isActive
    ensures r.firstName == u.firstName && r.lastName == u.lastName
    ensures r.email == u.email && r.phone == u.phone
    ensures r.role == RoleName(u.role)
  {
    UserResponse(u.id, u.username, u.firstName, u.lastName, u.email, u.phone, RoleName(u.role), u.isActive)
  }

  /** UserWithBalanceDto. */
  datatype UserWithBalance = UserWithBalance(user: UserResponse, balance: real)
}
