/** The persisted entities: User, Card, CardBlockRequest and Transfer, as the
    rows the repositories hold. A reference from one entity to another is the
    referenced row's id. The JPA lifecycle hooks (PrePersist onCreate,
    PreUpdate onUpdate) are functions from a row and the clock's reading to
    the row they leave behind; equals and hashCode are functions of rows. */
module Entities {
  import opened Wrappers
  import opened Time

  type UserId = nat
  type CardId = nat
  type RequestId = nat
  type TransferId = nat

  /** A Java int: what hashCode returns. */
  type Int32 = x: int | -0x8000_0000 <= x < 0x8000_0000

  /** Two's-complement narrowing of an integer to 32 bits, as Java's int
      arithmetic does on overflow. */
  function WrapInt32(x: int): (r: Int32)
    ensures (r - x) % 0x1_0000_0000 == 0
  {
    (x + 0x8000_0000) % 0x1_0000_0000 - 0x8000_0000
  }

  /** The hash String.hashCode documents, in unbounded integers:
      s[0]*31^(n-1) + s[1]*31^(n-2) + ... + s[n-1]. */
  function StringPolynomial(s: string): int {
    if s == [] then 0 else 31 * StringPolynomial(s[..|s| - 1]) + s[|s| - 1] as int
  }

  /** String.hashCode: h = 31 * h + c over the characters, in int arithmetic.
      It is the documented polynomial, wrapped to 32 bits. */
  function StringHashCode(s: string): (h: Int32)
    ensures s == [] ==> h == 0
    ensures (h - StringPolynomial(s)) % 0x1_0000_0000 == 0
  {
    if s == [] then 0
    else
      var prev := StringHashCode(s[..|s| - 1]);
      HashStep(prev, StringPolynomial(s[..|s| - 1]), s[|s| - 1] as int);
      WrapInt32(31 * prev + s[|s| - 1] as int)
  }

  /** One step of the hash keeps it congruent to the polynomial modulo 2^32. */
  lemma HashStep(prev: int, poly: int, c: int)
    requires (prev - poly) % 0x1_0000_0000 == 0
    ensures (WrapInt32(31 * prev + c) - (31 * poly + c)) % 0x1_0000_0000 == 0
  {
    var w := WrapInt32(31 * prev + c);
    var j := (w - (31 * prev + c)) / 0x1_0000_0000;
    var k := (prev - poly) / 0x1_0000_0000;
    assert w - (31 * prev + c) == j * 0x1_0000_0000;
    assert prev - poly == k * 0x1_0000_0000;
    assert w - (31 * poly + c) == (j + 31 * k) * 0x1_0000_0000;
  }

  /** Long.hashCode: the low 32 bits of v ^ (v >>> 32), read as an int. An id
      below 2^31 hashes to itself. */
  function LongHashCode(v: nat): (h: Int32)
    ensures v < 0x8000_0000 ==> h == v
  {
    var low := (v % 0x1_0000_0000) as bv32;
    var high := ((v / 0x1_0000_0000) % 0x1_0000_0000) as bv32;
    if v < 0x8000_0000 then
      SmallLongHash(v, low, high);
      WrapInt32((low ^ high) as int)
    else WrapInt32((low ^ high) as int)
  }

  /** Below 2^31 the high half is zero and the low half is the value itself. */
  lemma SmallLongHash(v: nat, low: bv32, high: bv32)
    requires v < 0x8000_0000
    requires low == (v % 0x1_0000_0000) as bv32 && high == ((v / 0x1_0000_0000) % 0x1_0000_0000) as bv32
    ensures WrapInt32((low ^ high) as int) == v
  {
    LowHalf(v);
    HighHalf(v);
    XorZero(low, high);
    WrapSmall(v);
  }

  lemma XorZero(low: bv32, high: bv32)
    requires high == 0
    ensures low ^ high == low
  {
  }

  lemma WrapSmall(x: int)
    requires 0 <= x < 0x8000_0000
    ensures WrapInt32(x) == x
  {
    assert (x + 0x8000_0000) % 0x1_0000_0000 == x + 0x8000_0000;
  }

  lemma LowHalf(v: nat)
    requires v < 0x8000_0000
    ensures (v % 0x1_0000_0000) as bv32 as int == v
  {
  }

  lemma HighHalf(v: nat)
    requires v < 0x8000_0000
    ensures ((v / 0x1_0000_0000) % 0x1_0000_0000) as bv32 == 0
  {
    assert v / 0x1_0000_0000 == 0;
  }

  // ---------------------------------------------------------------- User

  datatype Role = USER | ADMIN

  /** User.java is not part of this model; these are the fields the services
      and UserDto read. */
  datatype User = User(
    id: UserId,
    username: string,
    firstName: string,
    lastName: string,
    email: string,
    phone: string,
    role: Role,
    isActive: bool)

  // ---------------------------------------------------------------- Card

  /** Card.Status: a card is in exactly one of these three states. */
  datatype CardStatus = ACTIVE | BLOCKED | EXPIRED

  /** A card row. The card number is held in plaintext here; the column
      stores it encrypted (see EncryptedStringConverter). The balance is a
      real: the rounding of Java's Double is not modelled. */
  datatype Card = Card(
    id: CardId,
    cardNumber: string,
    ownerId: UserId,
    expirationDate: Instant,
    balance: real,
    status: CardStatus,
    createdAt: Instant,
    updatedAt: Instant)

  /** Card.onCreate (PrePersist): stamps createdAt and updatedAt and
      touches nothing else. */
  function CardOnCreate(c: Card, now: Instant): (r: Card)
    ensures r.createdAt == now && r.updatedAt == now
    ensures r.(createdAt := c.createdAt, updatedAt := c.updatedAt) == c
  {
    c.(createdAt := now, updatedAt := now)
  }

  /** Card.onUpdate (PreUpdate): stamps updatedAt only; createdAt is
      declared updatable = false and keeps its value. */
  function CardOnUpdate(c: Card, now: Instant): (r: Card)
    ensures r.updatedAt == now && r.createdAt == c.createdAt
    ensures r.(updatedAt := c.updatedAt) == c
  {
    c.(updatedAt := now)
  }

  /** Card.equals: two cards are equal exactly when their card numbers are;
      the id and every other field are ignored, so two cards with different
      ids and the same number are equal. */
  predicate CardEquals(a: Card, b: Card)
    ensures a.id != b.id && a.cardNumber == b.cardNumber ==> CardEquals(a, b)
    ensures CardEquals(a, b) ==> CardHashCode(a) == CardHashCode(b)
  {
    a.cardNumber == b.cardNumber
  }

  /** Card.hashCode: the card number's String.hashCode, which agrees with the
      documented polynomial of the number modulo 2^32. */
  function CardHashCode(c: Card): (h: Int32)
    ensures (h - StringPolynomial(c.cardNumber)) % 0x1_0000_0000 == 0
  {
    StringHashCode(c.cardNumber)
  }

  /** Card.equals is an equivalence and Card.hashCode agrees with it. */
  lemma CardEqualsContract(a: Card, b: Card, c: Card)
    ensures CardEquals(a, a)
    ensures CardEquals(a, b) ==> CardEquals(b, a)
    ensures CardEquals(a, b) && CardEquals(b, c) ==> CardEquals(a, c)
    ensures CardEquals(a, b) ==> CardHashCode(a) == CardHashCode(b)
  {
  }

  // ---------------------------------------------------------------- CardBlockRequest

  /** CardBlockRequest.Status. */
  datatype RequestStatus = PENDING | APPROVED | REJECTED

  /** A block-request row. card, requestedBy, requestDate and status are
      required columns; processedBy and processedAt are nullable. */
  datatype CardBlockRequest = CardBlockRequest(
    id: RequestId,
    cardId: CardId,
    requestedBy: UserId,
    requestDate: Instant,
    status: RequestStatus,
    processedBy: Option<UserId>,
    processedAt: Option<Instant>)

  /** CardBlockRequest.onCreate (PrePersist): stamps requestDate only. */
  function RequestOnCreate(r: CardBlockRequest, now: Instant): (r': CardBlockRequest)
    ensures r'.requestDate == now
    ensures r'.(requestDate := r.requestDate) == r
  {
    r.(requestDate := now)
  }

  /** CardBlockRequest.equals: equal ids. */
  predicate RequestEquals(a: CardBlockRequest, b: CardBlockRequest)
    ensures a.id == b.id && a.status != b.status ==> RequestEquals(a, b)
    ensures RequestEquals(a, b) ==> RequestHashCode(a) == RequestHashCode(b)
  {
    a.id == b.id
  }

  /** CardBlockRequest.hashCode: the id's Long.hashCode. Transfer.hashCode
      is the same expression; both delegate to LongHashCode, defined once. */
  function RequestHashCode(r: CardBlockRequest): (h: Int32)
    ensures r.id < 0x8000_0000 ==> h == r.id
  {
    LongHashCode(r.id)
  }

  /** CardBlockRequest.equals is an equivalence and hashCode agrees with it. */
  lemma RequestEqualsContract(a: CardBlockRequest, b: CardBlockRequest, c: CardBlockRequest)
    ensures RequestEquals(a, a)
    ensures RequestEquals(a, b) ==> RequestEquals(b, a)
    ensures RequestEquals(a, b) && RequestEquals(b, c) ==> RequestEquals(a, c)
    ensures RequestEquals(a, b) ==> RequestHashCode(a) == RequestHashCode(b)
  {
  }

  // ---------------------------------------------------------------- Transfer

  /** A transfer row. description is the one nullable column; currency is a
      column of length 3. The amount is a real, as the balance is. */
  datatype Transfer = Transfer(
    id: TransferId,
    sourceCardId: CardId,
    targetCardId: CardId,
    amount: real,
    currency: string,
    transferDate: Instant,
    description: Option<string>)

  const CurrencyColumnLength := 3

  /** Transfer.onCreate (PrePersist): stamps transferDate only. */
  function TransferOnCreate(t: Transfer, now: Instant): (t': Transfer)
    ensures t'.transferDate == now
    ensures t'.(transferDate := t.transferDate) == t
  {
    t.(transferDate := now)
  }

  /** Transfer.equals: equal ids. */
  predicate TransferEquals(a: Transfer, b: Transfer)
    ensures a.id == b.id && a.amount != b.amount ==> TransferEquals(a, b)
    ensures TransferEquals(a, b) ==> TransferHashCode(a) == TransferHashCode(b)
  {
    a.id == b.id
  }

  /** Transfer.hashCode: the id's Long.hashCode, the same expression as
      CardBlockRequest.hashCode; both delegate to LongHashCode. */
  function TransferHashCode(t: Transfer): (h: Int32)
    ensures t.id < 0x8000_0000 ==> h == t.id
  {
    LongHashCode(t.id)
  }

  /** Transfer.equals is an equivalence and hashCode agrees with it. */
  lemma TransferEqualsContract(a: Transfer, b: Transfer, c: Transfer)
    ensures TransferEquals(a, a)
    ensures TransferEquals(a, b) ==> TransferEquals(b, a)
    ensures TransferEquals(a, b) && TransferEquals(b, c) ==> TransferEquals(a, c)
    ensures TransferEquals(a, b) ==> TransferHashCode(a) == TransferHashCode(b)
  {
  }
}
