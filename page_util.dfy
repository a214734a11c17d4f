/** PageUtil.setPage: checks the sort field against an allow-list, parses the
    sort direction, and builds the page request. Both failures are
    IllegalArgumentException. PageRequest.of's own checks on page and size
    are not part of this model. */
module PageUtil {
  import opened Wrappers

  datatype Direction = ASC | DESC

  /** PageRequest.of(page, size, direction, sortBy). */
  datatype PageRequest = PageRequest(page: int, size: int, direction: Direction, sortBy: string)

  datatype PageError =
    | SortFieldNotAllowed(field: string)   // "Sorting by field '...' is not allowed"
    | InvalidSortDirection(value: string)  // "Invalid sort direction: '...'. Use 'asc' or 'desc'"

  /** The allow-lists the services pass. */
  const CardSortFields: seq<string> := ["id", "balance", "createdAt", "expirationDate", "status"]
  const RequestSortFields: seq<string> := ["id", "status"]
  const UserSortFields: seq<string> := ["id", "username", "role"]

  /** String.toLowerCase on one character. Only the ASCII letters are
      mapped: no other character's mapping can change whether the result
      reads ASC or DESC below. */
  function ToLower(c: char): char {
    if 'A' <= c <= 'Z' then (c as int + 32) as char else c
  }

  /** String.toUpperCase(Locale.US) on one character, for the characters whose
      upper case is an ASCII letter: the ASCII lower-case letters, and
      U+017F LATIN SMALL LETTER LONG S, whose upper case is 'S'. */
  function ToUpperUS(c: char): char {
    if 'a' <= c <= 'z' then (c as int - 32) as char
    else if c == '\U{017F}' then 'S'
    else c
  }

  /** What Sort.Direction.fromString compares against the constant names:
      setPage lower-cases the argument, then fromString upper-cases it. */
  function Fold(s: string): (f: string)
    ensures |f| == |s|
    ensures forall i :: 0 <= i < |s| ==> f[i] == ToUpperUS(ToLower(s[i]))
  {
    if s == [] then [] else [ToUpperUS(ToLower(s[0]))] + Fold(s[1..])
  }

  /** Sort.Direction.fromString(sortDir.toLowerCase()): Direction.valueOf of
      the folded text, None where valueOf throws. */
  function ParseDirection(sortDir: string): (d: Option<Direction>)
    ensures d == Some(ASC) <==> Fold(sortDir) == "ASC"
    ensures d == Some(DESC) <==> Fold(sortDir) == "DESC"
    ensures d.None? <==> Fold(sortDir) != "ASC" && Fold(sortDir) != "DESC"
  {
    var folded := Fold(sortDir);
    if folded == "ASC" then Some(ASC)
    else if folded == "DESC" then Some(DESC)
    else None
  }

  function SetPage(page: int, size: int, sortBy: string, sortDir: string, allowedSortFields: seq<string>)
    : (r: Result<PageRequest, PageError>)
    ensures r.Success? <==> sortBy in allowedSortFields && ParseDirection(sortDir).Some?
    ensures sortBy !in allowedSortFields ==> r == Failure(SortFieldNotAllowed(sortBy))
    ensures sortBy in allowedSortFields && ParseDirection(sortDir).None? ==> r == Failure(InvalidSortDirection(sortDir))
    ensures r.Success? ==> r.value == PageRequest(page, size, ParseDirection(sortDir).value, sortBy)
  {
    if sortBy !in allowedSortFields then Failure(SortFieldNotAllowed(sortBy))
    else match ParseDirection(sortDir)
      case None => Failure(InvalidSortDirection(sortDir))
      case Some(direction) => Success(PageRequest(page, size, direction, sortBy))
  }

  predicate IsAscii(s: string) {
    forall i :: 0 <= i < |s| ==> s[i] < '\U{80}'
  }

  /** ASCII lower-casing of a whole string. */
  function LowerAscii(s: string): (l: string)
    ensures |l| == |s| && forall i :: 0 <= i < |s| ==> l[i] == ToLower(s[i])
  {
    if s == [] then [] else [ToLower(s[0])] + LowerAscii(s[1..])
  }

  /** On ASCII input the direction is accepted exactly when the text is
      "asc" or "desc" in any mix of cases. */
  lemma {:induction false} ParseDirectionAscii(sortDir: string)
    requires IsAscii(sortDir)
    ensures ParseDirection(sortDir) == Some(ASC) <==> LowerAscii(sortDir) == "asc"
    ensures ParseDirection(sortDir) == Some(DESC) <==> LowerAscii(sortDir) == "desc"
  {
    FoldAsciiIsUpperOfLower(sortDir, "asc", "ASC");
    FoldAsciiIsUpperOfLower(sortDir, "desc", "DESC");
  }

  lemma {:induction false} FoldAsciiIsUpperOfLower(s: string, lower: string, upper: string)
    requires IsAscii(s)
    requires |lower| == |upper| && forall i :: 0 <= i < |lower| ==> 'a' <= lower[i] <= 'z' && upper[i] == ToUpperUS(lower[i])
    ensures Fold(s) == upper <==> LowerAscii(s) == lower
  {
    if LowerAscii(s) == lower {
      assert forall i :: 0 <= i < |s| ==> Fold(s)[i] == upper[i];
    }
    if Fold(s) == upper {
      forall i | 0 <= i < |s|
        ensures LowerAscii(s)[i] == lower[i]
      {
        assert ToUpperUS(ToLower(s[i])) == ToUpperUS(lower[i]);
      }
    }
  }

  /** The controllers' defaults ("id", "asc") give an ascending page by id. */
  lemma DefaultCardPage()
    ensures SetPage(0, 10, "id", "asc", CardSortFields) == Success(PageRequest(0, 10, ASC, "id"))
  {
    assert Fold("asc") == "ASC";
  }

  /** Each listing accepts only its own fields: block requests and users
      cannot be sorted by balance, nor cards by username, while each listing
      can be sorted by id. */
  lemma ListingsHaveTheirOwnFields()
    ensures SetPage(0, 10, "balance", "asc", RequestSortFields) == Failure(SortFieldNotAllowed("balance"))
    ensures SetPage(0, 10, "balance", "asc", UserSortFields) == Failure(SortFieldNotAllowed("balance"))
    ensures SetPage(0, 10, "username", "asc", CardSortFields) == Failure(SortFieldNotAllowed("username"))
    ensures SetPage(0, 10, "status", "DESC", RequestSortFields) == Success(PageRequest(0, 10, DESC, "status"))
    ensures SetPage(0, 10, "role", "asc", UserSortFields) == Success(PageRequest(0, 10, ASC, "role"))
  {
    assert Fold("asc") == "ASC";
    assert Fold("DESC") == "DESC";
    assert "balance" !in RequestSortFields && "balance" !in UserSortFields && "username" !in CardSortFields;
  }

  /** U+017F (long s) upper-cases to S, so it is accepted where an s is
      expected: "a", long s, "c" parses as ascending. */
  lemma LongSIsAccepted()
    ensures ParseDirection("a\U{017F}c") == Some(ASC)
    ensures ParseDirection("de\U{017F}C") == Some(DESC)
  {
    assert Fold("a\U{017F}c") == "ASC";
    assert Fold("de\U{017F}C") == "DESC";
  }
}
