/** The `/blocks` listing: limits and cursors as text, one page, and the walk over all pages. */
module Pages {
  import opened Prelude

  const DEFAULT_LIMIT: nat := 25
  const MAX_LIMIT: nat := 100
  const I64_MAX: int := 0x7FFF_FFFF_FFFF_FFFF
  const I64_MIN: int := -0x8000_0000_0000_0000

  // ---------- numbers as text ----------

  const DIGITS: string := "0123456789"

  function DigitValue(c: char): Option<nat> {
    if '0' <= c <= '9' then Some((c - '0') as nat) else None
  }

  /** Value of a non-empty run of decimal digits. */
  function ParseDigits(s: string): Option<nat> {
    if s == [] then None
    else
      match DigitValue(s[|s| - 1])
      case None => None
      case Some(d) =>
        if |s| == 1 then Some(d)
        else
          match ParseDigits(s[..|s| - 1])
          case None => None
          case Some(n) => Some(10 * n + d)
  }

  /** `str::parse::<i64>`: an optional sign, digits, and the 64-bit range. */
  function ParseI64(s: string): Option<int> {
    if s != [] && s[0] == '-' then
      match ParseDigits(s[1..])
      case Some(n) => if 0 - n >= I64_MIN then Some(0 - n) else None
      case None => None
    else
      match ParseDigits(if s != [] && s[0] == '+' then s[1..] else s)
      case Some(n) => if n <= I64_MAX then Some(n) else None
      case None => None
  }

  function Decimal(n: nat): (s: string)
    ensures s != []
  {
    if n < 10 then [DIGITS[n]] else Decimal(n / 10) + [DIGITS[n % 10]]
  }

  lemma {:induction false} DigitsAreDigits(d: nat)
    requires d < 10
    ensures DigitValue(DIGITS[d]) == Some(d)
  {
  }

  lemma {:induction false} DecimalParses(n: nat)
    ensures ParseDigits(Decimal(n)) == Some(n)
    ensures '0' <= Decimal(n)[0] <= '9'
  {
    DigitsAreDigits(n % 10);
    if n >= 10 {
      DecimalParses(n / 10);
      assert Decimal(n)[..|Decimal(n)| - 1] == Decimal(n / 10);
    }
  }

  /** A cursor survives its trip through the URL. */
  lemma {:induction false} CursorRoundTrip(n: nat)
    requires n <= I64_MAX
    ensures ParseI64(Decimal(n)) == Some(n)
  {
    DecimalParses(n);
  }

  /** Missing, unreadable and non-positive limits mean 25; the rest are capped at 100. */
  function ClampLimit(raw: Option<string>): (limit: nat)
    ensures 1 <= limit <= MAX_LIMIT
  {
    if raw.None? then DEFAULT_LIMIT
    else
      match ParseI64(raw.value)
      case Some(n) => if n > 0 then Min(n, MAX_LIMIT) else DEFAULT_LIMIT
      case None => DEFAULT_LIMIT
  }

  predicate AllDigits(s: string) {
    s != [] && forall i :: 0 <= i < |s| ==> '0' <= s[i] <= '9'
  }

  lemma {:induction false} DigitsParse(s: string)
    ensures ParseDigits(s).Some? <==> AllDigits(s)
  {
    if |s| > 1 {
      var n := |s| - 1;
      DigitsParse(s[..n]);
      assert forall i :: 0 <= i < n ==> s[..n][i] == s[i];
    }
  }

  /** Readable is exactly an optional sign and digits whose number fits 64 bits. */
  lemma {:induction false} ParsesIff(s: string)
    ensures var signed := s != [] && (s[0] == '-' || s[0] == '+');
            var digits := if signed then s[1..] else s;
            ParseI64(s).Some? <==>
              AllDigits(digits) && ParseDigits(digits).Some?
              && ParseDigits(digits).value <= (if signed && s[0] == '-' then 0x8000_0000_0000_0000 else I64_MAX)
  {
    DigitsParse(s);
    if s != [] {
      DigitsParse(s[1..]);
    }
  }

  /** The text of a whole number. */
  function Printed(n: int): string {
    if n < 0 then ['-'] + Decimal(-n) else Decimal(n)
  }

  lemma {:induction false} SignedParses(s: string, n: nat)
    requires ParseDigits(s) == Some(n) && n <= 0x8000_0000_0000_0000
    ensures ParseI64(['-'] + s) == Some(0 - n)
  {
    assert (['-'] + s)[1..] == s;
  }

  lemma {:induction false} PlainParses(s: string, n: nat)
    requires ParseDigits(s) == Some(n) && n <= I64_MAX && s != [] && '0' <= s[0] <= '9'
    ensures ParseI64(s) == Some(n)
  {
  }

  lemma {:induction false} PrintedParses(n: int)
    requires I64_MIN <= n <= I64_MAX
    ensures ParseI64(Printed(n)) == Some(n)
  {
    if n < 0 {
      DecimalParses(-n);
      SignedParses(Decimal(-n), -n);
    } else {
      DecimalParses(n);
      PlainParses(Decimal(n), n);
    }
  }

  /** A positive limit is cut at 100; a missing, unreadable, zero or negative one means 25. */
  lemma {:induction false} LimitIs(n: int)
    requires I64_MIN <= n <= I64_MAX
    ensures ClampLimit(Some(Printed(n))) == if n > 100 then 100 else if n > 0 then n else 25
    ensures ClampLimit(None) == 25 && forall s :: ParseI64(s).None? ==> ClampLimit(Some(s)) == 25
  {
    PrintedParses(n);
  }

  // ---------- ORDER BY height DESC ----------

  ghost function MaxOf(s: set<int>): (m: int)
    requires s != {}
    ensures IsMax(s, m)
  {
    HasMax(s);
    var m :| IsMax(s, m);
    m
  }

  /** All of `s`, highest first. */
  ghost function Descending(s: set<int>): seq<int> {
    if s == {} then [] else var m := MaxOf(s); [m] + Descending(s - {m})
  }

  ghost predicate StrictlyDescending(xs: seq<int>) {
    forall i, j :: 0 <= i < j < |xs| ==> xs[i] > xs[j]
  }

  /** The listing holds every element once, in strictly descending order. */
  lemma {:induction false} DescendingSound(s: set<int>)
    ensures StrictlyDescending(Descending(s)) && |Descending(s)| == |s|
    ensures forall x :: x in Descending(s) <==> x in s
  {
    if s == {} {
      assert Descending(s) == [];
    } else {
      var m := MaxOf(s);
      DescendingSound(s - {m});
      var rest := Descending(s - {m});
      assert Descending(s) == [m] + rest;
      forall j | 0 <= j < |rest| ensures rest[j] < m {
        assert rest[j] in rest;
      }
      assert forall x :: x in s <==> x == m || x in s - {m};
    }
  }

  ghost function AtMost(s: set<int>, b: int): set<int> {
    set x | x in s && x <= b
  }

  /** What follows the first `n` entries is the listing of everything below the last of them. */
  lemma {:induction false} DropDescending(s: set<int>, n: nat)
    requires 0 < n <= |Descending(s)|
    ensures Descending(s)[n - 1] in s
    ensures Descending(s)[n..] == Descending(AtMost(s, Descending(s)[n - 1] - 1))
  {
    var m := MaxOf(s);
    var rest := s - {m};
    if n == 1 {
      assert rest == AtMost(s, m - 1);
    } else {
      DropDescending(rest, n - 1);
      var x := Descending(rest)[n - 2];
      assert AtMost(rest, x - 1) == AtMost(s, x - 1) by {
        assert x in rest && x <= m;
      }
      assert Descending(s)[n..] == Descending(rest)[n - 1..];
    }
  }

  // ---------- one page ----------

  /** `list_before`: at most `limit` stored heights, highest first, not above `before`. */
  ghost function ListBefore(stored: set<int>, before: Option<int>, limit: nat): seq<int> {
    var all := Descending(if before.None? then stored else AtMost(stored, before.value));
    all[..Min(limit, |all|)]
  }

  datatype Page = Page(heights: seq<int>, nextCursor: Option<string>)

  /** The next page starts just below this one, unless this one is empty or reaches genesis. */
  function NextBefore(heights: seq<int>): Option<nat> {
    if heights == [] || heights[|heights| - 1] <= 0 then None else Some(heights[|heights| - 1] - 1)
  }

  function CursorText(before: Option<nat>): Option<string> {
    if before.None? then None else Some(Decimal(before.value))
  }

  /** The handler; an unreadable `before` is an invalid query. */
  ghost function ListBlocks(stored: set<int>, limit: Option<string>, before: Option<string>): Result<Page> {
    if before.Some? && ParseI64(before.value).None? then Err(OutOfRange)
    else
      var rows := ListBefore(stored, if before.None? then None else ParseI64(before.value), ClampLimit(limit));
      Ok(Page(rows, CursorText(NextBefore(rows))))
  }

  /** Heights fit the column and are never negative. */
  ghost predicate Heights(stored: set<int>) {
    forall h :: h in stored ==> 0 <= h <= I64_MAX
  }

  ghost function Left(stored: set<int>, before: Option<nat>): set<int> {
    if before.None? then stored else AtMost(stored, before.value)
  }

  /** A page is a prefix of what is left, and its cursor leads to exactly the remainder. */
  ghost predicate Splits(left: set<int>, rows: seq<int>) {
    match NextBefore(rows)
    case None => rows == Descending(left)
    case Some(next) => next + 1 in left && Descending(left) == rows + Descending(AtMost(left, next))
  }

  lemma {:induction false} PrefixSplits(left: set<int>, limit: nat)
    requires Heights(left) && limit >= 1
    ensures Splits(left, Descending(left)[..Min(limit, |Descending(left)|)])
  {
    var all := Descending(left);
    var n := Min(limit, |all|);
    var rows := all[..n];
    assert all == rows + all[n..];
    if rows != [] {
      DropDescending(left, n);
      if rows[n - 1] == 0 {
        assert AtMost(left, -1) == {};
      }
    }
  }

  /** Every readable request is answered by such a page. */
  lemma {:induction false} PageSplits(stored: set<int>, limit: Option<string>, before: Option<nat>)
    requires Heights(stored) && (before.Some? ==> before.value <= I64_MAX)
    ensures var page := ListBlocks(stored, limit, CursorText(before));
            && page.Ok? && page.value.nextCursor == CursorText(NextBefore(page.value.heights))
            && Splits(Left(stored, before), page.value.heights)
  {
    if before.Some? {
      CursorRoundTrip(before.value);
    }
    PrefixSplits(Left(stored, before), ClampLimit(limit));
  }

  /** The error text asks for a non-negative integer, but a negative one is accepted and finds nothing. */
  lemma {:induction false} NegativeCursorFindsNothing(stored: set<int>, limit: Option<string>, before: string)
    requires Heights(stored) && ParseI64(before).Some? && ParseI64(before).value < 0
    ensures ListBlocks(stored, limit, Some(before)) == Ok(Page([], None))
  {
    assert AtMost(stored, ParseI64(before).value) == {};
  }

  // ---------- the walk ----------

  /** The heights at or below `top` never change; blocks may arrive above it. */
  ghost predicate OnlyGrowsAbove(tables: nat -> set<int>, stored: set<int>, top: int) {
    forall k :: AtMost(tables(k), top) == stored
  }

  /** Request `k` of a walk: a cursor text in, a page or an error out. */
  type Server = (nat, Option<string>) -> Result<Page>

  /** The answer to request `k` with cursor `before` splits what the table then holds. */
  ghost predicate PageFits(serve: Server, tables: nat -> set<int>, k: nat, before: Option<nat>) {
    (before.Some? && before.value > I64_MAX) ||
    match serve(k, CursorText(before))
    case Err(_) => false
    case Ok(page) =>
      && page.nextCursor == CursorText(NextBefore(page.heights))
      && Splits(Left(tables(k), before), page.heights)
      && (NextBefore(page.heights).Some? ==> NextBefore(page.heights).value < I64_MAX)
  }

  /** Follow the cursors from `before`. */
  ghost function Walk(serve: Server, tables: nat -> set<int>, k: nat, before: Option<nat>): seq<int>
    requires forall j, b :: PageFits(serve, tables, j, b)
    requires before.Some? ==> before.value <= I64_MAX
    decreases if before.None? then I64_MAX + 1 else before.value
  {
    assert PageFits(serve, tables, k, before);
    var page := serve(k, CursorText(before)).value;
    if page.nextCursor.None? then page.heights
    else page.heights + Walk(serve, tables, k + 1, NextBefore(page.heights))
  }

  lemma {:induction false} AtMostTwice(s: set<int>, a: int, b: int)
    requires b <= a
    ensures AtMost(AtMost(s, a), b) == AtMost(s, b)
  {
  }

  lemma {:induction false} RestIsComplete(
      serve: Server, tables: nat -> set<int>, stored: set<int>, top: int, k: nat, before: Option<nat>)
    requires forall j, b :: PageFits(serve, tables, j, b)
    requires OnlyGrowsAbove(tables, stored, top)
    requires if before.Some? then before.value <= top && before.value <= I64_MAX else tables(k) == stored
    requires forall h :: h in stored ==> h <= top
    ensures Walk(serve, tables, k, before) == Descending(Left(stored, before))
    decreases if before.None? then I64_MAX + 1 else before.value
  {
    assert PageFits(serve, tables, k, before);
    assert AtMost(tables(k), top) == stored;
    var left := Left(tables(k), before);
    if before.Some? {
      AtMostTwice(tables(k), top, before.value);
    }
    assert left == Left(stored, before);
    var rows := serve(k, CursorText(before)).value.heights;
    if NextBefore(rows).Some? {
      var next := NextBefore(rows).value;
      if before.Some? {
        AtMostTwice(stored, before.value, next);
      }
      RestIsComplete(serve, tables, stored, top, k + 1, Some(next));
    }
  }

  /** The handler over changing tables and any limits. */
  ghost function Api(tables: nat -> set<int>, limits: nat -> Option<string>): Server {
    (k: nat, before: Option<string>) => ListBlocks(tables(k), limits(k), before)
  }

  lemma {:induction false} ApiFits(tables: nat -> set<int>, limits: nat -> Option<string>, k: nat, before: Option<nat>)
    requires Heights(tables(k))
    ensures PageFits(Api(tables, limits), tables, k, before)
  {
    if before.None? || before.value <= I64_MAX {
      PageSplits(tables(k), limits(k), before);
    }
  }

  /**
   Following `next_cursor` from the first page ends and yields every height that was stored when the
   walk began, in strictly descending order, none missing and none twice, whatever the gaps, the limits
   and the blocks that arrive above the first page meanwhile.
   */
  lemma {:induction false} WalkIsComplete(tables: nat -> set<int>, limits: nat -> Option<string>)
    requires forall j :: Heights(tables(j))
    requires tables(0) != {} ==> OnlyGrowsAbove(tables, tables(0), MaxOf(tables(0)))
    ensures forall j, b :: PageFits(Api(tables, limits), tables, j, b)
    ensures var walk := Walk(Api(tables, limits), tables, 0, None);
            && StrictlyDescending(walk) && |walk| == |tables(0)|
            && forall h :: h in walk <==> h in tables(0)
  {
    forall j, b ensures PageFits(Api(tables, limits), tables, j, b) {
      ApiFits(tables, limits, j, b);
    }
    DescendingSound(tables(0));
    if tables(0) == {} {
      assert PageFits(Api(tables, limits), tables, 0, None);
    } else {
      RestIsComplete(Api(tables, limits), tables, tables(0), MaxOf(tables(0)), 0, None);
    }
  }
}
