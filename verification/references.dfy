/** Reference numbers: allocating an order's, deriving its documents', displaying them. */
module References {
  import opened Common

  // ---- Digits ----

  predicate IsDigit(c: char) { '0' <= c <= '9' }

  predicate AllDigits(s: string) { forall i :: 0 <= i < |s| ==> IsDigit(s[i]) }

  function Digit(d: nat): (c: char)
    requires d < 10
    ensures IsDigit(c) && c as int - '0' as int == d
  {
    "0123456789"[d]
  }

  /** Reading decimal digits. */
  function ParseInt(s: string): nat
    requires AllDigits(s)
  {
    if s == "" then 0 else 10 * ParseInt(s[..|s| - 1]) + (s[|s| - 1] as int - '0' as int)
  }

  function Pow10(w: nat): (p: nat)
    ensures p >= 1
  {
    if w == 0 then 1 else 10 * Pow10(w - 1)
  }

  /** The last w decimal digits, zero-padded. */
  function Fixed(n: nat, w: nat): (s: string)
    ensures |s| == w && AllDigits(s)
  {
    if w == 0 then "" else Fixed(n / 10, w - 1) + [Digit(n % 10)]
  }

  /** As many digits as it takes. */
  function Decimal(n: nat): (s: string)
    ensures |s| >= 1 && AllDigits(s)
  {
    if n < 10 then [Digit(n)] else Decimal(n / 10) + [Digit(n % 10)]
  }

  /** Zero-padding to a width, which a longer number outgrows. */
  function Padded(n: nat, w: nat): (s: string)
    ensures AllDigits(s)
  {
    if n < Pow10(w) then Fixed(n, w) else Decimal(n)
  }

  lemma {:induction false} ParseFixed(n: nat, w: nat)
    requires n < Pow10(w)
    ensures ParseInt(Fixed(n, w)) == n
  {
    if w > 0 {
      ParseFixed(n / 10, w - 1);
      var s := Fixed(n, w);
      assert s[..|s| - 1] == Fixed(n / 10, w - 1);
    }
  }

  lemma {:induction false} FixedParse(s: string)
    requires AllDigits(s)
    ensures ParseInt(s) < Pow10(|s|) && Fixed(ParseInt(s), |s|) == s
  {
    if s != "" {
      var front := s[..|s| - 1];
      FixedParse(front);
      assert ParseInt(s) / 10 == ParseInt(front);
      assert s == front + [s[|s| - 1]];
    }
  }

  // ---- Text order ----

  /** The database's order on text, character by character. */
  predicate Leq(s: string, t: string) {
    s == "" || (t != "" && (s[0] < t[0] || (s[0] == t[0] && Leq(s[1..], t[1..]))))
  }

  lemma {:induction false} LeqTotal(s: string, t: string)
    ensures Leq(s, t) || Leq(t, s)
    ensures Leq(s, t) && Leq(t, s) ==> s == t
  {
    if s != "" && t != "" && s[0] == t[0] {
      LeqTotal(s[1..], t[1..]);
      assert s == [s[0]] + s[1..] && t == [t[0]] + t[1..];
    }
  }

  lemma {:induction false} LeqTransitive(s: string, t: string, u: string)
    requires Leq(s, t) && Leq(t, u)
    ensures Leq(s, u)
  {
    if s != "" && s[0] == t[0] && t[0] == u[0] {
      LeqTransitive(s[1..], t[1..], u[1..]);
    }
  }

  lemma {:induction false} LeqAfterPrefix(p: string, s: string, t: string)
    ensures Leq(p + s, p + t) <==> Leq(s, t)
  {
    if p == "" {
      assert p + s == s && p + t == t;
    } else {
      assert (p + s)[1..] == p[1..] + s && (p + t)[1..] == p[1..] + t;
      LeqAfterPrefix(p[1..], s, t);
    }
  }

  lemma {:induction false} LeqLastDigit(s: string, t: string, c: char, d: char)
    requires |s| == |t|
    ensures Leq(s + [c], t + [d]) <==> (Leq(s, t) && s != t) || (s == t && c <= d)
  {
    if s == "" {
      assert s + [c] == [c] && t + [d] == [d];
    } else {
      assert (s + [c])[1..] == s[1..] + [c] && (t + [d])[1..] == t[1..] + [d];
      LeqLastDigit(s[1..], t[1..], c, d);
      assert s == [s[0]] + s[1..] && t == [t[0]] + t[1..];
    }
  }

  /** At a fixed width text order is numeric order. */
  lemma {:induction false} FixedOrder(m: nat, n: nat, w: nat)
    requires m < Pow10(w) && n < Pow10(w)
    ensures Leq(Fixed(m, w), Fixed(n, w)) <==> m <= n
    ensures Fixed(m, w) == Fixed(n, w) <==> m == n
  {
    if w > 0 {
      FixedOrder(m / 10, n / 10, w - 1);
      LeqLastDigit(Fixed(m / 10, w - 1), Fixed(n / 10, w - 1), Digit(m % 10), Digit(n % 10));
      var s, t := Fixed(m, w), Fixed(n, w);
      assert s[..w - 1] == Fixed(m / 10, w - 1) && t[..w - 1] == Fixed(n / 10, w - 1);
      assert s[w - 1] == Digit(m % 10) && t[w - 1] == Digit(n % 10);
    }
  }

  // ---- Allocation ----

  /** The financial year holding a month: July of the first year to June of the next. */
  function FinancialYear(year: int, month: int): (r: (int, int))
    requires 1 <= month <= 12
    ensures r.1 == r.0 + 1
    ensures 12 * r.0 + 7 <= 12 * year + month <= 12 * r.1 + 6
  {
    if month >= 7 then (year, year + 1) else (year - 1, year)
  }

  function Stem(prefix: string, start: nat): string {
    prefix + "-" + Fixed(start % 100, 2) + Fixed((start + 1) % 100, 2) + "-"
  }

  /** One row of the table; soft-deleting keeps the row. */
  datatype Row = Row(reference: string, deleted: bool)

  /** The largest reference under a stem, in text order, deleted rows included. */
  function Latest(rows: seq<Row>, stem: string): Option<string> {
    if rows == [] then None
    else
      var rest, last := Latest(rows[..|rows| - 1], stem), rows[|rows| - 1].reference;
      if !(stem <= last) then rest
      else if rest.None? || Leq(rest.value, last) then Some(last) else rest
  }

  function AfterLastDash(s: string): string {
    if s == "" || s[|s| - 1] == '-' then "" else AfterLastDash(s[..|s| - 1]) + [s[|s| - 1]]
  }

  /** The reference after the latest under a stem; None stands for a latest one that has no
      number. */
  function Following(stem: string, latest: Option<string>, width: nat): Option<string> {
    match latest
    case None => Some(stem + Padded(1, width))
    case Some(l) =>
      var tail := AfterLastDash(l);
      if AllDigits(tail) && tail != "" then Some(stem + Padded(ParseInt(tail) + 1, width)) else None
  }

  function NextReference(rows: seq<Row>, prefix: string, start: nat, width: nat): Option<string> {
    Following(Stem(prefix, start), Latest(rows, Stem(prefix, start)), width)
  }

  const WIDTH := 5
  const LIMIT := 100_000

  /** Creating an order in a financial year, or soft-deleting the i-th row. */
  datatype Event = Create(start: nat) | Delete(i: nat)

  function Step(rows: seq<Row>, prefix: string, e: Event): seq<Row> {
    match e
    case Create(start) =>
      (match NextReference(rows, prefix, start, WIDTH)
       case Some(reference) => rows + [Row(reference, false)]
       case None => rows)
    case Delete(i) => if i < |rows| then rows[i := rows[i].(deleted := true)] else rows
  }

  function Run(rows: seq<Row>, prefix: string, run: seq<Event>): seq<Row> {
    if run == [] then rows else Step(Run(rows, prefix, run[..|run| - 1]), prefix, run[|run| - 1])
  }

  function Under(rows: seq<Row>, stem: string): nat {
    if rows == [] then 0
    else Under(rows[..|rows| - 1], stem) + if stem <= rows[|rows| - 1].reference then 1 else 0
  }

  /** The j-th row is numbered by its place among the rows under the stem. */
  predicate NumberedAt(rows: seq<Row>, stem: string, j: nat)
    requires j < |rows|
  {
    rows[j].reference == stem + Padded(Under(rows[..j + 1], stem), WIDTH)
  }

  /** The rows under a stem are numbered 1, 2, 3 and so on, in order of creation. */
  ghost predicate Numbered(rows: seq<Row>, stem: string) {
    forall j {:trigger NumberedAt(rows, stem, j)} ::
      0 <= j < |rows| && stem <= rows[j].reference ==> NumberedAt(rows, stem, j)
  }

  /** A stem spells its prefix and the last two digits of the two years, in that order. */
  lemma StemSpelled(prefix: string, start: nat)
    ensures var stem, n := Stem(prefix, start), |prefix|;
            && |stem| == n + 6 && stem[..n] == prefix && stem[n] == '-' && stem[n + 5] == '-'
            && AllDigits(stem[n + 1..n + 3]) && ParseInt(stem[n + 1..n + 3]) == start % 100
            && AllDigits(stem[n + 3..n + 5]) && ParseInt(stem[n + 3..n + 5]) == (start + 1) % 100
  {
    var stem, n := Stem(prefix, start), |prefix|;
    assert Pow10(2) == 100;
    ParseFixed(start % 100, 2);
    ParseFixed((start + 1) % 100, 2);
    assert stem[n + 1..n + 3] == Fixed(start % 100, 2);
    assert stem[n + 3..n + 5] == Fixed((start + 1) % 100, 2);
  }

  lemma StemShape(prefix: string, start: nat)
    ensures |Stem(prefix, start)| == |prefix| + 6
    ensures Stem(prefix, start)[|prefix| + 5] == '-'
  {
  }

  lemma {:induction false} TailOfReference(stem: string, digits: string)
    requires stem != "" && stem[|stem| - 1] == '-' && AllDigits(digits)
    ensures AfterLastDash(stem + digits) == digits
  {
    if digits == "" {
      assert stem + digits == stem;
    } else {
      var front := digits[..|digits| - 1];
      assert stem + digits == (stem + front) + [digits[|digits| - 1]];
      assert (stem + digits)[..|stem + digits| - 1] == stem + front;
      TailOfReference(stem, front);
      assert digits == front + [digits[|digits| - 1]];
    }
  }

  lemma {:induction false} LatestMeaning(rows: seq<Row>, stem: string)
    ensures Latest(rows, stem).None? <==> forall i :: 0 <= i < |rows| ==> !(stem <= rows[i].reference)
    ensures Latest(rows, stem).Some? ==>
              && (exists i :: 0 <= i < |rows| && rows[i].reference == Latest(rows, stem).value)
              && stem <= Latest(rows, stem).value
              && forall i :: 0 <= i < |rows| && stem <= rows[i].reference ==> Leq(rows[i].reference, Latest(rows, stem).value)
  {
    if rows != [] {
      var front, last := rows[..|rows| - 1], rows[|rows| - 1].reference;
      LatestMeaning(front, stem);
      var rest := Latest(front, stem);
      if stem <= last {
        LeqTotal(last, last);
        if rest.Some? {
          LeqTotal(rest.value, last);
          forall i | 0 <= i < |front| && stem <= rows[i].reference && Leq(rest.value, last)
            ensures Leq(rows[i].reference, last)
          {
            assert front[i] == rows[i];
            LeqTransitive(rows[i].reference, rest.value, last);
          }
        }
      }
      forall i | 0 <= i < |front| ensures front[i] == rows[i] {
      }
      if rest.Some? {
        var i :| 0 <= i < |front| && front[i].reference == rest.value;
        assert rows[i].reference == rest.value;
      }
    }
  }

  lemma {:induction false} UnderGrows(rows: seq<Row>, stem: string, i: nat)
    requires i < |rows|
    ensures Under(rows[..i + 1], stem) <= Under(rows, stem)
    ensures stem <= rows[i].reference ==> Under(rows[..i + 1], stem) == Under(rows[..i], stem) + 1
  {
    assert rows[..i + 1][..i] == rows[..i];
    if i + 1 == |rows| {
      assert rows[..i + 1] == rows;
    } else {
      UnderGrows(rows[..|rows| - 1], stem, i);
      assert rows[..|rows| - 1][..i + 1] == rows[..i + 1];
    }
  }

  /** The rows under a stem take every place from 1 to their number. */
  lemma {:induction false} PlaceTaken(rows: seq<Row>, stem: string, k: nat) returns (j: nat)
    requires 1 <= k <= Under(rows, stem)
    ensures j < |rows| && stem <= rows[j].reference && Under(rows[..j + 1], stem) == k
  {
    var front := rows[..|rows| - 1];
    if k <= Under(front, stem) {
      j := PlaceTaken(front, stem, k);
      assert front[..j + 1] == rows[..j + 1];
    } else {
      j := |rows| - 1;
      assert rows[..j + 1] == rows;
    }
  }

  lemma {:induction false} SameReferences(rows: seq<Row>, rows': seq<Row>, stem: string)
    requires |rows| == |rows'| && forall i :: 0 <= i < |rows| ==> rows[i].reference == rows'[i].reference
    ensures Under(rows, stem) == Under(rows', stem)
  {
    if rows != [] {
      SameReferences(rows[..|rows| - 1], rows'[..|rows| - 1], stem);
    }
  }

  /** Up to the hundred-thousandth, numbers are written differently, and the text order
      of all but that last one is the numeric order. */
  lemma PaddedOrder(m: nat, n: nat)
    requires 1 <= m <= LIMIT && 1 <= n <= LIMIT
    ensures Padded(m, WIDTH) == Padded(n, WIDTH) <==> m == n
    ensures m < LIMIT && n < LIMIT ==> (Leq(Padded(m, WIDTH), Padded(n, WIDTH)) <==> m <= n)
    ensures Leq(Padded(LIMIT, WIDTH), Padded(LIMIT - 1, WIDTH))
    ensures m < LIMIT ==> ParseInt(Padded(m, WIDTH)) == m
  {
    assert Pow10(5) == LIMIT;
    if m < LIMIT {
      ParseFixed(m, WIDTH);
      if n < LIMIT {
        FixedOrder(m, n, WIDTH);
      }
    }
    LimitDigits();
  }

  lemma LimitDigits()
    ensures Padded(LIMIT, WIDTH) == "100000" && Padded(LIMIT - 1, WIDTH) == "99999"
  {
    assert Pow10(5) == LIMIT;
    assert Decimal(10) == "10";
    assert Decimal(100) == "100";
    assert Decimal(1000) == "1000";
    assert Decimal(10000) == "10000";
    assert Decimal(100000) == "100000";
    assert Fixed(9, 1) == "9";
    assert Fixed(99, 2) == "99";
    assert Fixed(999, 3) == "999";
    assert Fixed(9999, 4) == "9999";
  }

  lemma StemsEqualOrApart(prefix: string, start: nat, other: nat, tail: string)
    requires Stem(prefix, other) <= Stem(prefix, start) + tail
    ensures Stem(prefix, other) == Stem(prefix, start)
  {
    StemShape(prefix, start);
    StemShape(prefix, other);
    var stem := Stem(prefix, start);
    assert (stem + tail)[..|stem|] == stem;
  }

  /** With rows numbered 1 to n under a stem, the text maximum is n, or 99999 when n is 100000. */
  lemma LatestIsPeak(rows: seq<Row>, stem: string)
    requires Numbered(rows, stem) && 1 <= Under(rows, stem) <= LIMIT
    ensures Latest(rows, stem) == Some(stem + Padded(Min(Under(rows, stem), LIMIT - 1), WIDTH))
  {
    var n := Under(rows, stem);
    var peak := Min(n, LIMIT - 1);
    var j := PlaceTaken(rows, stem, peak);
    var top := stem + Padded(peak, WIDTH);
    assert NumberedAt(rows, stem, j);
    forall i | 0 <= i < |rows| && stem <= rows[i].reference ensures Leq(rows[i].reference, top) {
      var k := Under(rows[..i + 1], stem);
      UnderGrows(rows, stem, i);
      assert NumberedAt(rows, stem, i);
      PaddedOrder(k, peak);
      LeqAfterPrefix(stem, Padded(k, WIDTH), Padded(peak, WIDTH));
    }
    LatestMeaning(rows, stem);
    LeqTotal(Latest(rows, stem).value, top);
  }

  lemma NextOfNone(rows: seq<Row>, prefix: string, start: nat)
    requires Under(rows, Stem(prefix, start)) == 0
    ensures NextReference(rows, prefix, start, WIDTH) == Some(Stem(prefix, start) + Padded(1, WIDTH))
  {
    var stem := Stem(prefix, start);
    forall i | 0 <= i < |rows| ensures !(stem <= rows[i].reference) {
      UnderGrows(rows, stem, i);
    }
    LatestMeaning(rows, stem);
  }

  lemma NextOfLatest(stem: string, peak: nat)
    requires stem != "" && stem[|stem| - 1] == '-' && 1 <= peak < LIMIT
    ensures Following(stem, Some(stem + Padded(peak, WIDTH)), WIDTH) == Some(stem + Padded(peak + 1, WIDTH))
  {
    SequenceOf(stem, peak);
  }

  lemma SequenceOf(stem: string, n: nat)
    requires stem != "" && stem[|stem| - 1] == '-' && 1 <= n < LIMIT
    ensures var tail := AfterLastDash(stem + Padded(n, WIDTH));
            AllDigits(tail) && tail != "" && ParseInt(tail) == n
  {
    PaddedOrder(n, n);
    TailOfReference(stem, Padded(n, WIDTH));
  }

  /** The next number is one more than the count, until the count reaches the limit;
      there the allocation repeats the limit. */
  lemma NextIsCount(rows: seq<Row>, prefix: string, start: nat)
    requires Numbered(rows, Stem(prefix, start)) && Under(rows, Stem(prefix, start)) <= LIMIT
    ensures var stem := Stem(prefix, start);
            NextReference(rows, prefix, start, WIDTH) ==
            Some(stem + Padded(Min(Under(rows, stem) + 1, LIMIT), WIDTH))
  {
    var n := Under(rows, Stem(prefix, start));
    if n == 0 {
      NextOfNone(rows, prefix, start);
    } else {
      var peak := Min(n, LIMIT - 1);
      assert peak + 1 == Min(n + 1, LIMIT);
      StemShape(prefix, start);
      LatestIsPeak(rows, Stem(prefix, start));
      NextOfLatest(Stem(prefix, start), peak);
    }
  }

  lemma SameTail(stem: string, s: string, t: string)
    ensures stem + s == stem + t <==> s == t
  {
    assert (stem + s)[|stem|..] == s && (stem + t)[|stem|..] == t;
  }

  lemma NumbersApart(stem: string, m: nat, n: nat)
    requires 1 <= m <= LIMIT && 1 <= n <= LIMIT
    ensures stem + Padded(m, WIDTH) == stem + Padded(n, WIDTH) <==> m == n
  {
    PaddedOrder(m, n);
    SameTail(stem, Padded(m, WIDTH), Padded(n, WIDTH));
  }

  lemma NumberedHere(rows: seq<Row>, stem: string, i: nat)
    requires Numbered(rows, stem) && i < |rows| && stem <= rows[i].reference
    ensures rows[i].reference == stem + Padded(Under(rows[..i + 1], stem), WIDTH)
    ensures Under(rows[..i + 1], stem) == Under(rows[..i], stem) + 1
    ensures Under(rows[..i + 1], stem) <= Under(rows, stem)
  {
    UnderGrows(rows, stem, i);
    assert NumberedAt(rows, stem, i);
  }

  /** A later row under the stem has a larger number. */
  lemma NumbersRise(rows: seq<Row>, stem: string, i: nat, j: nat)
    requires i < j < |rows| && stem <= rows[j].reference
    ensures Under(rows[..i + 1], stem) < Under(rows[..j + 1], stem)
  {
    UnderGrows(rows, stem, j);
    UnderGrows(rows[..j], stem, i);
    assert rows[..j][..i + 1] == rows[..i + 1];
  }

  lemma NextNumberUnused(rows: seq<Row>, stem: string, i: nat)
    requires Numbered(rows, stem) && Under(rows, stem) < LIMIT && i < |rows|
    ensures rows[i].reference != stem + Padded(Under(rows, stem) + 1, WIDTH)
  {
    if stem <= rows[i].reference {
      NumberedHere(rows, stem, i);
      NumbersApart(stem, Under(rows[..i + 1], stem), Under(rows, stem) + 1);
    } else {
      assert stem <= stem + Padded(Under(rows, stem) + 1, WIDTH);
    }
  }

  /** Whether a reference is already in the table. */
  ghost predicate Used(rows: seq<Row>, reference: string) {
    exists i :: 0 <= i < |rows| && rows[i].reference == reference
  }

  /** The allocation is new exactly while fewer than 100,000 rows lie under the stem. */
  lemma NextIsFreshIff(rows: seq<Row>, prefix: string, start: nat)
    requires Numbered(rows, Stem(prefix, start)) && Under(rows, Stem(prefix, start)) <= LIMIT
    ensures NextReference(rows, prefix, start, WIDTH).Some?
    ensures !Used(rows, NextReference(rows, prefix, start, WIDTH).value) <==>
            Under(rows, Stem(prefix, start)) < LIMIT
  {
    var stem := Stem(prefix, start);
    NextIsCount(rows, prefix, start);
    if Under(rows, stem) < LIMIT {
      FreshBelow(rows, stem);
    } else {
      UsedWhenFull(rows, stem);
    }
  }

  lemma FreshBelow(rows: seq<Row>, stem: string)
    requires Numbered(rows, stem) && Under(rows, stem) < LIMIT
    ensures !Used(rows, stem + Padded(Under(rows, stem) + 1, WIDTH))
  {
    forall i | 0 <= i < |rows| ensures rows[i].reference != stem + Padded(Under(rows, stem) + 1, WIDTH) {
      NextNumberUnused(rows, stem, i);
    }
  }

  lemma UsedWhenFull(rows: seq<Row>, stem: string)
    requires Numbered(rows, stem) && Under(rows, stem) == LIMIT
    ensures Used(rows, stem + Padded(LIMIT, WIDTH))
  {
    var j := PlaceTaken(rows, stem, LIMIT);
    assert NumberedAt(rows, stem, j);
  }

  /** Adding a row keeps a stem's numbering if the row is its next number or not under it. */
  lemma AppendKeepsNumbered(rows: seq<Row>, stem: string, row: Row)
    requires Numbered(rows, stem)
    requires stem <= row.reference ==> row.reference == stem + Padded(Under(rows, stem) + 1, WIDTH)
    ensures Numbered(rows + [row], stem)
    ensures Under(rows + [row], stem) == Under(rows, stem) + if stem <= row.reference then 1 else 0
  {
    var now := rows + [row];
    assert now[..|rows|] == rows && now[..|now|] == now;
    forall j | 0 <= j < |now| && stem <= now[j].reference ensures NumberedAt(now, stem, j) {
      if j < |rows| {
        assert now[..j + 1] == rows[..j + 1];
        assert NumberedAt(rows, stem, j);
      }
    }
  }

  lemma DeleteKeepsNumbered(rows: seq<Row>, prefix: string, i: nat, stem: string)
    requires Numbered(rows, stem)
    ensures Numbered(Step(rows, prefix, Delete(i)), stem)
    ensures Under(Step(rows, prefix, Delete(i)), stem) == Under(rows, stem)
  {
    var now := Step(rows, prefix, Delete(i));
    SameReferences(rows, now, stem);
    forall j | 0 <= j < |now| && stem <= now[j].reference ensures NumberedAt(now, stem, j) {
      SameReferences(rows[..j + 1], now[..j + 1], stem);
      assert NumberedAt(rows, stem, j);
    }
  }

  lemma StepOnlyAdds(rows: seq<Row>, prefix: string, e: Event, stem: string)
    ensures Under(rows, stem) <= Under(Step(rows, prefix, e), stem)
  {
    var now := Step(rows, prefix, e);
    if |now| == |rows| {
      SameReferences(rows, now, stem);
    } else {
      assert now[..|now| - 1] == rows;
    }
  }

  /** Over every run of creations and soft deletions in any years, a stem that collects at
      most 100,000 orders has them numbered 1, 2, 3 and so on. */
  lemma {:induction false} NumbersCountUp(prefix: string, run: seq<Event>, start: nat)
    requires Under(Run([], prefix, run), Stem(prefix, start)) <= LIMIT
    ensures Numbered(Run([], prefix, run), Stem(prefix, start))
  {
    if run != [] {
      var stem := Stem(prefix, start);
      var before, e := Run([], prefix, run[..|run| - 1]), run[|run| - 1];
      StepOnlyAdds(before, prefix, e, stem);
      NumbersCountUp(prefix, run[..|run| - 1], start);
      match e
      case Delete(i) => DeleteKeepsNumbered(before, prefix, i, stem);
      case Create(year) =>
        var next := NextReference(before, prefix, year, WIDTH);
        if next.Some? {
          var row := Row(next.value, false);
          var tail :| AllDigits(tail) && next.value == Stem(prefix, year) + tail;
          if stem <= row.reference {
            StemsEqualOrApart(prefix, year, start, tail);
            NextIsCountOrFull(before, prefix, start, year, row);
          } else {
            AppendKeepsNumbered(before, stem, row);
          }
        }
    }
  }

  lemma NextIsCountOrFull(rows: seq<Row>, prefix: string, start: nat, year: nat, row: Row)
    requires Stem(prefix, year) == Stem(prefix, start) && Numbered(rows, Stem(prefix, start))
    requires NextReference(rows, prefix, year, WIDTH) == Some(row.reference)
    requires Under(rows + [row], Stem(prefix, start)) <= LIMIT && Under(rows, Stem(prefix, start)) <= LIMIT
    ensures Numbered(rows + [row], Stem(prefix, start))
  {
    var stem := Stem(prefix, start);
    NextIsCount(rows, prefix, year);
    assert (rows + [row])[..|rows|] == rows;
    assert stem <= row.reference;
    AppendKeepsNumbered(rows, stem, row);
  }

  /** Every order lies under the stem of some year. */
  lemma {:induction false} EveryRowHasAStem(prefix: string, run: seq<Event>, i: nat)
    requires i < |Run([], prefix, run)|
    ensures exists start: nat :: Stem(prefix, start) <= Run([], prefix, run)[i].reference
  {
    if run != [] {
      var before, e := Run([], prefix, run[..|run| - 1]), run[|run| - 1];
      if i < |before| {
        EveryRowHasAStem(prefix, run[..|run| - 1], i);
      } else {
        assert e.Create? && Stem(prefix, e.start) <= Run([], prefix, run)[i].reference;
      }
    }
  }

  /** No number is handed out twice, not even a soft-deleted order's. */
  lemma NeverReissued(prefix: string, run: seq<Event>, i: nat, j: nat)
    requires forall start: nat :: Under(Run([], prefix, run), Stem(prefix, start)) <= LIMIT
    requires i < j < |Run([], prefix, run)|
    ensures Run([], prefix, run)[i].reference != Run([], prefix, run)[j].reference
  {
    var rows := Run([], prefix, run);
    EveryRowHasAStem(prefix, run, i);
    var start: nat :| Stem(prefix, start) <= rows[i].reference;
    var stem := Stem(prefix, start);
    NumbersCountUp(prefix, run, start);
    if stem <= rows[j].reference {
      NumberedHere(rows, stem, i);
      NumberedHere(rows, stem, j);
      NumbersRise(rows, stem, i, j);
      NumbersApart(stem, Under(rows[..i + 1], stem), Under(rows[..j + 1], stem));
    }
  }

  // ---- Derived references ----

  /** An order reference's year pair and sequence digits, if it has the order's form. */
  function ParseOrderReference(reference: string): (parts: Option<(string, string)>)
    ensures parts.Some? ==>
              && |parts.value.0| == 4 && 1 <= |parts.value.1| <= 5
              && AllDigits(parts.value.0) && AllDigits(parts.value.1)
              && reference == "ORD-" + parts.value.0 + "-" + parts.value.1
  {
    var n := |reference|;
    if 10 <= n <= 14 && reference[..4] == "ORD-" && AllDigits(reference[4..8]) && reference[8] == '-' &&
       AllDigits(reference[9..])
    then
      assert reference == "ORD-" + reference[4..8] + "-" + reference[9..];
      Some((reference[4..8], reference[9..]))
    else None
  }

  /** Every text of the form is taken apart into its own parts. */
  lemma ParseSpelled(year: string, sequence: string)
    requires |year| == 4 && 1 <= |sequence| <= 5 && AllDigits(year) && AllDigits(sequence)
    ensures ParseOrderReference("ORD-" + year + "-" + sequence) == Some((year, sequence))
  {
    var r := "ORD-" + year + "-" + sequence;
    assert r[..4] == "ORD-" && r[8] == '-';
    assert r[4..8] == year;
    assert r[9..] == sequence;
  }

  /** A document's reference, built from its order's; None when the order's is malformed. */
  function ReferenceForOrder(reference: string, prefix: string, tag: Option<string>): Option<string> {
    match ParseOrderReference(reference)
    case None => None
    case Some((year, sequence)) =>
      var base := prefix + "-" + year + "-" + Padded(ParseInt(sequence), 5);
      Some(if tag.Some? && tag.value != "" then base + "-" + tag.value else base)
  }

  function TagText(tag: Option<string>): string {
    if tag.Some? then tag.value else ""
  }

  lemma SequenceIsFiveDigits(sequence: string)
    requires AllDigits(sequence) && 1 <= |sequence| <= 5
    ensures ParseInt(sequence) < Pow10(5) && Padded(ParseInt(sequence), 5) == Fixed(ParseInt(sequence), 5)
  {
    FixedParse(sequence);
    PowerGrows(|sequence|, 5);
  }

  lemma {:induction false} PowerGrows(m: nat, n: nat)
    requires m <= n
    ensures Pow10(m) <= Pow10(n)
    decreases n
  {
    if m < n {
      PowerGrows(m, n - 1);
    }
  }

  lemma SplitReference(prefix: string, year: string, digits: string, tail: string,
                       year': string, digits': string, tail': string)
    requires |year| == |year'| && |digits| == |digits'|
    requires prefix + "-" + year + "-" + digits + tail == prefix + "-" + year' + "-" + digits' + tail'
    ensures year == year' && digits == digits' && tail == tail'
  {
    var s, t := prefix + "-" + year + "-" + digits + tail, prefix + "-" + year' + "-" + digits' + tail';
    var i, j := |prefix| + 1, |prefix| + 1 + |year| + 1;
    assert s[i..i + |year|] == year && t[i..i + |year|] == year';
    assert s[j..j + |digits|] == digits && t[j..j + |digits|] == digits';
    assert s[j + |digits|..] == tail && t[j + |digits|..] == tail';
  }

  /** For one prefix, two documents share a reference exactly when their orders agree on the
      year pair and on the sequence as a number, and their labels agree. */
  lemma DerivedReferencesCollideIff(r: string, r': string, prefix: string, tag: Option<string>, tag': Option<string>)
    requires ParseOrderReference(r).Some? && ParseOrderReference(r').Some?
    ensures ReferenceForOrder(r, prefix, tag) == ReferenceForOrder(r', prefix, tag') <==>
            var (year, sequence) := ParseOrderReference(r).value;
            var (year', sequence') := ParseOrderReference(r').value;
            year == year' && ParseInt(sequence) == ParseInt(sequence') && TagText(tag) == TagText(tag')
  {
    var (year, sequence) := ParseOrderReference(r).value;
    var (year', sequence') := ParseOrderReference(r').value;
    SequenceIsFiveDigits(sequence);
    SequenceIsFiveDigits(sequence');
    var digits, digits' := Fixed(ParseInt(sequence), 5), Fixed(ParseInt(sequence'), 5);
    FixedOrder(ParseInt(sequence), ParseInt(sequence'), 5);
    var tail := if TagText(tag) == "" then "" else "-" + TagText(tag);
    var tail' := if TagText(tag') == "" then "" else "-" + TagText(tag');
    DerivedShape(r, prefix, tag);
    DerivedShape(r', prefix, tag');
    assert tail == tail' <==> TagText(tag) == TagText(tag') by {
      if tail == tail' && tail != "" {
        assert tail[1..] == TagText(tag) && tail'[1..] == TagText(tag');
      }
    }
    if ReferenceForOrder(r, prefix, tag) == ReferenceForOrder(r', prefix, tag') {
      SplitReference(prefix, year, digits, tail, year', digits', tail');
    }
  }

  lemma DerivedShape(r: string, prefix: string, tag: Option<string>)
    requires ParseOrderReference(r).Some?
    ensures var (year, sequence) := ParseOrderReference(r).value;
            ReferenceForOrder(r, prefix, tag) ==
            Some(prefix + "-" + year + "-" + Fixed(ParseInt(sequence), 5) +
                 if TagText(tag) == "" then "" else "-" + TagText(tag))
  {
    var (year, sequence) := ParseOrderReference(r).value;
    SequenceIsFiveDigits(sequence);
    var base := prefix + "-" + year + "-" + Fixed(ParseInt(sequence), 5);
    assert base + "" == base;
    assert (base + "-") + TagText(tag) == base + ("-" + TagText(tag));
  }

  /** Numbers written at the allocator's width never collide unless the orders are the same. */
  lemma CanonicalOrdersNeverCollide(r: string, r': string, prefix: string, tag: Option<string>, tag': Option<string>)
    requires ParseOrderReference(r).Some? && ParseOrderReference(r').Some? && |r| == |r'| == 14
    ensures ReferenceForOrder(r, prefix, tag) == ReferenceForOrder(r', prefix, tag') <==>
            r == r' && TagText(tag) == TagText(tag')
  {
    DerivedReferencesCollideIff(r, r', prefix, tag, tag');
    FixedParse(ParseOrderReference(r).value.1);
    FixedParse(ParseOrderReference(r').value.1);
  }

  // ---- Display ----

  predicate IsUpper(c: char) { 'A' <= c <= 'Z' }

  predicate IsAlnum(c: char) { IsDigit(c) || IsUpper(c) || 'a' <= c <= 'z' }

  /** How many leading characters satisfy a class. */
  function Leading(s: string, p: char -> bool): (n: nat)
    ensures n <= |s| && (n < |s| ==> !p(s[n]))
    ensures forall i :: 0 <= i < n ==> p(s[i])
  {
    if s == "" || !p(s[0]) then 0 else 1 + Leading(s[1..], p)
  }

  /** Where the year pair starts, for a value of the displayable form. */
  function YearPosition(value: string): (at: Option<nat>)
    ensures at.Some? ==> at.value + 4 < |value|
  {
    var p := Leading(value, c => IsUpper(c));
    if p == 0 || p + 6 >= |value| || value[p] != '-' || !AllDigits(value[p + 1..p + 5]) || value[p + 5] != '-' then None
    else
      var q := p + 6 + Leading(value[p + 6..], c => IsDigit(c));
      if !(1 <= q - (p + 6) <= 5) then None
      else if q == |value| then Some(p + 1)
      else if value[q] == '-' && q + 1 < |value| && Leading(value[q + 1..], c => IsAlnum(c)) == |value| - q - 1 then Some(p + 1)
      else None
  }

  /** The form shown to people: a slash inside the year pair, and nothing else changed. */
  function FormatReference(value: string): string {
    match YearPosition(value)
    case None => value
    case Some(at) => value[..at + 2] + "/" + value[at + 2..]
  }

  function WithoutSlashes(s: string): string {
    if s == "" then "" else (if s[0] == '/' then "" else [s[0]]) + WithoutSlashes(s[1..])
  }

  lemma {:induction false} SlashFreeUnchanged(s: string)
    requires '/' !in s
    ensures WithoutSlashes(s) == s
  {
    if s != "" {
      assert s == [s[0]] + s[1..];
      SlashFreeUnchanged(s[1..]);
    }
  }

  lemma {:induction false} WithoutSlashesOfParts(s: string, t: string)
    ensures WithoutSlashes(s + t) == WithoutSlashes(s) + WithoutSlashes(t)
  {
    if s == "" {
      assert s + t == t;
    } else {
      assert (s + t)[1..] == s[1..] + t;
      WithoutSlashesOfParts(s[1..], t);
    }
  }

  lemma SlashBetween(a: string, b: string)
    requires '/' !in a && '/' !in b
    ensures WithoutSlashes(a + ("/" + b)) == a + b
  {
    SlashFreeUnchanged(a);
    LeadingSlash(b);
    WithoutSlashesOfParts(a, "/" + b);
  }

  lemma LeadingSlash(b: string)
    requires '/' !in b
    ensures WithoutSlashes("/" + b) == b
  {
    var c := "/" + b;
    assert c[0] == '/' && c[1..] == b;
    SlashFreeUnchanged(b);
  }

  /** Deleting the slash recovers the stored value, so the display form loses nothing. */
  lemma DisplayIsReversible(value: string)
    requires '/' !in value
    ensures WithoutSlashes(FormatReference(value)) == value
  {
    var at := YearPosition(value);
    if at.None? {
      SlashFreeUnchanged(value);
    } else {
      var a, b := value[..at.value + 2], value[at.value + 2..];
      SlashBetween(a, b);
      assert a + "/" + b == a + ("/" + b);
      assert value == a + b;
    }
  }

  /** A derived reference with a plain label displays as its year pair split by a slash. */
  lemma DerivedReferenceDisplay(r: string, prefix: string, tag: Option<string>)
    requires ParseOrderReference(r).Some? && prefix != "" && (forall i :: 0 <= i < |prefix| ==> IsUpper(prefix[i]))
    requires forall i :: 0 <= i < |TagText(tag)| ==> IsAlnum(TagText(tag)[i])
    ensures var (year, sequence) := ParseOrderReference(r).value;
            FormatReference(ReferenceForOrder(r, prefix, tag).value) ==
            prefix + "-" + year[..2] + "/" + year[2..] + "-" + Fixed(ParseInt(sequence), 5) +
            if TagText(tag) == "" then "" else "-" + TagText(tag)
  {
    var (year, sequence) := ParseOrderReference(r).value;
    DerivedShape(r, prefix, tag);
    SequenceIsFiveDigits(sequence);
    SplitDisplay(prefix, year, Fixed(ParseInt(sequence), 5), TagText(tag));
  }

  lemma SplitDisplay(prefix: string, year: string, digits: string, text: string)
    requires prefix != "" && (forall i :: 0 <= i < |prefix| ==> IsUpper(prefix[i]))
    requires |year| == 4 && 1 <= |digits| <= 5 && AllDigits(year) && AllDigits(digits)
    requires forall i :: 0 <= i < |text| ==> IsAlnum(text[i])
    ensures var tail := if text == "" then "" else "-" + text;
            FormatReference(prefix + "-" + year + "-" + digits + tail) ==
            prefix + "-" + year[..2] + "/" + year[2..] + "-" + digits + tail
  {
    var tail := if text == "" then "" else "-" + text;
    YearIsFound(prefix, year, digits, text);
    CutInYear(prefix, year, "-" + digits + tail);
    assert prefix + "-" + year + ("-" + digits + tail) == prefix + "-" + year + "-" + digits + tail;
    assert prefix + "-" + year[..2] + "/" + year[2..] + ("-" + digits + tail) ==
           prefix + "-" + year[..2] + "/" + year[2..] + "-" + digits + tail;
  }

  lemma CutInYear(prefix: string, year: string, tail: string)
    requires |year| == 4
    ensures var value := prefix + "-" + year + tail;
            value[..|prefix| + 3] + "/" + value[|prefix| + 3..] == prefix + "-" + year[..2] + "/" + year[2..] + tail
  {
    var value := prefix + "-" + year + tail;
    assert value[..|prefix| + 3] == prefix + "-" + year[..2];
    assert value[|prefix| + 3..] == year[2..] + tail;
  }

  lemma YearIsFound(prefix: string, year: string, digits: string, text: string)
    requires prefix != "" && (forall i :: 0 <= i < |prefix| ==> IsUpper(prefix[i]))
    requires |year| == 4 && 1 <= |digits| <= 5 && AllDigits(year) && AllDigits(digits)
    requires forall i :: 0 <= i < |text| ==> IsAlnum(text[i])
    ensures YearPosition(prefix + "-" + year + "-" + digits + if text == "" then "" else "-" + text) ==
            Some(|prefix| + 1)
  {
    var tail := if text == "" then "" else "-" + text;
    var value := prefix + "-" + year + "-" + digits + tail;
    var p := |prefix|;
    LeadingIs(prefix, "-" + year + "-" + digits + tail, c => IsUpper(c));
    assert value == prefix + ("-" + year + "-" + digits + tail);
    YearInside(prefix, year, digits + tail);
    assert value == prefix + "-" + year + "-" + (digits + tail);
    LeadingIs(digits, tail, c => IsDigit(c));
    if text != "" {
      assert value[p + 6 + |digits|] == '-' && value[p + 7 + |digits|..] == text;
      LeadingIs(text, "", c => IsAlnum(c));
      assert text + "" == text;
    }
  }

  /** The parts of a value shown with a slash: capital letters, a year pair, one to five
      digits and perhaps a label. */
  predicate Parts(prefix: string, year: string, digits: string, text: string) {
    && prefix != "" && (forall i :: 0 <= i < |prefix| ==> IsUpper(prefix[i]))
    && |year| == 4 && 1 <= |digits| <= 5 && AllDigits(year) && AllDigits(digits)
    && forall i :: 0 <= i < |text| ==> IsAlnum(text[i])
  }

  function LabelOf(text: string): string {
    if text == "" then "" else "-" + text
  }

  predicate Displayable(value: string, prefix: string, year: string, digits: string, text: string) {
    Parts(prefix, year, digits, text) && value == prefix + "-" + year + "-" + digits + LabelOf(text)
  }

  /** The slash appears exactly in values of that form, inside their year pair; every other
      value is shown as it is. */
  lemma DisplayedIff(value: string)
    ensures YearPosition(value).Some? <==> exists p, y, d, t :: Displayable(value, p, y, d, t)
    ensures forall p, y, d, t :: Displayable(value, p, y, d, t) ==>
              FormatReference(value) == p + "-" + y[..2] + "/" + y[2..] + "-" + d + LabelOf(t)
    ensures (forall p, y, d, t :: !Displayable(value, p, y, d, t)) ==> FormatReference(value) == value
  {
    forall p, y, d, t | Displayable(value, p, y, d, t)
      ensures YearPosition(value).Some?
      ensures FormatReference(value) == p + "-" + y[..2] + "/" + y[2..] + "-" + d + LabelOf(t)
    {
      YearIsFound(p, y, d, t);
      SplitDisplay(p, y, d, t);
    }
    if YearPosition(value).Some? {
      FormOf(value);
    }
  }

  lemma FormOf(value: string)
    requires YearPosition(value).Some?
    ensures exists p, y, d, t :: Displayable(value, p, y, d, t)
  {
    var p := Leading(value, c => IsUpper(c));
    var n := Leading(value[p + 6..], c => IsDigit(c));
    TailOf(value, p, n);
    Assembled(value, p, value[p + 6..], n);
  }

  lemma Assembled(value: string, p: nat, tail: string, n: nat)
    requires 0 < p && p + 6 <= |value| && (forall i :: 0 <= i < p ==> IsUpper(value[i]))
    requires value[p] == '-' && AllDigits(value[p + 1..p + 5]) && value[p + 5] == '-' && tail == value[p + 6..]
    requires 1 <= n <= 5 && n <= |tail| && (forall i :: 0 <= i < n ==> IsDigit(tail[i]))
    requires n < |tail| ==> tail[n] == '-' && n + 1 < |tail| && forall i :: n + 1 <= i < |tail| ==> IsAlnum(tail[i])
    ensures Displayable(value, value[..p], value[p + 1..p + 5], tail[..n], if n == |tail| then "" else tail[n + 1..])
  {
    assert Parts(value[..p], value[p + 1..p + 5], tail[..n], if n == |tail| then "" else tail[n + 1..]);
    Joined(value, p, tail, n);
  }

  lemma Joined(value: string, p: nat, tail: string, n: nat)
    requires p + 6 <= |value| && value[p] == '-' && value[p + 5] == '-' && tail == value[p + 6..]
    requires n <= |tail| && (n < |tail| ==> tail[n] == '-' && n + 1 < |tail|)
    ensures value == value[..p] + "-" + value[p + 1..p + 5] + "-" + tail[..n] +
                     LabelOf(if n == |tail| then "" else tail[n + 1..])
  {
    var text := if n == |tail| then "" else tail[n + 1..];
    Rejoined(value, p, tail);
    Rejoin(tail, n, text);
    Regroup(value[..p] + "-" + value[p + 1..p + 5] + "-", tail[..n], LabelOf(text));
  }

  lemma Regroup(a: string, b: string, c: string)
    ensures a + (b + c) == a + b + c
  {
  }

  /** What the last part of a displayable value looks like. */
  lemma TailOf(value: string, p: nat, n: nat)
    requires YearPosition(value).Some? && p == Leading(value, c => IsUpper(c))
    requires n == Leading(value[p + 6..], c => IsDigit(c))
    ensures var tail := value[p + 6..];
            && 1 <= n <= 5
            && (n < |tail| ==> tail[n] == '-' && n + 1 < |tail| && forall i :: n + 1 <= i < |tail| ==> IsAlnum(tail[i]))
  {
    var tail := value[p + 6..];
    if n < |tail| {
      var rest := value[p + 6 + n + 1..];
      assert rest == tail[n + 1..];
      assert forall i :: n + 1 <= i < |tail| ==> tail[i] == rest[i - n - 1];
    }
  }

  lemma Rejoined(value: string, p: nat, tail: string)
    requires p + 6 <= |value| && value[p] == '-' && value[p + 5] == '-' && tail == value[p + 6..]
    ensures value == value[..p] + "-" + value[p + 1..p + 5] + "-" + tail
  {
  }

  lemma Rejoin(tail: string, n: nat, text: string)
    requires n <= |tail| && (n < |tail| ==> tail[n] == '-' && n + 1 < |tail|)
    requires text == if n == |tail| then "" else tail[n + 1..]
    ensures tail == tail[..n] + LabelOf(text)
  {
  }

  lemma YearInside(prefix: string, year: string, rest: string)
    requires |year| == 4
    ensures var value, p := prefix + "-" + year + "-" + rest, |prefix|;
            && |value| == p + 6 + |rest|
            && value[p] == '-' && value[p + 1..p + 5] == year && value[p + 5] == '-' && value[p + 6..] == rest
  {
  }

  lemma {:induction false} LeadingIs(s: string, t: string, p: char -> bool)
    requires forall i :: 0 <= i < |s| ==> p(s[i])
    requires t == "" || !p(t[0])
    ensures Leading(s + t, p) == |s|
  {
    if s == "" {
      assert s + t == t;
    } else {
      assert (s + t)[1..] == s[1..] + t;
      LeadingIs(s[1..], t, p);
    }
  }
}
