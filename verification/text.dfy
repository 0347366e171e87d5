/** The string operations the gateway code is built from, and what they find in pieces
    put together. */
module Text {
  import opened Common

  predicate At(s: string, p: string, i: int) {
    0 <= i && i + |p| <= |s| && s[i..i + |p|] == p
  }

  /** The first place at or after i where p occurs. */
  function FindFrom(s: string, p: string, i: nat): (r: Option<nat>)
    requires i <= |s|
    ensures r.Some? ==> i <= r.value && At(s, p, r.value) && forall j :: i <= j < r.value ==> !At(s, p, j)
    ensures r.None? ==> forall j :: i <= j ==> !At(s, p, j)
    decreases |s| - i
  {
    if At(s, p, i) then Some(i) else if i == |s| then None else FindFrom(s, p, i + 1)
  }

  function Find(s: string, p: string): Option<nat> {
    FindFrom(s, p, 0)
  }

  /** The last place before n where p occurs. */
  function LastBefore(s: string, p: string, n: nat): (r: Option<nat>)
    ensures r.Some? ==> r.value < n && At(s, p, r.value) && forall j :: r.value < j < n ==> !At(s, p, j)
    ensures r.None? ==> forall j :: 0 <= j < n ==> !At(s, p, j)
  {
    if n == 0 then None else if At(s, p, n - 1) then Some(n - 1) else LastBefore(s, p, n - 1)
  }

  function RFind(s: string, p: string): Option<nat> {
    LastBefore(s, p, |s| + 1)
  }

  predicate Has(s: string, p: string) {
    Find(s, p).Some?
  }

  /** Replace every occurrence, left to right, never looking inside a replacement. */
  function Replace(s: string, p: string, r: string): string
    requires p != ""
    decreases |s|
  {
    match Find(s, p)
    case None => s
    case Some(k) => s[..k] + r + Replace(s[k + |p|..], p, r)
  }

  /** What str.strip counts as whitespace. */
  predicate Space(c: char) {
    var n := c as int;
    9 <= n <= 13 || 28 <= n <= 32 || n == 0x85 || n == 0xA0 || n == 0x1680 || 0x2000 <= n <= 0x200A ||
    n == 0x2028 || n == 0x2029 || n == 0x202F || n == 0x205F || n == 0x3000
  }

  function TrimLeft(s: string): string {
    if s != "" && Space(s[0]) then TrimLeft(s[1..]) else s
  }

  function TrimRight(s: string): string {
    if s != "" && Space(s[|s| - 1]) then TrimRight(s[..|s| - 1]) else s
  }

  function Strip(s: string): string {
    TrimLeft(TrimRight(s))
  }

  /** A slice as Python takes it, for a start within bounds and any end. */
  function Slice(s: string, from: nat, to: int): string {
    var end := if to < 0 then Max(0, |s| + to) else Min(to, |s|);
    if from < end then s[from..end] else ""
  }

  // ---- Finding in pieces ----

  lemma SliceOfSlice(s: string, from: nat, to: nat, i: nat, j: nat)
    requires from <= to <= |s| && i <= j <= to - from
    ensures s[from..to][i..j] == s[from + i..from + j]
  {
    var t := s[from..to];
    assert forall k :: i <= k < j ==> t[k] == s[from + k];
    assert |t[i..j]| == |s[from + i..from + j]|;
    assert forall k :: 0 <= k < j - i ==> t[i..j][k] == t[i + k] == s[from + i..from + j][k];
  }

  lemma Pieces(s: string, j: nat, k: nat)
    requires j <= k <= |s|
    ensures s == s[..j] + s[j..k] + s[k..]
  {
  }

  lemma SliceOfParts(a: string, c: string, i: nat, j: nat)
    requires i <= j <= |a + c|
    ensures j <= |a| ==> (a + c)[i..j] == a[i..j]
    ensures |a| <= i ==> (a + c)[i..j] == c[i - |a|..j - |a|]
  {
    var s := a + c;
    if j <= |a| {
      assert forall k :: 0 <= k < j - i ==> s[i..j][k] == s[i + k] == a[i..j][k];
    }
    if |a| <= i {
      assert forall k :: 0 <= k < j - i ==> s[i..j][k] == s[i + k] == c[i + k - |a|] == c[i - |a|..j - |a|][k];
    }
  }

  lemma SameAt(s: string, from: nat, to: nat, p: string, i: nat)
    requires from <= to <= |s|
    ensures At(s[from..to], p, i) <==> At(s, p, from + i) && from + i + |p| <= to
  {
    if from + i + |p| <= to {
      SliceOfSlice(s, from, to, i, i + |p|);
    }
  }

  lemma FindIs(s: string, p: string, k: nat)
    requires At(s, p, k) && forall j :: 0 <= j < k ==> !At(s, p, j)
    ensures Find(s, p) == Some(k)
  {
  }

  lemma RFindIs(s: string, p: string, k: nat)
    requires At(s, p, k) && forall j :: k < j <= |s| ==> !At(s, p, j)
    ensures RFind(s, p) == Some(k)
  {
  }

  lemma RFindLast(s: string, p: string, k: nat)
    requires RFind(s, p) == Some(k)
    ensures forall j :: k < j ==> !At(s, p, j)
  {
  }

  lemma HasAt(s: string, p: string, i: int)
    requires At(s, p, i)
    ensures Has(s, p)
  {
  }

  lemma AtChar(s: string, p: string, i: nat, k: nat)
    requires k < |p|
    ensures At(s, p, i) ==> s[i + k] == p[k]
  {
    if At(s, p, i) {
      assert s[i + k] == s[i..i + |p|][k];
    }
  }

  /** No occurrence of p can straddle a cut: the rest is empty or starts with a character p
      has only at its head, if at all. */
  predicate Cut(c: string, p: string) {
    p != "" && (c == "" || c[0] !in p[1..])
  }

  lemma Straddling(a: string, c: string, p: string, i: nat)
    requires At(a + c, p, i) && i < |a| < i + |p|
    ensures c != "" && c[0] in p[1..]
  {
    var s, k := a + c, |a| - i;
    assert c[0] == s[|a|] == s[i..i + |p|][k] == p[k] == p[1..][k - 1];
  }

  /** Across a cut, p occurs in the first piece or in the second. */
  lemma AtParts(a: string, c: string, p: string, i: int)
    requires Cut(c, p)
    ensures At(a + c, p, i) <==> At(a, p, i) || At(c, p, i - |a|)
  {
    var s := a + c;
    if At(s, p, i) {
      if i >= |a| {
        SliceOfParts(a, c, i, i + |p|);
      } else if i + |p| <= |a| {
        SliceOfParts(a, c, i, i + |p|);
      } else {
        Straddling(a, c, p, i);
        assert false;
      }
    }
    if At(a, p, i) || At(c, p, i - |a|) {
      SliceOfParts(a, c, i, i + |p|);
    }
  }

  lemma HasParts(a: string, c: string, p: string)
    requires Cut(c, p)
    ensures Has(a + c, p) <==> Has(a, p) || Has(c, p)
  {
    if Has(a + c, p) {
      AtParts(a, c, p, Find(a + c, p).value);
    }
    if Has(a, p) {
      AtParts(a, c, p, Find(a, p).value);
    }
    if Has(c, p) {
      AtParts(a, c, p, |a| + Find(c, p).value);
    }
  }

  /** The first occurrence in two pieces: in the first if it is there at all. */
  lemma FindParts(a: string, c: string, p: string)
    requires Cut(c, p)
    ensures Find(a + c, p) == if Has(a, p) then Find(a, p)
                              else if Has(c, p) then Some(|a| + Find(c, p).value) else None
  {
    HasParts(a, c, p);
    if Has(a, p) {
      FindInFirst(a, c, p);
    } else if Has(c, p) {
      FindInSecond(a, c, p);
    }
  }

  lemma FindInFirst(a: string, c: string, p: string)
    requires Cut(c, p) && Has(a, p)
    ensures Find(a + c, p) == Find(a, p)
  {
    var k := Find(a, p).value;
    AtParts(a, c, p, k);
    forall j | 0 <= j < k ensures !At(a + c, p, j) {
      AtParts(a, c, p, j);
    }
    FindIs(a + c, p, k);
  }

  lemma FindInSecond(a: string, c: string, p: string)
    requires Cut(c, p) && !Has(a, p) && Has(c, p)
    ensures Find(a + c, p) == Some(|a| + Find(c, p).value)
  {
    var k := Find(c, p).value;
    AtParts(a, c, p, |a| + k);
    forall j | 0 <= j < |a| + k ensures !At(a + c, p, j) {
      AtParts(a, c, p, j);
    }
    FindIs(a + c, p, |a| + k);
  }

  /** What occurs in the first piece occurs there first, cut or no cut. */
  lemma FindFirst(a: string, c: string, p: string)
    requires Has(a, p)
    ensures Find(a + c, p) == Find(a, p)
  {
    var k := Find(a, p).value;
    forall i | 0 <= i && i + |p| <= |a| ensures At(a + c, p, i) <==> At(a, p, i) {
      SliceOfParts(a, c, i, i + |p|);
    }
    FindIs(a + c, p, k);
  }

  /** The last occurrence in two pieces: in the second if it is there at all. */
  lemma RFindParts(a: string, c: string, p: string)
    requires Cut(c, p) && Has(c, p)
    ensures RFind(c, p).Some? && RFind(a + c, p) == Some(|a| + RFind(c, p).value)
  {
    assert At(c, p, Find(c, p).value);
    forall i | 0 <= i ensures At(a + c, p, i) <==> At(a, p, i) || At(c, p, i - |a|) {
      AtParts(a, c, p, i);
    }
    RFindIs(a + c, p, |a| + RFind(c, p).value);
  }

  /** A pattern right at the head. */
  lemma FindHead(p: string, c: string)
    ensures Find(p + c, p) == Some(0)
  {
    assert (p + c)[..|p|] == p;
    FindIs(p + c, p, 0);
  }

  lemma Infix(s: string, p: string, from: nat, to: nat)
    requires from <= to <= |s| && Has(s[from..to], p)
    ensures Has(s, p)
  {
    var k := Find(s[from..to], p).value;
    SameAt(s, from, to, p, k);
    HasAt(s, p, from + k);
  }

  lemma HasWithin(a: string, m: string, c: string, p: string)
    requires Has(m, p)
    ensures Has(a + m + c, p)
  {
    assert (a + m + c)[|a|..|a| + |m|] == m;
    Infix(a + m + c, p, |a|, |a| + |m|);
  }

  // ---- Replacing ----

  lemma ReplaceNone(s: string, p: string, r: string)
    requires p != "" && !Has(s, p)
    ensures Replace(s, p, r) == s
  {
  }

  lemma ReplaceFirst(s: string, p: string, r: string, a: string, b: string)
    requires p != "" && s == a + p + b && Find(s, p) == Some(|a|)
    ensures Replace(s, p, r) == a + r + Replace(b, p, r)
  {
    assert s[..|a|] == a && s[|a| + |p|..] == b;
  }

  lemma ReplaceLater(a: string, b: string, p: string, r: string, k: nat)
    requires p != "" && p[0] !in p[1..] && Find(a, p) == Some(k)
    ensures Replace(a + p + b, p, r) == a[..k] + r + Replace(a[k + |p|..] + p + b, p, r)
    ensures Replace(a, p, r) == a[..k] + r + Replace(a[k + |p|..], p, r)
  {
    var front, rest := a[..k], a[k + |p|..];
    Pieces(a, k, k + |p|);
    assert a + p + b == a + (p + b);
    FindParts(a, p + b, p);
    ReplaceFirst(a, p, r, front, rest);
    Spread(front, p, rest, p, b);
    ReplaceFirst(a + p + b, p, r, front, rest + p + b);
  }

  lemma Spread(a: string, b: string, c: string, d: string, e: string)
    ensures a + b + c + d + e == a + b + (c + d + e)
  {
  }

  lemma ReplaceNow(a: string, b: string, p: string, r: string)
    requires p != "" && p[0] !in p[1..] && !Has(a, p)
    ensures Replace(a + p + b, p, r) == a + r + Replace(b, p, r)
  {
    assert a + p + b == a + (p + b);
    FindParts(a, p + b, p);
    FindHead(p, b);
    ReplaceFirst(a + p + b, p, r, a, b);
  }

  /** Replacing across an occurrence of an unrepeating pattern works piece by piece. */
  lemma {:induction false} ReplaceParts(a: string, b: string, p: string, r: string)
    requires p != "" && p[0] !in p[1..]
    ensures Replace(a + p + b, p, r) == Replace(a, p, r) + r + Replace(b, p, r)
    decreases |a|
  {
    if Has(a, p) {
      var k := Find(a, p).value;
      var rest := a[k + |p|..];
      ReplaceLater(a, b, p, r, k);
      ReplaceParts(rest, b, p, r);
      Associate(a[..k], r, Replace(rest, p, r), r, Replace(b, p, r));
    } else {
      ReplaceNow(a, b, p, r);
    }
  }

  lemma Associate(a: string, b: string, c: string, d: string, e: string)
    ensures a + b + (c + d + e) == (a + b + c) + d + e
  {
  }

  // ---- Stripping ----

  predicate Blank(s: string) {
    forall i :: 0 <= i < |s| ==> Space(s[i])
  }

  lemma {:induction false} TrimLeftMeaning(s: string)
    ensures var t := TrimLeft(s);
            && |t| <= |s| && s[|s| - |t|..] == t && Blank(s[..|s| - |t|]) && (t == "" || !Space(t[0]))
  {
    if s != "" && Space(s[0]) {
      TrimLeftMeaning(s[1..]);
      assert forall i :: 0 < i < |s| ==> s[i] == s[1..][i - 1];
    }
  }

  lemma {:induction false} TrimRightMeaning(s: string)
    ensures var t := TrimRight(s);
            && |t| <= |s| && s[..|t|] == t && Blank(s[|t|..]) && (t == "" || !Space(t[|t| - 1]))
  {
    if s != "" && Space(s[|s| - 1]) {
      var front := s[..|s| - 1];
      TrimRightMeaning(front);
      assert forall i :: 0 <= i < |front| ==> s[i] == front[i];
    }
  }

  /** Stripping drops blanks at both ends and nothing else. */
  lemma StripMeaning(s: string) returns (from: nat, to: nat)
    ensures from <= to <= |s| && Strip(s) == s[from..to]
    ensures Blank(s[..from]) && Blank(s[to..])
    ensures from < to ==> !Space(s[from]) && !Space(s[to - 1])
  {
    TrimRightMeaning(s);
    TrimLeftMeaning(TrimRight(s));
    to := |TrimRight(s)|;
    from := to - |Strip(s)|;
    assert s[..to][..from] == s[..from] && s[..to][from..] == s[from..to];
    if from < to {
      assert Strip(s)[0] == s[from];
    }
  }

  lemma {:induction false} TrimRightBlank(s: string, w: string)
    requires Blank(w)
    ensures TrimRight(s + w) == TrimRight(s)
    decreases |w|
  {
    if w == "" {
      assert s + w == s;
    } else {
      assert (s + w)[..|s + w| - 1] == s + w[..|w| - 1];
      TrimRightBlank(s, w[..|w| - 1]);
    }
  }

  lemma {:induction false} TrimLeftBlank(w: string, s: string)
    requires Blank(w)
    ensures TrimLeft(w + s) == TrimLeft(s)
    decreases |w|
  {
    if w == "" {
      assert w + s == s;
    } else {
      assert (w + s)[1..] == w[1..] + s;
      TrimLeftBlank(w[1..], s);
    }
  }

  /** Text that is not all blank keeps what follows it from being trimmed on the left. */
  lemma {:induction false} TrimLeftStops(s: string, t: string)
    requires !Blank(s)
    ensures TrimLeft(s + t) == TrimLeft(s) + t
    decreases |s|
  {
    if Space(s[0]) {
      assert (s + t)[1..] == s[1..] + t;
      TrimLeftStops(s[1..], t);
    }
  }

  lemma {:induction false} TrimRightStops(s: string, t: string)
    requires !Blank(t)
    ensures TrimRight(s + t) == s + TrimRight(t)
    ensures !Blank(TrimRight(t))
    decreases |t|
  {
    if Space(t[|t| - 1]) {
      assert (s + t)[..|s + t| - 1] == s + t[..|t| - 1];
      TrimRightStops(s, t[..|t| - 1]);
    }
  }

  /** A pattern without blanks is in the stripped text exactly when it is in the text. */
  lemma HasStrip(s: string, p: string)
    requires p != "" && !Space(p[0]) && !Space(p[|p| - 1])
    ensures Has(Strip(s), p) <==> Has(s, p)
  {
    HasTrimRight(s, p);
    HasTrimLeft(TrimRight(s), p);
  }

  lemma {:induction false} HasTrimRight(s: string, p: string)
    requires p != "" && !Space(p[|p| - 1])
    ensures Has(TrimRight(s), p) <==> Has(s, p)
  {
    if s != "" && Space(s[|s| - 1]) {
      var t := s[..|s| - 1];
      HasTrimRight(t, p);
      if Has(s, p) {
        var k := Find(s, p).value;
        assert s[k + |p| - 1] == s[k..k + |p|][|p| - 1] == p[|p| - 1];
        assert t[k..k + |p|] == s[k..k + |p|];
        HasAt(t, p, k);
      }
      if Has(t, p) {
        Infix(s, p, 0, |s| - 1);
      }
    }
  }

  lemma {:induction false} HasTrimLeft(s: string, p: string)
    requires p != "" && !Space(p[0])
    ensures Has(TrimLeft(s), p) <==> Has(s, p)
  {
    if s != "" && Space(s[0]) {
      var t := s[1..];
      HasTrimLeft(t, p);
      if Has(s, p) {
        var k := Find(s, p).value;
        assert s[k] == s[k..k + |p|][0] == p[0];
        assert t[k - 1..k - 1 + |p|] == s[k..k + |p|];
        HasAt(t, p, k - 1);
      }
      if Has(t, p) {
        assert s[1..|s|] == t;
        Infix(s, p, 1, |s|);
      }
    }
  }

  /** A text that ends in no blank is not trimmed into from behind. */
  lemma {:induction false} TrimRightAfter(d: string, v: string)
    requires d != "" && !Space(d[|d| - 1])
    ensures TrimRight(d + v) == d + TrimRight(v)
    decreases |v|
  {
    if v == "" {
      assert d + v == d;
    } else if Space(v[|v| - 1]) {
      assert (d + v)[..|d + v| - 1] == d + v[..|v| - 1];
      TrimRightAfter(d, v[..|v| - 1]);
    }
  }

  lemma {:induction false} TrimLeftBefore(p: string, d: string)
    requires d != "" && !Space(d[0])
    ensures TrimLeft(p + d) == TrimLeft(p) + d
    decreases |p|
  {
    if p == "" {
      assert p + d == d;
    } else if Space(p[0]) {
      assert (p + d)[1..] == p[1..] + d;
      TrimLeftBefore(p[1..], d);
    }
  }

  /** Stripping around a part that has no blank at either end. */
  lemma StripAround(p: string, d: string, v: string)
    requires d != "" && !Space(d[0]) && !Space(d[|d| - 1])
    ensures Strip(p + d + v) == TrimLeft(p) + d + TrimRight(v)
  {
    TrimRightAfter(p + d, v);
    assert (p + d)[|p + d| - 1] == d[|d| - 1];
    assert p + d + TrimRight(v) == p + (d + TrimRight(v));
    TrimLeftBefore(p, d + TrimRight(v));
    assert TrimLeft(p) + (d + TrimRight(v)) == TrimLeft(p) + d + TrimRight(v);
  }
}
