/** Signing an XML payload for the gateway: what is signed, where the signature goes, and
    that putting it there does not change what was signed. */
module Signing {
  import opened Common
  import opened Text

  const OPEN: string := "<signature>"
  const CLOSE: string := "</signature>"
  const HEAD: string := "<Gepg>"
  const TAIL: string := "</Gepg>"
  const DUMMY: string := "SignatureGoesHere"

  function Element(signature: string): string {
    OPEN + signature + CLOSE
  }

  /** The payload without its signature element. */
  function Excised(xml: string): string {
    if Has(xml, OPEN) && Has(xml, CLOSE) then
      xml[..Find(xml, OPEN).value] + xml[Find(xml, CLOSE).value + |CLOSE|..]
    else xml
  }

  /** What lies between the envelope's tags; without an opening tag, everything. */
  function Body(xml: string): string {
    match Find(xml, HEAD)
    case None => xml
    case Some(k) => Slice(xml, k + |HEAD|, match RFind(xml, TAIL) case None => -1 case Some(e) => e)
  }

  /** The text a signature covers. */
  function InnerContent(xml: string): string {
    Strip(Body(Excised(xml)))
  }

  function SignPayload(xml: string, sign: string -> string): string {
    var element := Element(sign(InnerContent(xml)));
    if Has(xml, Element(DUMMY)) then Replace(xml, Element(DUMMY), element)
    else Replace(xml, TAIL, "  " + element + "\n" + TAIL)
  }

  /** The text of the first signature element, empty if there is none. */
  function SignatureText(xml: string): string {
    if Has(xml, OPEN) && Has(xml, CLOSE) then
      Slice(xml, Find(xml, OPEN).value + |OPEN|, Find(xml, CLOSE).value)
    else ""
  }

  predicate VerifyPayload(xml: string, verify: (string, string) -> bool) {
    SignatureText(xml) != "" && verify(SignatureText(xml), InnerContent(xml))
  }

  /** A signature scheme as the gateway uses it: encoded text, never empty, accepted for the
      text it signs. */
  ghost predicate Scheme(sign: string -> string, verify: (string, string) -> bool) {
    forall m: string :: verify(sign(m), m) && sign(m) != "" && '<' !in sign(m)
  }

  predicate Unsigned(s: string) {
    !Has(s, OPEN) && !Has(s, CLOSE)
  }

  lemma NoCloseInside(signature: string)
    requires '<' !in signature
    ensures !Has(OPEN + signature, CLOSE)
  {
    var s := OPEN + signature;
    assert forall i :: 0 < i < |s| ==> s[i] != '<';
    forall i | 0 <= i ensures !At(s, CLOSE, i) {
      AtChar(s, CLOSE, i, 0);
      AtChar(s, CLOSE, i, 1);
    }
  }

  lemma OpeningFound(a: string, rest: string)
    requires !Has(a, OPEN)
    ensures Find(a + (OPEN + rest), OPEN) == Some(|a|)
  {
    FindParts(a, OPEN + rest, OPEN);
    FindHead(OPEN, rest);
  }

  lemma ClosingFound(a: string, front: string, b: string)
    requires !Has(a, CLOSE) && !Has(front, CLOSE) && front != "" && front[0] == '<'
    ensures Find(a + (front + (CLOSE + b)), CLOSE) == Some(|a| + |front|)
  {
    FindHead(CLOSE, b);
    FindParts(front, CLOSE + b, CLOSE);
    FindParts(a, front + (CLOSE + b), CLOSE);
  }

  lemma Grouped(a: string, signature: string, b: string)
    ensures a + (Element(signature) + b) == a + (OPEN + (signature + (CLOSE + b)))
    ensures a + (Element(signature) + b) == a + ((OPEN + signature) + (CLOSE + b))
  {
  }

  lemma TagsFound(a: string, signature: string, b: string)
    requires Unsigned(a) && '<' !in signature
    ensures var x := a + (Element(signature) + b);
            Find(x, OPEN) == Some(|a|) && Find(x, CLOSE) == Some(|a| + |OPEN + signature|)
  {
    Grouped(a, signature, b);
    OpeningFound(a, signature + (CLOSE + b));
    NoCloseInside(signature);
    ClosingFound(a, OPEN + signature, b);
  }

  lemma FoundAt(x: string, i: nat, j: nat)
    requires Find(x, OPEN) == Some(i) && Find(x, CLOSE) == Some(j) && i + |OPEN| <= j
    ensures j + |CLOSE| <= |x|
    ensures Excised(x) == x[..i] + x[j + |CLOSE|..] && SignatureText(x) == x[i + |OPEN|..j]
  {
  }

  /** Wherever its element stands, the signature is found and cut out again. */
  lemma ElementFound(a: string, signature: string, b: string)
    requires Unsigned(a) && '<' !in signature
    ensures var x := a + (Element(signature) + b);
            Excised(x) == a + b && SignatureText(x) == signature
  {
    var x, i, j := a + (Element(signature) + b), |a|, |a| + |OPEN + signature|;
    TagsFound(a, signature, b);
    FoundAt(x, i, j);
    Layout(a, signature, b);
  }

  lemma Layout(a: string, signature: string, b: string)
    ensures var x := a + (Element(signature) + b);
            && |x| == |a| + |OPEN| + |signature| + |CLOSE| + |b|
            && x[..|a|] == a && x[|a| + |OPEN| + |signature| + |CLOSE|..] == b
            && x[|a| + |OPEN|..|a| + |OPEN| + |signature|] == signature
  {
  }

  // ---- In place of the placeholder ----

  /** An occurrence of the placeholder begins with an opening tag. */
  lemma DummyOpens(s: string, i: nat)
    requires At(s, Element(DUMMY), i)
    ensures At(s, OPEN, i)
  {
    assert s[i..i + |OPEN|] == s[i..i + |Element(DUMMY)|][..|OPEN|] == OPEN;
  }

  lemma FirstDummy(a: string, b: string)
    requires !Has(a, OPEN)
    ensures Find(a + Element(DUMMY) + b, Element(DUMMY)) == Some(|a|)
  {
    var c := Element(DUMMY) + b;
    var x := a + Element(DUMMY) + b;
    assert x == a + c && x[|a|..|a| + |Element(DUMMY)|] == Element(DUMMY);
    forall i | 0 <= i < |a| ensures !At(x, Element(DUMMY), i) {
      if At(x, Element(DUMMY), i) {
        DummyOpens(x, i);
        AtParts(a, c, OPEN, i);
        HasAt(a, OPEN, i);
      }
    }
    FindIs(x, Element(DUMMY), |a|);
  }

  lemma PlacedWhole(a: string, b: string, signature: string)
    requires !Has(a, OPEN)
    ensures var x := a + Element(DUMMY) + b;
            && Has(x, Element(DUMMY))
            && Replace(x, Element(DUMMY), Element(signature)) ==
               a + Element(signature) + Replace(b, Element(DUMMY), Element(signature))
  {
    FirstDummy(a, b);
    ReplaceFirst(a + Element(DUMMY) + b, Element(DUMMY), Element(signature), a, b);
  }

  lemma ContentAround(a: string, signature: string, b: string)
    requires Unsigned(a) && '<' !in signature
    ensures var x := a + Element(signature) + b;
            InnerContent(x) == Strip(Body(a + b)) && SignatureText(x) == signature
  {
    assert a + Element(signature) + b == a + (Element(signature) + b);
    ElementFound(a, signature, b);
  }

  lemma SignedInPlace(a: string, b: string, sign: string -> string)
    requires !Has(a, OPEN) && !Has(b, Element(DUMMY))
    ensures var x := a + Element(DUMMY) + b; SignPayload(x, sign) == a + Element(sign(InnerContent(x))) + b
  {
    var signature := sign(InnerContent(a + Element(DUMMY) + b));
    PlacedWhole(a, b, signature);
    ReplaceNone(b, Element(DUMMY), Element(signature));
  }

  lemma Accepted(y: string, content: string, sign: string -> string, verify: (string, string) -> bool)
    requires Scheme(sign, verify) && SignatureText(y) == sign(content) && InnerContent(y) == content
    ensures VerifyPayload(y, verify)
  {
  }

  /** Whatever element stands there, the content is that of the text around it. */
  lemma PlacedContent(a: string, b: string, sign: string -> string)
    requires Unsigned(a) && !Has(b, Element(DUMMY))
    requires '<' !in sign(InnerContent(a + Element(DUMMY) + b))
    ensures var x := a + Element(DUMMY) + b;
            && InnerContent(x) == Strip(Body(a + b))
            && InnerContent(SignPayload(x, sign)) == InnerContent(x)
            && SignatureText(SignPayload(x, sign)) == sign(InnerContent(x))
  {
    var x := a + Element(DUMMY) + b;
    var signature := sign(InnerContent(x));
    NoAngleInDummy();
    SignedInPlace(a, b, sign);
    ContentAround(a, DUMMY, b);
    ContentAround(a, signature, b);
    assert SignPayload(x, sign) == a + Element(signature) + b;
  }

  lemma NoAngleInDummy()
    ensures '<' !in DUMMY
  {
  }

  /** Signing in place of the placeholder: what is signed is what was to be signed, and the
      signed payload verifies. */
  lemma PlaceholderSigned(a: string, b: string, sign: string -> string, verify: (string, string) -> bool)
    requires Unsigned(a) && !Has(b, Element(DUMMY)) && Scheme(sign, verify)
    ensures var x := a + Element(DUMMY) + b;
            && InnerContent(x) == Strip(Body(a + b))
            && SignPayload(x, sign) == a + Element(sign(InnerContent(x))) + b
            && InnerContent(SignPayload(x, sign)) == InnerContent(x)
            && VerifyPayload(SignPayload(x, sign), verify)
  {
    var x := a + Element(DUMMY) + b;
    PlacedContent(a, b, sign);
    SignedInPlace(a, b, sign);
    Accepted(SignPayload(x, sign), InnerContent(x), sign, verify);
  }

  // ---- Before the closing tag ----

  function Insertion(signature: string): string {
    "  " + Element(signature) + "\n" + TAIL
  }

  lemma TailsUnrepeating()
    ensures TAIL[0] !in TAIL[1..] && OPEN[0] !in OPEN[1..] && CLOSE[0] !in CLOSE[1..] && HEAD[0] !in HEAD[1..]
  {
  }

  /** With no signature yet and one closing tag, the signature goes just before the tag. */
  lemma InsertedOnce(p: string, q: string, signature: string)
    requires Unsigned(p) && !Has(p, TAIL) && !Has(q, TAIL) && '<' !in signature
    ensures var y := Replace(p + TAIL + q, TAIL, Insertion(signature));
            && y == p + Insertion(signature) + q
            && SignatureText(y) == signature
            && Excised(y) == p + "  \n" + TAIL + q
  {
    TailsUnrepeating();
    ReplaceParts(p, q, TAIL, Insertion(signature));
    ReplaceNone(p, TAIL, Insertion(signature));
    ReplaceNone(q, TAIL, Insertion(signature));
    InsertionExcised(p, q, signature);
  }

  lemma InsertionExcised(p: string, q: string, signature: string)
    requires Unsigned(p) && '<' !in signature
    ensures var y := p + Insertion(signature) + q;
            && SignatureText(y) == signature
            && Excised(y) == p + "  \n" + TAIL + q
  {
    InsertionLayout(p, q, signature);
    UnsignedBlank(p);
    ElementFound(p + "  ", signature, "\n" + TAIL + q);
  }

  lemma InsertionLayout(p: string, q: string, signature: string)
    ensures p + Insertion(signature) + q == (p + "  ") + (Element(signature) + ("\n" + TAIL + q))
    ensures (p + "  ") + ("\n" + TAIL + q) == p + "  \n" + TAIL + q
  {
  }

  lemma UnsignedBlank(p: string)
    requires Unsigned(p)
    ensures Unsigned(p + "  ")
  {
    HasParts(p, "  ", OPEN);
    HasParts(p, "  ", CLOSE);
  }

  /** The last closing tag, when none follows it. */
  lemma LastTail(p: string, q: string)
    requires !Has(q, TAIL)
    ensures RFind(p + TAIL + q, TAIL) == Some(|p|)
  {
    var c := TAIL + q;
    assert p + TAIL + q == p + c;
    assert At(c, TAIL, 0) by { assert c[..|TAIL|] == TAIL; }
    HasAt(c, TAIL, 0);
    forall j | 0 < j <= |c| ensures !At(c, TAIL, j) {
      TailNotInside(q, j);
    }
    RFindIs(c, TAIL, 0);
    RFindParts(p, c, TAIL);
  }

  lemma TailNotInside(q: string, j: nat)
    requires !Has(q, TAIL) && 0 < j
    ensures !At(TAIL + q, TAIL, j)
  {
    var c := TAIL + q;
    AtChar(c, TAIL, j, 0);
    if j < |TAIL| {
      assert c[j] == TAIL[1..][j - 1];
    } else if At(c, TAIL, j) {
      SliceOfParts(TAIL, q, j, j + |TAIL|);
      HasAt(q, TAIL, j - |TAIL|);
    }
  }

  /** What an envelope holds, when its opening tag comes before the last closing one. */
  lemma EnvelopeBody(p: string, q: string)
    requires Has(p, HEAD) && !Has(q, TAIL)
    ensures Find(p, HEAD).value + |HEAD| <= |p|
    ensures Body(p + TAIL + q) == p[Find(p, HEAD).value + |HEAD|..]
  {
    var x, k := p + TAIL + q, Find(p, HEAD).value;
    assert x == p + (TAIL + q);
    FindParts(p, TAIL + q, HEAD);
    LastTail(p, q);
    assert x[k + |HEAD|..|p|] == p[k + |HEAD|..];
  }

  lemma UnsignedContent(x: string)
    requires Unsigned(x)
    ensures Excised(x) == x && !Has(x, Element(DUMMY)) && !Has(InnerContent(x), OPEN)
  {
    if Has(x, Element(DUMMY)) {
      DummyOpens(x, Find(x, Element(DUMMY)).value);
      HasAt(x, OPEN, Find(x, Element(DUMMY)).value);
    }
    HasStrip(Body(x), OPEN);
    BodyIsInfix(x);
  }

  lemma BodyIsInfix(x: string)
    ensures Has(Body(x), OPEN) ==> Has(x, OPEN)
  {
    var k := Find(x, HEAD);
    if k.Some? && Has(Body(x), OPEN) {
      var from, to := k.value + |HEAD|, match RFind(x, TAIL) case None => -1 case Some(e) => e;
      var end := if to < 0 then Max(0, |x| + to) else Min(to, |x|);
      if from < end {
        Infix(x, OPEN, from, end);
      }
    }
  }

  lemma SignedByInsertion(x: string, sign: string -> string)
    requires Unsigned(x)
    ensures SignPayload(x, sign) == Replace(x, TAIL, Insertion(sign(InnerContent(x))))
  {
    UnsignedContent(x);
  }

  lemma UnsignedBefore(p: string, q: string)
    requires Unsigned(p + TAIL + q)
    ensures Unsigned(p)
  {
    assert p + TAIL + q == p + (TAIL + q);
    UnsignedFront(p, TAIL + q);
  }

  /** An unsigned payload is cut at its only closing tag. */
  lemma SignedOnce(p: string, q: string, sign: string -> string)
    requires var x := p + TAIL + q; Unsigned(x) && '<' !in sign(InnerContent(x))
    requires !Has(p, TAIL) && !Has(q, TAIL)
    ensures var x := p + TAIL + q;
            && Excised(SignPayload(x, sign)) == p + "  \n" + TAIL + q
            && SignatureText(SignPayload(x, sign)) == sign(InnerContent(x))
  {
    var x := p + TAIL + q;
    UnsignedBefore(p, q);
    SignedByInsertion(x, sign);
    InsertedOnce(p, q, sign(InnerContent(x)));
  }

  lemma UnsignedFront(p: string, c: string)
    requires Unsigned(p + c)
    ensures Unsigned(p)
  {
    assert "" + p + c == p + c;
    if Has(p, OPEN) {
      HasWithin("", p, c, OPEN);
    }
    if Has(p, CLOSE) {
      HasWithin("", p, c, CLOSE);
    }
  }

  lemma PaddedBody(p: string, q: string)
    requires Has(p, HEAD) && !Has(q, TAIL)
    ensures Body(p + "  \n" + TAIL + q) == Body(p + TAIL + q) + "  \n"
  {
    EnvelopeBody(p, q);
    BodyAfter(p, "  \n", q);
  }

  /** Blanks before the closing tag do not show. */
  lemma PaddedEnvelope(p: string, q: string)
    requires Has(p, HEAD) && !Has(q, TAIL)
    ensures Strip(Body(p + "  \n" + TAIL + q)) == Strip(Body(p + TAIL + q))
  {
    PaddedBody(p, q);
    TrimRightBlank(Body(p + TAIL + q), "  \n");
  }

  /** Signing before the only closing tag of an envelope keeps what is signed. */
  lemma EnvelopeSigned(p: string, q: string, sign: string -> string)
    requires var x := p + TAIL + q; Unsigned(x) && '<' !in sign(InnerContent(x))
    requires !Has(p, TAIL) && !Has(q, TAIL) && Has(p, HEAD)
    ensures var x := p + TAIL + q; InnerContent(SignPayload(x, sign)) == InnerContent(x)
  {
    SignedOnce(p, q, sign);
    UnsignedContent(p + TAIL + q);
    PaddedEnvelope(p, q);
  }

  lemma PaddedBare(p: string, q: string)
    requires !Has(p + TAIL + q, HEAD)
    ensures !Has(p + "  \n" + TAIL + q, HEAD)
  {
    var c := TAIL + q;
    assert p + TAIL + q == p + c;
    HasParts(p, c, HEAD);
    assert p + "  \n" + TAIL + q == p + ("  \n" + c);
    HasParts(p, "  \n" + c, HEAD);
    HasParts("  \n", c, HEAD);
    NoHeadInBlank();
  }

  /** Without an opening tag the whole payload is signed, and the line put before the closing
      tag shows unless only blanks come before it. */
  lemma BareSigned(p: string, q: string, sign: string -> string)
    requires var x := p + TAIL + q; Unsigned(x) && '<' !in sign(InnerContent(x)) && !Has(x, HEAD)
    requires !Has(p, TAIL) && !Has(q, TAIL)
    ensures var x := p + TAIL + q; InnerContent(SignPayload(x, sign)) == InnerContent(x) <==> Blank(p)
  {
    SignedOnce(p, q, sign);
    UnsignedContent(p + TAIL + q);
    PaddedBare(p, q);
    BareBodies(p, q);
  }

  lemma BareBodies(p: string, q: string)
    requires !Has(p + TAIL + q, HEAD) && !Has(p + "  \n" + TAIL + q, HEAD)
    ensures Strip(Body(p + "  \n" + TAIL + q)) == Strip(Body(p + TAIL + q)) <==> Blank(p)
  {
    var t := TAIL + q;
    assert p + TAIL + q == p + t;
    assert p + "  \n" + TAIL + q == p + "  \n" + t;
    BlankBefore(p, t);
  }

  lemma NoHeadInBlank()
    ensures !Has("  \n", HEAD)
  {
  }

  lemma BlankBefore(p: string, t: string)
    requires t != "" && !Space(t[0])
    ensures Strip(p + "  \n" + t) == Strip(p + t) <==> Blank(p)
  {
    var u := TrimRight(t);
    TrimRightStops(p, t);
    TrimRightStops(p + "  \n", t);
    if Blank(p) {
      TrimLeftBlank(p, u);
      TrimLeftBlank(p + "  \n", u);
    } else {
      TrimLeftStops(p, u);
      assert !Blank(p + "  \n") by {
        var i :| 0 <= i < |p| && !Space(p[i]);
        assert (p + "  \n")[i] == p[i];
      }
      TrimLeftStops(p + "  \n", u);
      TrimLeftStops(p, "  \n");
      assert |TrimLeft(p + "  \n") + u| == |TrimLeft(p) + u| + 3;
    }
  }

  // ---- More than one closing tag ----

  lemma {:induction false} HeadSurvives(m: string, r: string)
    requires Has(m, HEAD)
    ensures Has(Replace(m, TAIL, r), HEAD)
    decreases |m|
  {
    TailsUnrepeating();
    if Has(m, TAIL) {
      var k := Find(m, TAIL).value;
      var u, v := m[..k], m[k + |TAIL|..];
      assert m == u + TAIL + v;
      HeadBesideTail(u, v);
      ReplaceFirst(m, TAIL, r, u, v);
      if Has(u, HEAD) {
        assert "" + u + (r + Replace(v, TAIL, r)) == u + r + Replace(v, TAIL, r);
        HasWithin("", u, r + Replace(v, TAIL, r), HEAD);
      } else {
        HeadSurvives(v, r);
        assert (u + r) + Replace(v, TAIL, r) + "" == u + r + Replace(v, TAIL, r);
        HasWithin(u + r, Replace(v, TAIL, r), "", HEAD);
      }
    }
  }

  /** An opening tag beside a closing one is on one side or the other. */
  lemma HeadBesideTail(u: string, v: string)
    requires Has(u + TAIL + v, HEAD)
    ensures Has(u, HEAD) || Has(v, HEAD)
  {
    assert u + TAIL + v == u + (TAIL + v);
    HasParts(u, TAIL + v, HEAD);
    if !Has(u, HEAD) {
      var i := Find(TAIL + v, HEAD).value;
      AtChar(TAIL + v, HEAD, i, 0);
      AtChar(TAIL + v, HEAD, i, 1);
      assert i >= |TAIL|;
      SliceOfParts(TAIL, v, i, i + |HEAD|);
      HasAt(v, HEAD, i - |TAIL|);
    }
  }

  /** With two closing tags or more, the last signature is left inside what is verified. */
  lemma SignatureLeftInside(p: string, m: string, q: string, signature: string)
    requires Unsigned(p) && !Has(p, TAIL) && !Has(q, TAIL) && '<' !in signature && Has(p + TAIL + m, HEAD)
    ensures Has(InnerContent(Replace(p + TAIL + (m + TAIL + q), TAIL, Insertion(signature))), OPEN)
  {
    var i := Insertion(signature);
    var m' := Replace(m, TAIL, i);
    ReplacedTwice(p, m, q, i);
    InsertionExcised(p, m' + i + q, signature);
    HeadKept(p, m, i);
    var f := p + "  \n" + TAIL + m' + "  ";
    ElementOpens("", signature);
    assert "" + (Element(signature) + "\n") == Element(signature) + "\n";
    LeftInside(f, Element(signature) + "\n", q);
    Regroup(p + "  \n" + TAIL, m', signature, q);
  }

  lemma ReplacedTwice(p: string, m: string, q: string, r: string)
    requires !Has(p, TAIL) && !Has(q, TAIL)
    ensures Replace(p + TAIL + (m + TAIL + q), TAIL, r) == p + r + (Replace(m, TAIL, r) + r + q)
  {
    TailsUnrepeating();
    ReplaceParts(p, m + TAIL + q, TAIL, r);
    ReplaceParts(m, q, TAIL, r);
    ReplaceNone(p, TAIL, r);
    ReplaceNone(q, TAIL, r);
  }

  lemma HeadKept(p: string, m: string, r: string)
    requires Has(p + TAIL + m, HEAD)
    ensures Has(p + "  \n" + TAIL + Replace(m, TAIL, r) + "  ", HEAD)
  {
    HeadBesideTail(p, m);
    var m' := Replace(m, TAIL, r);
    if Has(p, HEAD) {
      assert "" + p + ("  \n" + TAIL + m' + "  ") == p + "  \n" + TAIL + m' + "  ";
      HasWithin("", p, "  \n" + TAIL + m' + "  ", HEAD);
    } else {
      HeadSurvives(m, r);
      HasWithin(p + "  \n" + TAIL, m', "  ", HEAD);
    }
  }

  lemma Regroup(a: string, m: string, signature: string, q: string)
    ensures a + (m + Insertion(signature) + q) == a + m + "  " + (Element(signature) + "\n") + TAIL + q
  {
  }

  lemma BodyAfter(f: string, e: string, q: string)
    requires Has(f, HEAD) && !Has(q, TAIL)
    ensures Find(f, HEAD).value + |HEAD| <= |f|
    ensures Body(f + e + TAIL + q) == f[Find(f, HEAD).value + |HEAD|..] + e
  {
    InsideEnvelope(f, e, q);
    RegroupTail(f, e, q);
  }

  lemma LeftInside(f: string, e: string, q: string)
    requires Has(f, HEAD) && Has(e, OPEN) && !Has(q, TAIL)
    ensures Has(Strip(Body(f + e + TAIL + q)), OPEN)
  {
    BodyAfter(f, e, q);
    HasAfter(f[Find(f, HEAD).value + |HEAD|..], e);
    HasStrip(Body(f + e + TAIL + q), OPEN);
  }

  lemma HasAfter(g: string, e: string)
    requires Has(e, OPEN)
    ensures Has(g + e, OPEN)
  {
    HasWithin(g, e, "", OPEN);
    assert g + e + "" == g + e;
  }

  lemma ElementOpens(g: string, signature: string)
    ensures Has(g + (Element(signature) + "\n"), OPEN)
  {
    FindHead(OPEN, "");
    assert OPEN + "" == OPEN;
    assert g + (Element(signature) + "\n") == g + OPEN + (signature + CLOSE + "\n");
    HasWithin(g, OPEN, signature + CLOSE + "\n", OPEN);
  }

  /** A payload cut at one of its closing tags. */
  lemma CutAtTail(x: string, k: nat, g: nat)
    requires At(x, TAIL, k)
    ensures x == x[..k] + TAIL + x[k + |TAIL|..]
    ensures Find(x, TAIL) == Some(k) ==> !Has(x[..k], TAIL)
    ensures RFind(x, TAIL) == Some(k) ==> !Has(x[k + |TAIL|..], TAIL)
    ensures At(x, HEAD, g) && g < k ==> Has(x[..k], HEAD)
  {
    var p, q := x[..k], x[k + |TAIL|..];
    Pieces(x, k, k + |TAIL|);
    assert q == x[k + |TAIL|..|x|];
    if Find(x, TAIL) == Some(k) {
      forall i | 0 <= i ensures !At(p, TAIL, i) {
        SameAt(x, 0, k, TAIL, i);
      }
    }
    if RFind(x, TAIL) == Some(k) {
      RFindLast(x, TAIL, k);
      forall i | 0 <= i ensures !At(q, TAIL, i) {
        SameAt(x, k + |TAIL|, |x|, TAIL, i);
      }
    }
    if At(x, HEAD, g) && g < k {
      if k < g + |HEAD| {
        AtChar(x, HEAD, g, k - g);
        AtChar(x, TAIL, k, 0);
      }
      SameAt(x, 0, k, HEAD, g);
      HasAt(p, HEAD, g);
    }
  }

  lemma TailsApart(x: string, j: nat, k: nat)
    requires At(x, TAIL, j) && At(x, TAIL, k) && j < k
    ensures j + |TAIL| <= k
  {
    AtChar(x, TAIL, k, 0);
    if k < j + |TAIL| {
      AtChar(x, TAIL, j, k - j);
    }
  }

  lemma CutTwice(x: string, j: nat, k: nat)
    requires At(x, TAIL, j) && At(x, TAIL, k) && j + |TAIL| <= k
    ensures x[..k] == x[..j] + TAIL + x[j + |TAIL|..k]
    ensures x == x[..j] + TAIL + (x[j + |TAIL|..k] + TAIL + x[k + |TAIL|..])
  {
    var front := x[..k];
    Pieces(front, j, j + |TAIL|);
    SliceOfSlice(x, 0, k, j, j + |TAIL|);
    SliceOfSlice(x, 0, k, 0, j);
    SliceOfSlice(x, 0, k, j + |TAIL|, k);
    Pieces(x, k, k + |TAIL|);
    Spread(x[..j], TAIL, x[j + |TAIL|..k], TAIL, x[k + |TAIL|..]);
  }

  /** Two closing tags: what is verified is not what was signed. */
  lemma SignedTwice(p: string, m: string, q: string, sign: string -> string)
    requires var x := p + TAIL + (m + TAIL + q); Unsigned(x) && '<' !in sign(InnerContent(x))
    requires !Has(p, TAIL) && !Has(q, TAIL) && Has(p + TAIL + m, HEAD)
    ensures var x := p + TAIL + (m + TAIL + q); InnerContent(SignPayload(x, sign)) != InnerContent(x)
  {
    var x := p + TAIL + (m + TAIL + q);
    UnsignedContent(x);
    UnsignedBefore(p, m + TAIL + q);
    SignedByInsertion(x, sign);
    SignatureLeftInside(p, m, q, sign(InnerContent(x)));
  }

  /** Inserting a signature into an unsigned envelope keeps what is signed exactly when the
      envelope has only one closing tag. */
  lemma InsertionKeepsContentIff(x: string, sign: string -> string)
    requires Unsigned(x) && '<' !in sign(InnerContent(x)) && Has(x, TAIL) && RFind(x, TAIL).Some?
    requires Has(x, HEAD) && Find(x, HEAD).value < RFind(x, TAIL).value
    ensures InnerContent(SignPayload(x, sign)) == InnerContent(x) <==> Find(x, TAIL) == RFind(x, TAIL)
  {
    var first, last, g := Find(x, TAIL).value, RFind(x, TAIL).value, Find(x, HEAD).value;
    CutAtTail(x, first, g);
    CutAtTail(x, last, g);
    if first == last {
      EnvelopeSigned(x[..first], x[first + |TAIL|..], sign);
    } else {
      TailsApart(x, first, last);
      CutTwice(x, first, last);
      SignedTwice(x[..first], x[first + |TAIL|..last], x[last + |TAIL|..], sign);
    }
  }

  /** So it verifies: an unsigned envelope with one closing tag is accepted once signed. */
  lemma InsertionVerifies(x: string, sign: string -> string, verify: (string, string) -> bool)
    requires Scheme(sign, verify) && Unsigned(x) && Has(x, TAIL) && Find(x, TAIL) == RFind(x, TAIL)
    requires Has(x, HEAD) && Find(x, HEAD).value < Find(x, TAIL).value
    ensures VerifyPayload(SignPayload(x, sign), verify)
  {
    var k := Find(x, TAIL).value;
    CutAtTail(x, k, 0);
    InsertionKeepsContentIff(x, sign);
    SignedOnce(x[..k], x[k + |TAIL|..], sign);
  }

  // ---- More than one placeholder ----

  lemma DummyOpenings(k: nat)
    requires k < |Element(DUMMY)| && Element(DUMMY)[k] == '<'
    ensures k == 0 || k == |OPEN| + |DUMMY|
  {
  }

  /** The placeholder and a closing tag never overlap. */
  lemma DummyOffTail(m: string, q: string, i: nat)
    requires At(m + (TAIL + q), Element(DUMMY), i)
    ensures i + |Element(DUMMY)| <= |m| || |m| + |TAIL| <= i
  {
    var s := m + (TAIL + q);
    if i < |m| < i + |Element(DUMMY)| {
      var k := |m| - i;
      AtChar(s, Element(DUMMY), i, k);
      DummyOpenings(k);
      AtChar(s, Element(DUMMY), i, k + 2);
    } else if |m| <= i < |m| + |TAIL| {
      AtChar(s, Element(DUMMY), i, 0);
      AtChar(s, Element(DUMMY), i, 1);
    }
  }

  lemma DummyBesideTail(m: string, q: string, i: nat)
    ensures At(m + (TAIL + q), Element(DUMMY), i) <==>
            At(m, Element(DUMMY), i) || At(q, Element(DUMMY), i - |m| - |TAIL|)
  {
    var s, d := m + (TAIL + q), Element(DUMMY);
    assert s == (m + TAIL) + q;
    if At(s, d, i) {
      DummyOffTail(m, q, i);
    }
    if i + |d| <= |m| {
      SliceOfParts(m, TAIL + q, i, i + |d|);
    }
    if |m| + |TAIL| <= i && i + |d| <= |s| {
      SliceOfParts(m + TAIL, q, i, i + |d|);
    }
  }

  lemma FindBesideTail(m: string, q: string)
    ensures Find(m + (TAIL + q), Element(DUMMY)) ==
            if Has(m, Element(DUMMY)) then Find(m, Element(DUMMY))
            else if Has(q, Element(DUMMY)) then Some(|m| + |TAIL| + Find(q, Element(DUMMY)).value) else None
  {
    var s, d := m + (TAIL + q), Element(DUMMY);
    forall i | 0 <= i ensures At(s, d, i) <==> At(m, d, i) || At(q, d, i - |m| - |TAIL|) {
      DummyBesideTail(m, q, i);
    }
    if Has(m, d) {
      FindIs(s, d, Find(m, d).value);
    } else if Has(q, d) {
      FindIs(s, d, |m| + |TAIL| + Find(q, d).value);
    }
  }

  lemma CutAtFirst(s: string, p: string)
    requires Has(s, p)
    ensures var k := Find(s, p).value; k + |p| <= |s| && s == s[..k] + p + s[k + |p|..]
  {
  }

  /** Around a closing tag, placeholders are replaced on either side by themselves. */
  lemma {:induction false} PlacedBesideTail(m: string, q: string, r: string)
    ensures Replace(m + (TAIL + q), Element(DUMMY), r) ==
            Replace(m, Element(DUMMY), r) + (TAIL + Replace(q, Element(DUMMY), r))
    decreases |m|
  {
    var d := Element(DUMMY);
    FindBesideTail(m, q);
    if Has(m, d) {
      PlacedBefore(m, q, r);
      PlacedBesideTail(m[Find(m, d).value + |d|..], q, r);
      RegroupBefore(m[..Find(m, d).value], r, Replace(m[Find(m, d).value + |d|..], d, r), TAIL + Replace(q, d, r));
    } else if Has(q, d) {
      PlacedAfter(m, q, r);
    } else {
      ReplaceNone(m + (TAIL + q), d, r);
    }
  }

  lemma RegroupBefore(a: string, b: string, c: string, e: string)
    ensures a + b + (c + e) == (a + b + c) + e
  {
  }

  lemma PlacedBefore(m: string, q: string, r: string)
    requires Has(m, Element(DUMMY))
    ensures var d, k := Element(DUMMY), Find(m, Element(DUMMY)).value;
            && Replace(m, d, r) == m[..k] + r + Replace(m[k + |d|..], d, r)
            && Replace(m + (TAIL + q), d, r) == m[..k] + r + Replace(m[k + |d|..] + (TAIL + q), d, r)
  {
    var d, k := Element(DUMMY), Find(m, Element(DUMMY)).value;
    var u, v := m[..k], m[k + |d|..];
    CutAtFirst(m, d);
    ReplaceFirst(m, d, r, u, v);
    FindBesideTail(m, q);
    RegroupBefore(u, d, v, TAIL + q);
    ReplaceFirst(m + (TAIL + q), d, r, u, v + (TAIL + q));
  }

  lemma PlacedAfter(m: string, q: string, r: string)
    requires !Has(m, Element(DUMMY)) && Has(q, Element(DUMMY))
    ensures Replace(m + (TAIL + q), Element(DUMMY), r) ==
            Replace(m, Element(DUMMY), r) + (TAIL + Replace(q, Element(DUMMY), r))
  {
    var d, k := Element(DUMMY), Find(q, Element(DUMMY)).value;
    var u, v := q[..k], q[k + |d|..];
    CutAtFirst(q, d);
    ReplaceFirst(q, d, r, u, v);
    ReplaceNone(m, d, r);
    FindBesideTail(m, q);
    RegroupAfter(m, u, d, v);
    ReplaceFirst(m + (TAIL + q), d, r, m + (TAIL + u), v);
    RegroupAfter(m, u, r, Replace(v, d, r));
  }

  lemma RegroupAfter(m: string, u: string, d: string, v: string)
    ensures m + (TAIL + (u + d + v)) == m + (TAIL + u) + d + v
  {
  }

  /** Signing elements bring no closing tag of the envelope. */
  lemma NoTailInElement(signature: string, rest: string)
    requires '<' !in signature && !Has(rest, TAIL)
    ensures !Has(Element(signature) + rest, TAIL)
  {
    var e := Element(signature);
    var s := e + rest;
    assert forall k :: 0 <= k < |e| && e[k] == '<' ==> k == 0 || k == |OPEN| + |signature|;
    assert forall k :: 0 <= k < |e| ==> s[k] == e[k];
    assert e[1] == 's' && e[|OPEN| + |signature| + 2] == 's';
    forall i | 0 <= i ensures !At(s, TAIL, i) {
      AtChar(s, TAIL, i, 0);
      AtChar(s, TAIL, i, 1);
      AtChar(s, TAIL, i, 2);
      if |e| <= i && i + |TAIL| <= |s| {
        SliceOfParts(e, rest, i, i + |TAIL|);
        assert !At(rest, TAIL, i - |e|);
      }
    }
  }

  lemma NoTailAround(u: string, signature: string, rest: string)
    requires '<' !in signature && !Has(u, TAIL) && !Has(rest, TAIL)
    ensures !Has(u + Element(signature) + rest, TAIL)
  {
    NoTailInElement(signature, rest);
    HasParts(u, Element(signature) + rest, TAIL);
    assert u + Element(signature) + rest == u + (Element(signature) + rest);
  }

  lemma {:induction false} NoTailPlaced(q: string, signature: string)
    requires '<' !in signature && !Has(q, TAIL)
    ensures !Has(Replace(q, Element(DUMMY), Element(signature)), TAIL)
    decreases |q|
  {
    var d, e := Element(DUMMY), Element(signature);
    if Has(q, d) {
      var k := Find(q, d).value;
      var u, v := q[..k], q[k + |d|..];
      CutAtFirst(q, d);
      ReplaceFirst(q, d, e, u, v);
      NoTailInParts(u, d, v);
      NoTailPlaced(v, signature);
      NoTailAround(u, signature, Replace(v, d, e));
    } else {
      ReplaceNone(q, d, e);
    }
  }

  lemma NoTailInParts(u: string, d: string, v: string)
    requires !Has(u + d + v, TAIL)
    ensures !Has(u, TAIL) && !Has(v, TAIL)
  {
    if Has(u, TAIL) {
      assert "" + u + (d + v) == u + d + v;
      HasWithin("", u, d + v, TAIL);
    }
    if Has(v, TAIL) {
      assert (u + d) + v + "" == u + d + v;
      HasWithin(u + d, v, "", TAIL);
    }
  }

  lemma InsideEnvelope(a: string, m: string, q: string)
    requires Has(a, HEAD) && !Has(q, TAIL)
    ensures Find(a, HEAD).value + |HEAD| <= |a|
    ensures Body(a + (m + (TAIL + q))) == a[Find(a, HEAD).value + |HEAD|..] + m
  {
    var k := Find(a, HEAD).value + |HEAD|;
    FindFirst(a, m, HEAD);
    EnvelopeBody(a + m, q);
    RegroupTail(a, m, q);
    SliceFrom(a, m, k);
  }

  lemma RegroupTail(a: string, m: string, q: string)
    ensures a + (m + (TAIL + q)) == a + m + TAIL + q
  {
  }

  lemma SliceFrom(a: string, m: string, k: nat)
    requires k <= |a|
    ensures (a + m)[k..] == a[k..] + m
  {
  }

  /** What is signed around a signature, in an envelope that closes after it. */
  lemma EnvelopeContent(a: string, signature: string, m: string, q: string)
    requires Unsigned(a) && Has(a, HEAD) && '<' !in signature && !Has(q, TAIL)
    ensures Find(a, HEAD).value + |HEAD| <= |a|
    ensures InnerContent(a + Element(signature) + (m + (TAIL + q))) == Strip(a[Find(a, HEAD).value + |HEAD|..] + m)
  {
    ContentAround(a, signature, m + (TAIL + q));
    InsideEnvelope(a, m, q);
  }

  lemma Between(signature: string, t: string)
    requires '<' !in signature
    ensures var x := Element(signature) + t;
            && |x| >= |OPEN| + |signature| + |CLOSE| && x[|OPEN| + |signature|] == '<'
            && x[|OPEN|..|OPEN| + |signature|] == signature
            && forall k :: |OPEN| <= k < |OPEN| + |signature| ==> x[k] != '<'
  {
    var x := Element(signature) + t;
    assert forall k :: |OPEN| <= k < |OPEN| + |signature| ==> x[k] == signature[k - |OPEN|];
  }

  /** The text between two tags of an element can be read back, whatever follows. */
  lemma SameElement(s: string, t: string, s': string, t': string)
    requires '<' !in s && '<' !in s' && Element(s) + t == Element(s') + t'
    ensures s == s'
  {
    Between(s, t);
    Between(s', t');
  }

  lemma StripsDiffer(g: string, m: string, signature: string)
    requires Has(m, Element(DUMMY)) && '<' !in signature && signature != DUMMY
    ensures Strip(g + m) != Strip(g + Replace(m, Element(DUMMY), Element(signature)))
  {
    var d, e, k := Element(DUMMY), Element(signature), Find(m, Element(DUMMY)).value;
    var u, v := m[..k], m[k + |d|..];
    CutAtFirst(m, d);
    ReplaceFirst(m, d, e, u, v);
    var rest := Replace(v, d, e);
    RegroupParts(g, u, d, v);
    RegroupParts(g, u, e, rest);
    ElementEnds(DUMMY);
    ElementEnds(signature);
    StripAround(g + u, d, v);
    StripAround(g + u, e, rest);
    TextsDiffer(TrimLeft(g + u), signature, TrimRight(v), TrimRight(rest));
  }

  lemma RegroupParts(g: string, u: string, d: string, v: string)
    ensures g + (u + d + v) == (g + u) + d + v
  {
  }

  lemma ElementEnds(signature: string)
    ensures Element(signature) != "" && !Space(Element(signature)[0])
    ensures !Space(Element(signature)[|Element(signature)| - 1])
  {
  }

  lemma TextsDiffer(l: string, signature: string, t: string, t': string)
    requires '<' !in signature && signature != DUMMY
    ensures l + Element(DUMMY) + t != l + Element(signature) + t'
  {
    var x, x' := l + Element(DUMMY) + t, l + Element(signature) + t';
    assert x[|l|..] == Element(DUMMY) + t && x'[|l|..] == Element(signature) + t';
    if x == x' {
      SameElement(DUMMY, t, signature, t');
    }
  }

  /** Signing in place of the first placeholder of an envelope keeps what is signed exactly when
      no other placeholder comes before the last closing tag; one after it does no harm. */
  lemma PlaceholderKeepsContentIff(a: string, m: string, q: string, sign: string -> string)
    requires Unsigned(a) && Has(a, HEAD) && !Has(q, TAIL)
    requires var x := a + Element(DUMMY) + (m + (TAIL + q));
             '<' !in sign(InnerContent(x)) && sign(InnerContent(x)) != DUMMY
    ensures var x := a + Element(DUMMY) + (m + (TAIL + q));
            InnerContent(SignPayload(x, sign)) == InnerContent(x) <==> !Has(m, Element(DUMMY))
  {
    var x := a + Element(DUMMY) + (m + (TAIL + q));
    var signature := sign(InnerContent(x));
    SignedInEnvelope(a, m, q, sign);
    EnvelopeContent(a, DUMMY, m, q);
    NoTailPlaced(q, signature);
    var m' := Replace(m, Element(DUMMY), Element(signature));
    EnvelopeContent(a, signature, m', Replace(q, Element(DUMMY), Element(signature)));
    if Has(m, Element(DUMMY)) {
      StripsDiffer(a[Find(a, HEAD).value + |HEAD|..], m, signature);
    } else {
      ReplaceNone(m, Element(DUMMY), Element(signature));
    }
  }

  lemma SignedInEnvelope(a: string, m: string, q: string, sign: string -> string)
    requires !Has(a, OPEN)
    ensures var x := a + Element(DUMMY) + (m + (TAIL + q));
            var e := Element(sign(InnerContent(x)));
            SignPayload(x, sign) ==
            a + e + (Replace(m, Element(DUMMY), e) + (TAIL + Replace(q, Element(DUMMY), e)))
  {
    var x := a + Element(DUMMY) + (m + (TAIL + q));
    PlacedWhole(a, m + (TAIL + q), sign(InnerContent(x)));
    PlacedBesideTail(m, q, Element(sign(InnerContent(x))));
  }

  /** A second placeholder is signed over too: the content that is verified then holds the
      signature, where the content that was signed held the placeholder. */
  lemma RepeatedPlaceholder(sign: string -> string)
    requires var x := HEAD + Element(DUMMY) + (Element(DUMMY) + TAIL); '<' !in sign(InnerContent(x))
    ensures var x := HEAD + Element(DUMMY) + (Element(DUMMY) + TAIL);
            && InnerContent(x) == Element(DUMMY)
            && InnerContent(SignPayload(x, sign)) == Element(sign(InnerContent(x)))
  {
    var x := HEAD + Element(DUMMY) + (Element(DUMMY) + TAIL);
    var signature := sign(InnerContent(x));
    BothEnclosed(DUMMY);
    BothPlaced(signature);
    BothEnclosed(signature);
  }

  lemma BothEnclosed(signature: string)
    requires '<' !in signature
    ensures InnerContent(HEAD + Element(signature) + (Element(signature) + TAIL)) == Element(signature)
  {
    NoTagInHead();
    ContentAround(HEAD, signature, Element(signature) + TAIL);
    Enclosed(signature);
  }

  lemma BothPlaced(signature: string)
    ensures var x := HEAD + Element(DUMMY) + (Element(DUMMY) + TAIL);
            && Has(x, Element(DUMMY))
            && Replace(x, Element(DUMMY), Element(signature)) ==
               HEAD + Element(signature) + (Element(signature) + TAIL)
  {
    NoTagInHead();
    PlacedWhole(HEAD, Element(DUMMY) + TAIL, signature);
    SecondPlaced(signature);
  }

  lemma SecondPlaced(signature: string)
    ensures Replace(Element(DUMMY) + TAIL, Element(DUMMY), Element(signature)) == Element(signature) + TAIL
  {
    NoTagInHead();
    PlacedWhole("", TAIL, signature);
    assert "" + Element(DUMMY) == Element(DUMMY) && "" + Element(signature) == Element(signature);
    ReplaceNone(TAIL, Element(DUMMY), Element(signature));
  }

  lemma NoTagInHead()
    ensures Unsigned(HEAD) && Unsigned("")
  {
  }

  lemma Enclosed(signature: string)
    ensures Strip(Body(HEAD + (Element(signature) + TAIL))) == Element(signature)
  {
    var e := Element(signature);
    FindHead(HEAD, e);
    EnvelopeBody(HEAD + e, "");
    assert HEAD + (e + TAIL) == HEAD + e + TAIL + "";
    assert (HEAD + e)[|HEAD|..] == e;
    assert e[|e| - 1] == '>' && e[0] == '<';
  }

  // ---- What a plain message looks like ----

  lemma PlainBody(t: string)
    requires '<' !in t
    ensures Unsigned(HEAD + t) && Has(HEAD + t, HEAD) && Find(HEAD + t, HEAD) == Some(0)
    ensures (HEAD + t)[|HEAD|..] == t && !Has(HEAD + t, TAIL)
  {
    FindHead(HEAD, t);
    var s := HEAD + t;
    assert forall i :: 0 < i < |s| ==> s[i] != '<';
    forall i, p: string | 0 <= i && p in {OPEN, CLOSE, TAIL} ensures !At(s, p, i) {
      AtChar(s, p, i, 0);
      AtChar(s, p, i, 1);
    }
  }

  /** A message with the placeholder: its text is stripped and signed, and the signature
      takes the placeholder's place. */
  lemma PlainSigned(t: string, sign: string -> string)
    requires '<' !in t && '<' !in sign(Strip(t))
    ensures var x := "<Gepg>" + t + "<signature>" + "SignatureGoesHere" + "</signature></Gepg>";
            && InnerContent(x) == Strip(t)
            && SignPayload(x, sign) == "<Gepg>" + t + "<signature>" + sign(Strip(t)) + "</signature></Gepg>"
  {
    PlainLayout(t, DUMMY);
    PlainLayout(t, sign(Strip(t)));
    PlainSignedBetween(t, sign);
  }

  lemma PlainSignedBetween(t: string, sign: string -> string)
    requires '<' !in t && '<' !in sign(Strip(t))
    ensures var x := HEAD + t + Element(DUMMY) + TAIL;
            && InnerContent(x) == Strip(t)
            && SignPayload(x, sign) == HEAD + t + Element(sign(Strip(t))) + TAIL
  {
    PlainBody(t);
    PlainContent(HEAD + t, t);
    NoDummyInTail();
    SignedInPlace(HEAD + t, TAIL, sign);
  }

  lemma PlainContent(a: string, t: string)
    requires a == HEAD + t && '<' !in t
    ensures InnerContent(a + Element(DUMMY) + TAIL) == Strip(t)
  {
    PlainBody(t);
    EnvelopeContent(a, DUMMY, "", "");
    assert "" + (TAIL + "") == TAIL;
    assert t + "" == t;
  }

  lemma PlainLayout(t: string, signature: string)
    ensures HEAD + t + Element(signature) + TAIL == "<Gepg>" + t + "<signature>" + signature + "</signature></Gepg>"
  {
  }

  lemma NoDummyInTail()
    ensures !Has(TAIL, Element(DUMMY)) && !Has("", TAIL)
  {
  }

  /** A message without one gets a line of its own before the closing tag. */
  lemma PlainInserted(t: string, sign: string -> string)
    requires '<' !in t && '<' !in sign(Strip(t))
    ensures var x := "<Gepg>" + t + "</Gepg>";
            && InnerContent(x) == Strip(t)
            && SignPayload(x, sign) == "<Gepg>" + t + "  <signature>" + sign(Strip(t)) + "</signature>\n</Gepg>"
  {
    var a := HEAD + t;
    PlainBody(t);
    NoDummyInTail();
    assert "<Gepg>" + t + "</Gepg>" == a + TAIL + "";
    PlainUnsigned(a);
    UnsignedContent(a + TAIL + "");
    EnvelopeBody(a, "");
    InsertedOnce(a, "", sign(Strip(t)));
    InsertedLayout(t, sign(Strip(t)));
  }

  lemma PlainUnsigned(a: string)
    requires |a| >= 1 && forall i :: 0 < i < |a| ==> a[i] != '<'
    requires Unsigned(a)
    ensures Unsigned(a + TAIL + "")
  {
    assert a + TAIL + "" == a + TAIL;
    UnsignedTogether(a);
  }

  lemma UnsignedTogether(a: string)
    requires Unsigned(a)
    ensures Unsigned(a + TAIL)
  {
    HasParts(a, TAIL, OPEN);
    HasParts(a, TAIL, CLOSE);
  }

  lemma InsertedLayout(t: string, signature: string)
    ensures HEAD + t + Insertion(signature) + "" ==
            "<Gepg>" + t + "  <signature>" + signature + "</signature>\n</Gepg>"
  {
  }
}
