/** Escaping text for XML: five replacements in a row do the work of one pass, and the
    result reads back as the text (sections 2.4 and 4.6 of XML 1.0, Fifth Edition). */
module Escape {
  import opened Common
  import opened Text

  function EscapeXml(text: Option<string>): string {
    match text
    case None => ""
    case Some(s) => Quoted(Replace(s, "&", "&amp;"))
  }

  /** The four replacements after the ampersand's. */
  function Quoted(s: string): string {
    Replace(Replace(Replace(Replace(s, "<", "&lt;"), ">", "&gt;"), "\"", "&quot;"), "'", "&apos;")
  }

  /** The predefined entity for a markup character; every other character stands for itself. */
  function Entity(c: char): string {
    if c == '&' then "&amp;" else Mark(c)
  }

  function Mark(c: char): string {
    if c == '<' then "&lt;" else if c == '>' then "&gt;"
    else if c == '\"' then "&quot;" else if c == '\'' then "&apos;" else [c]
  }

  predicate Markup(c: char) {
    c == '<' || c == '>' || c == '\"' || c == '\''
  }

  /** Every character by itself. */
  function Each(s: string, f: char -> string): string {
    if s == "" then "" else f(s[0]) + Each(s[1..], f)
  }

  function Swap(c: char, r: string): char -> string {
    x => if x == c then r else [x]
  }

  lemma {:induction false} EachParts(a: string, b: string, f: char -> string)
    ensures Each(a + b, f) == Each(a, f) + Each(b, f)
    decreases |a|
  {
    if a == "" {
      assert a + b == b;
    } else {
      assert (a + b)[1..] == a[1..] + b;
      EachParts(a[1..], b, f);
    }
  }

  lemma {:induction false} EachPlain(s: string, f: char -> string)
    requires forall i :: 0 <= i < |s| ==> f(s[i]) == [s[i]]
    ensures Each(s, f) == s
  {
    if s != "" {
      EachPlain(s[1..], f);
    }
  }

  lemma EachOne(c: char, f: char -> string)
    ensures Each([c], f) == f(c)
  {
    assert Each([c][1..], f) == "";
  }

  lemma FirstChar(s: string, c: char)
    ensures Find(s, [c]).None? <==> c !in s
    ensures Find(s, [c]).Some? ==>
              var k := Find(s, [c]).value;
              k < |s| && s[k] == c && c !in s[..k] && s == s[..k] + [c] + s[k + 1..]
  {
    forall i | 0 <= i < |s| ensures At(s, [c], i) <==> s[i] == c {
      assert s[i..i + 1] == [s[i]];
    }
  }

  /** Replacing a one-character pattern works character by character. */
  lemma {:induction false} ReplaceIsEach(s: string, c: char, r: string)
    ensures Replace(s, [c], r) == Each(s, Swap(c, r))
    decreases |s|
  {
    var f := Swap(c, r);
    FirstChar(s, c);
    if c !in s {
      EachPlain(s, f);
    } else {
      var k := Find(s, [c]).value;
      var front, rest := s[..k], s[k + 1..];
      ReplaceFirst(s, [c], r, front, rest);
      ReplaceIsEach(rest, c, r);
      EachPlain(front, f);
      EachOne(c, f);
      EachParts(front + [c], rest, f);
      EachParts(front, [c], f);
    }
  }

  /** A pass after a pass is one pass. */
  lemma {:induction false} EachTwice(s: string, f: char -> string, g: char -> string, h: char -> string)
    requires forall i :: 0 <= i < |s| ==> Each(f(s[i]), g) == h(s[i])
    ensures Each(Each(s, f), g) == Each(s, h)
  {
    if s != "" {
      EachParts(f(s[0]), Each(s[1..], f), g);
      EachTwice(s[1..], f, g, h);
    }
  }

  const MARKS: string := ['&', '<', '>', '\"', '\'']

  /** What replacing the characters already dealt with makes of a character. */
  function Stage(done: string): char -> string {
    c => if c in done && c in MARKS then Entity(c) else [c]
  }

  /** No entity holds a markup character, nor an ampersand but at its head. */
  lemma EntitiesApart(c: char, d: char)
    requires c in MARKS && d in MARKS
    ensures d != '&' ==> d !in Entity(c)
    ensures '&' !in Entity(c)[1..]
  {
  }

  lemma NextStage(done: string, d: char, c: char)
    requires d in MARKS && d !in done && (d == '&' ==> done == "")
    ensures Each(Stage(done)(c), Swap(d, Entity(d))) == Stage(done + [d])(c)
  {
    var f := Swap(d, Entity(d));
    if c in done && c in MARKS {
      EntitiesApart(c, d);
      EachPlain(Entity(c), f);
    } else {
      EachOne(c, f);
    }
  }

  lemma Replacing(s: string, done: string, d: char, r: string)
    requires d in MARKS && d !in done && (d == '&' ==> done == "") && r == Entity(d)
    ensures Replace(Each(s, Stage(done)), [d], r) == Each(s, Stage(done + [d]))
  {
    ReplaceIsEach(Each(s, Stage(done)), d, r);
    forall i | 0 <= i < |s| ensures Each(Stage(done)(s[i]), Swap(d, r)) == Stage(done + [d])(s[i]) {
      NextStage(done, d, s[i]);
    }
    EachTwice(s, Stage(done), Swap(d, r), Stage(done + [d]));
  }

  lemma AnglesReplaced(s: string, done: string)
    requires done == "" || done == "&"
    ensures Replace(Replace(Each(s, Stage(done)), "<", "&lt;"), ">", "&gt;") == Each(s, Stage(done + ['<'] + ['>']))
  {
    Replacing(s, done, '<', "&lt;");
    Replacing(s, done + ['<'], '>', "&gt;");
  }

  lemma QuotesReplaced(s: string, done: string)
    requires '\"' !in done && '\'' !in done
    ensures Replace(Replace(Each(s, Stage(done)), "\"", "&quot;"), "'", "&apos;") ==
            Each(s, Stage(done + ['\"'] + ['\'']))
  {
    Replacing(s, done, '\"', "&quot;");
    Replacing(s, done + ['\"'], '\'', "&apos;");
  }

  function Whole(done: string): char -> string {
    if done == "" then Mark else Entity
  }

  function Rest(done: string): string {
    done + ['<'] + ['>'] + ['\"'] + ['\'']
  }

  lemma LastStage(done: string, c: char)
    requires done == "" || done == "&"
    ensures Stage(Rest(done))(c) == Whole(done)(c)
  {
    assert Rest(done)[|done|..] == "<>\"'";
    assert c in Rest(done) && c in MARKS <==> (Markup(c) || (c == '&' && done == "&"));
  }

  lemma QuotedStages(s: string, done: string)
    requires done == "" || done == "&"
    ensures Quoted(Each(s, Stage(done))) == Each(s, Whole(done))
  {
    AnglesReplaced(s, done);
    QuotesReplaced(s, done + ['<'] + ['>']);
    forall i | 0 <= i < |s| ensures Stage(Rest(done))(s[i]) == Whole(done)(s[i]) {
      LastStage(done, s[i]);
    }
    EachSame(s, Stage(Rest(done)), Whole(done));
  }

  /** The five replacements are one pass that gives every character its entity. */
  lemma EscapesEachCharacter(s: string)
    ensures EscapeXml(Some(s)) == Each(s, Entity)
  {
    EachPlain(s, Stage(""));
    Replacing(s, "", '&', "&amp;");
    assert "" + ['&'] == "&";
    QuotedStages(s, "&");
  }

  lemma {:induction false} EachSame(s: string, f: char -> string, g: char -> string)
    requires forall i :: 0 <= i < |s| ==> f(s[i]) == g(s[i])
    ensures Each(s, f) == Each(s, g)
  {
    if s != "" {
      EachSame(s[1..], f, g);
    }
  }

  // ---- What comes out ----

  /** An ampersand that opens a predefined entity. */
  predicate Opens(t: string, i: nat) {
    At(t, "&amp;", i) || At(t, "&lt;", i) || At(t, "&gt;", i) || At(t, "&quot;", i) || At(t, "&apos;", i)
  }

  predicate WellFormed(t: string) {
    forall i :: 0 <= i < |t| ==> !Markup(t[i]) && (t[i] == '&' ==> Opens(t, i))
  }

  lemma OpensParts(a: string, b: string, i: nat)
    ensures Opens(a, i) ==> Opens(a + b, i)
    ensures Opens(b, i) ==> Opens(a + b, |a| + i)
  {
    forall p: string ensures At(a, p, i) ==> At(a + b, p, i) {
      if At(a, p, i) {
        assert (a + b)[i..i + |p|] == a[i..i + |p|];
      }
    }
    forall p: string ensures At(b, p, i) ==> At(a + b, p, |a| + i) {
      if At(b, p, i) {
        assert (a + b)[|a| + i..|a| + i + |p|] == b[i..i + |p|];
      }
    }
  }

  lemma EntityWellFormed(c: char)
    ensures WellFormed(Entity(c))
  {
    var t := Entity(c);
    assert t[0..|t|] == t;
    if c in MARKS {
      EntitiesApart(c, '<');
      EntitiesApart(c, '>');
      EntitiesApart(c, '\"');
      EntitiesApart(c, '\'');
      assert Opens(t, 0);
      assert forall i :: 0 < i < |t| ==> t[i] == t[1..][i - 1];
    }
  }

  /** No markup character comes out raw, and every ampersand opens a predefined entity. */
  lemma {:induction false} EscapedIsWellFormed(s: string)
    ensures WellFormed(EscapeXml(Some(s)))
    decreases |s|
  {
    EscapesEachCharacter(s);
    if s != "" {
      EscapesEachCharacter(s[1..]);
      EscapedIsWellFormed(s[1..]);
      EntityWellFormed(s[0]);
      WellFormedParts(Entity(s[0]), Each(s[1..], Entity));
    }
  }

  lemma WellFormedParts(a: string, b: string)
    requires WellFormed(a) && WellFormed(b)
    ensures WellFormed(a + b)
  {
    forall i | 0 <= i < |a + b| ensures !Markup((a + b)[i]) && ((a + b)[i] == '&' ==> Opens(a + b, i)) {
      if i < |a| {
        OpensParts(a, b, i);
      } else {
        OpensParts(a, b, i - |a|);
      }
    }
  }

  /** Reading entities back, as an XML parser does. */
  function Decode(t: string): string
    decreases |t|
  {
    if t == "" then ""
    else if At(t, "&amp;", 0) then ['&'] + Decode(t[5..])
    else if At(t, "&lt;", 0) then ['<'] + Decode(t[4..])
    else if At(t, "&gt;", 0) then ['>'] + Decode(t[4..])
    else if At(t, "&quot;", 0) then ['\"'] + Decode(t[6..])
    else if At(t, "&apos;", 0) then ['\''] + Decode(t[6..])
    else [t[0]] + Decode(t[1..])
  }

  lemma DecodeEntity(c: char, t: string)
    ensures Decode(Entity(c) + t) == [c] + Decode(t)
  {
    var e := Entity(c);
    var u := e + t;
    assert u[..|e|] == e && u[|e|..] == t;
    assert u[0] == e[0];
    assert |e| > 1 ==> u[1] == e[1];
    assert |e| > 2 ==> u[2] == e[2];
    AtChar(u, "&amp;", 0, 0);
    AtChar(u, "&amp;", 0, 2);
    AtChar(u, "&lt;", 0, 0);
    AtChar(u, "&lt;", 0, 1);
    AtChar(u, "&gt;", 0, 0);
    AtChar(u, "&gt;", 0, 1);
    AtChar(u, "&quot;", 0, 0);
    AtChar(u, "&quot;", 0, 1);
    AtChar(u, "&apos;", 0, 0);
    AtChar(u, "&apos;", 0, 2);
  }

  /** Escaped text reads back as the text. */
  lemma {:induction false} DecodeEscape(s: string)
    ensures Decode(EscapeXml(Some(s))) == s
    decreases |s|
  {
    EscapesEachCharacter(s);
    if s != "" {
      EscapesEachCharacter(s[1..]);
      DecodeEscape(s[1..]);
      DecodeEntity(s[0], Each(s[1..], Entity));
    }
  }

  // ---- Why the ampersand goes first ----

  /** The same replacements with the ampersand's last. */
  function AmpersandLast(s: string): string {
    Replace(Quoted(s), "&", "&amp;")
  }

  function Doubled(c: char): string {
    Each(Mark(c), Swap('&', "&amp;"))
  }

  lemma DoubledLength(c: char)
    ensures |Doubled(c)| >= |Entity(c)|
    ensures |Doubled(c)| == |Entity(c)| <==> !Markup(c)
    ensures !Markup(c) ==> Doubled(c) == Entity(c)
  {
    if Markup(c) {
      var e := Mark(c);
      assert e == ['&'] + e[1..];
      EachOne('&', Swap('&', "&amp;"));
      EachPlain(e[1..], Swap('&', "&amp;"));
      EachParts(['&'], e[1..], Swap('&', "&amp;"));
    } else {
      EachOne(c, Swap('&', "&amp;"));
    }
  }

  lemma LastIsEach(s: string)
    ensures AmpersandLast(s) == Each(s, Doubled)
  {
    EachPlain(s, Stage(""));
    QuotedStages(s, "");
    ReplaceIsEach(Quoted(s), '&', "&amp;");
    EachTwice(s, Mark, Swap('&', "&amp;"), Doubled);
  }

  /** With the ampersand last the output is right exactly for texts without other markup:
      the ampersands of the entities just written are escaped again. */
  lemma AmpersandLastIff(s: string)
    ensures AmpersandLast(s) == EscapeXml(Some(s)) <==> forall i :: 0 <= i < |s| ==> !Markup(s[i])
  {
    LastIsEach(s);
    EscapesEachCharacter(s);
    DoubledTogether(s);
  }

  lemma {:induction false} DoubledTogether(s: string)
    ensures |Each(s, Doubled)| >= |Each(s, Entity)|
    ensures Each(s, Doubled) == Each(s, Entity) <==> forall i :: 0 <= i < |s| ==> !Markup(s[i])
    ensures |Each(s, Doubled)| == |Each(s, Entity)| ==> forall i :: 0 <= i < |s| ==> !Markup(s[i])
  {
    if s != "" {
      DoubledLength(s[0]);
      DoubledTogether(s[1..]);
      assert forall i :: 0 < i < |s| ==> s[i] == s[1..][i - 1];
    }
  }

  // ---- The five entities ----

  lemma OneCharacter(s: string)
    requires |s| == 1
    ensures EscapeXml(Some(s)) == Entity(s[0])
  {
    EscapesEachCharacter(s);
    EachOne(s[0], Entity);
    assert s == [s[0]];
  }

  predicate Predefined(c: char, entity: string) {
    || (c == '&' && entity == "&amp;") || (c == '<' && entity == "&lt;") || (c == '>' && entity == "&gt;")
    || (c == '\"' && entity == "&quot;") || (c == '\'' && entity == "&apos;")
  }

  lemma EntityIff(c: char, entity: string)
    ensures Predefined(c, entity) ==> Entity(c) == entity
    ensures c !in "&<>\"'" ==> Entity(c) == [c]
  {
  }

  /** A text of one character becomes its predefined entity (section 4.6 of XML 1.0). */
  lemma EntitiesSpelled(s: string, entity: string)
    requires |s| == 1
    ensures Predefined(s[0], entity) ==> EscapeXml(Some(s)) == entity
  {
    OneCharacter(s);
    EntityIff(s[0], entity);
  }
}
