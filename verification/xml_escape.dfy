/** `xmlsafe`: escaping text for XML by one `strings.ReplaceAll` per entry of a five-entry map.
    Go does not fix the order in which a `range` over a map visits its entries, so the order is a
    parameter here: any arrangement of the five keys. */
module XmlEscape {
  import opened GoStrings

  /** The replacement map of `xmlsafe`: the predefined entities of section 4.6 of XML 1.0 and the
      character reference `&#39;` for the apostrophe. */
  const Entities: map<char, string> :=
    map['&' := "&amp;", '"' := "&quot;", '<' := "&lt;", '>' := "&gt;", '\'' := "&#39;"]

  /** A way the `range` loop can visit the map: every key exactly once. */
  predicate IsIterationOrder(order: seq<char>) {
    && IsPartialOrder(order)
    && (forall c :: c in Entities ==> c in order)
  }

  /** The keys visited so far by the loop: distinct keys of the map. */
  predicate IsPartialOrder(order: seq<char>) {
    && (forall i :: 0 <= i < |order| ==> order[i] in Entities)
    && (forall i, j :: 0 <= i < j < |order| ==> order[i] != order[j])
  }

  /** What the loop of `xmlsafe` leaves in `res` after visiting the keys of `order`, in that order. */
  function ReplaceInOrder(s: string, order: seq<char>): string
    requires forall i :: 0 <= i < |order| ==> order[i] in Entities
    decreases |order|
  {
    if order == [] then s
    else
      var k := order[|order| - 1];
      ReplaceAll(ReplaceInOrder(s, order[..|order| - 1]), [k], Entities[k])
  }

  /** `xmlsafe`, the loop itself. */
  method XmlSafe(s: string, order: seq<char>) returns (res: string)
    requires IsIterationOrder(order)
    ensures res == ReplaceInOrder(s, order)
    ensures NoMarkup(res) && AmpersandsEscaped(res)
  {
    res := s;
    for i := 0 to |order|
      invariant res == ReplaceInOrder(s, order[..i])
    {
      var k := order[i];
      assert order[..i + 1][..i] == order[..i];
      res := ReplaceAll(res, [k], Entities[k]);
    }
    assert order[..|order|] == order;
    ReplaceInOrderCharwise(s, order);
    EscapeTextIsCharData(s, order);
  }

  // ---------------------------------------------------------------------------------------------
  // The character-by-character reading of the loop

  /** True when, in `order`, the key `&` is replaced before the key `c`. */
  predicate AmpBefore(c: char, order: seq<char>)
    decreases |order|
  {
    if order == [] then false
    else if order[|order| - 1] == c then '&' in order[..|order| - 1]
    else AmpBefore(c, order[..|order| - 1])
  }

  /** The text a key escapes to when its own replacement ran before that of `&`: the `&` of its
      entity has itself been escaped (`<` becomes `&amp;lt;`). */
  function Delayed(c: char): string
    requires c in Entities
  {
    "&amp;" + Entities[c][1..]
  }

  /** What the replacements of `order` turn the single character `c` into. */
  function EscapedChar(c: char, order: seq<char>): string {
    if c !in order || c !in Entities then [c]
    else if c != '&' && '&' in order && !AmpBefore(c, order) then Delayed(c)
    else Entities[c]
  }

  /** The reference escape: each character of `s` replaced by its `EscapedChar`. */
  function EscapeText(s: string, order: seq<char>): string
    decreases |s|
  {
    if s == [] then [] else EscapedChar(s[0], order) + EscapeText(s[1..], order)
  }

  lemma {:induction false} AmpBeforeHasAmp(c: char, order: seq<char>)
    requires AmpBefore(c, order)
    ensures '&' in order
  {
    var n := |order| - 1;
    if order[n] != c {
      AmpBeforeHasAmp(c, order[..n]);
    }
  }

  lemma {:induction false} ReplaceInOrderAppend(a: string, b: string, order: seq<char>)
    requires forall i :: 0 <= i < |order| ==> order[i] in Entities
    ensures ReplaceInOrder(a + b, order) == ReplaceInOrder(a, order) + ReplaceInOrder(b, order)
    decreases |order|
  {
    if order != [] {
      var n := |order| - 1;
      var k := order[n];
      ReplaceInOrderAppend(a, b, order[..n]);
      ReplaceCharAppend(ReplaceInOrder(a, order[..n]), ReplaceInOrder(b, order[..n]), k, Entities[k]);
    }
  }

  /** One more replacement, seen from one character: replacing key `k` next turns
      `EscapedChar(c, prev)` into `EscapedChar(c, prev + [k])`. */
  lemma EscapedCharStep(c: char, prev: seq<char>, k: char)
    requires IsPartialOrder(prev) && k in Entities && k !in prev
    ensures ReplaceAll(EscapedChar(c, prev), [k], Entities[k]) == EscapedChar(c, prev + [k])
  {
    if k == c {
      StepOwnKey(c, prev);
    } else if c !in prev || c !in Entities {
      StepUntouched(c, prev, k);
    } else if k == '&' {
      StepAmpAfter(c, prev);
    } else {
      StepOtherKey(c, prev, k);
    }
  }

  /** Replacing `c` itself turns the still untouched `c` into its entity. */
  lemma StepOwnKey(c: char, prev: seq<char>)
    requires IsPartialOrder(prev) && c in Entities && c !in prev
    ensures ReplaceAll(EscapedChar(c, prev), [c], Entities[c]) == EscapedChar(c, prev + [c])
  {
    var order := prev + [c];
    assert order[..|order| - 1] == prev;
    assert EscapedChar(c, prev) == [c];
    assert [c] <= [c] && [c][1..] == [];
    assert AmpBefore(c, order) == ('&' in prev);
  }

  /** A character that is not yet replaced, or no key at all, is left alone by another key. */
  lemma StepUntouched(c: char, prev: seq<char>, k: char)
    requires IsPartialOrder(prev) && k in Entities && k !in prev && k != c
    requires c !in prev || c !in Entities
    ensures ReplaceAll(EscapedChar(c, prev), [k], Entities[k]) == EscapedChar(c, prev + [k])
  {
    assert EscapedChar(c, prev) == [c];
    ReplaceCharAbsent([c], k, Entities[k]);
  }

  /** Replacing `&` after `c` escapes the `&` of the entity `c` already became. */
  lemma StepAmpAfter(c: char, prev: seq<char>)
    requires IsPartialOrder(prev) && '&' !in prev && c in prev && c in Entities && c != '&'
    ensures ReplaceAll(EscapedChar(c, prev), ['&'], Entities['&']) == EscapedChar(c, prev + ['&'])
  {
    var order := prev + ['&'];
    assert order[..|order| - 1] == prev;
    assert !AmpBefore(c, prev) by {
      if AmpBefore(c, prev) { AmpBeforeHasAmp(c, prev); }
    }
    assert EscapedChar(c, prev) == Entities[c];
    AmpReplacedAfter(c);
  }

  /** Any other key is absent from what `c` already became. */
  lemma StepOtherKey(c: char, prev: seq<char>, k: char)
    requires IsPartialOrder(prev) && k in Entities && k !in prev && k != c && k != '&'
    requires c in prev && c in Entities
    ensures ReplaceAll(EscapedChar(c, prev), [k], Entities[k]) == EscapedChar(c, prev + [k])
  {
    var order := prev + [k];
    assert order[..|order| - 1] == prev;
    assert AmpBefore(c, order) == AmpBefore(c, prev);
    assert c in order && (('&' in order) == ('&' in prev));
    assert EscapedChar(c, order) == EscapedChar(c, prev);
    KeyAbsentFromEscape(c, k);
    assert k !in EscapedChar(c, prev);
    ReplaceCharAbsent(EscapedChar(c, prev), k, Entities[k]);
  }

  /** Replacing `&` in the entity of another key escapes the entity's own `&`. */
  lemma AmpReplacedAfter(c: char)
    requires c in Entities && c != '&'
    ensures ReplaceAll(Entities[c], ['&'], "&amp;") == Delayed(c)
  {
    var e := Entities[c];
    assert ['&'] <= e;
    assert '&' !in e[1..] by { EntityTails(c); }
    ReplaceCharAbsent(e[1..], '&', "&amp;");
  }

  /** The entity of a key, and its delayed form, contain no key other than `&`. */
  lemma KeyAbsentFromEscape(c: char, k: char)
    requires c in Entities && k in Entities && k != '&'
    ensures k !in Entities[c] && k !in Delayed(c)
  {
    EntityTails(c);
  }

  /** Each entity is `&` followed by letters, digits, `#` and `;` only. */
  lemma EntityTails(c: char)
    requires c in Entities
    ensures |Entities[c]| > 1 && Entities[c][0] == '&'
    ensures '&' !in Entities[c][1..] && NoMarkup(Entities[c][1..])
  {
    var e := Entities[c];
    if c == '&' {
      assert e == "&" + "amp;";
    } else if c == '"' {
      assert e == "&" + "quot;";
    } else if c == '<' {
      assert e == "&" + "lt;";
    } else if c == '>' {
      assert e == "&" + "gt;";
    } else {
      assert e == "&" + "#39;";
    }
  }

  /** The loop, seen from one character: after any prefix of an iteration order, `c` has become
      `EscapedChar(c, prefix)`. */
  lemma {:induction false} ReplaceInOrderChar(c: char, order: seq<char>)
    requires IsPartialOrder(order)
    ensures ReplaceInOrder([c], order) == EscapedChar(c, order)
    decreases |order|
  {
    if order != [] {
      var n := |order| - 1;
      var k, prev := order[n], order[..n];
      LastIsNew(order);
      ReplaceInOrderChar(c, prev);
      EscapedCharStep(c, prev, k);
      assert prev + [k] == order;
    }
  }

  /** The last key of a partial order is a new one, and the keys before it are a partial order. */
  lemma LastIsNew(order: seq<char>)
    requires IsPartialOrder(order) && |order| > 0
    ensures IsPartialOrder(order[..|order| - 1]) && order[|order| - 1] !in order[..|order| - 1]
  {
    var n := |order| - 1;
    forall i | 0 <= i < n ensures order[..n][i] != order[n] {
      assert order[..n][i] == order[i];
    }
  }

  /** The whole loop is the character-by-character escape. */
  lemma {:induction false} ReplaceInOrderCharwise(s: string, order: seq<char>)
    requires IsPartialOrder(order)
    ensures ReplaceInOrder(s, order) == EscapeText(s, order)
    decreases |s|
  {
    if s == [] {
      ReplaceCharsOfEmpty(order);
    } else {
      assert s == [s[0]] + s[1..];
      ReplaceInOrderAppend([s[0]], s[1..], order);
      ReplaceInOrderChar(s[0], order);
      ReplaceInOrderCharwise(s[1..], order);
    }
  }

  lemma {:induction false} ReplaceCharsOfEmpty(order: seq<char>)
    requires forall i :: 0 <= i < |order| ==> order[i] in Entities
    ensures ReplaceInOrder([], order) == []
    decreases |order|
  {
    if order != [] {
      ReplaceCharsOfEmpty(order[..|order| - 1]);
    }
  }

  // ---------------------------------------------------------------------------------------------
  // What every order guarantees

  /** None of the four markup characters that `xmlsafe` escapes besides `&`. */
  predicate NoMarkup(s: string) {
    '<' !in s && '>' !in s && '"' !in s && '\'' !in s
  }

  /** `t` starts with one of the five references `xmlsafe` writes. */
  predicate BeginsReference(t: string) {
    "&amp;" <= t || "&quot;" <= t || "&lt;" <= t || "&gt;" <= t || "&#39;" <= t
  }

  /** Every `&` of `s` begins a reference: `s` holds no bare ampersand. */
  predicate AmpersandsEscaped(s: string) {
    forall i :: 0 <= i < |s| && s[i] == '&' ==> BeginsReference(s[i..])
  }

  lemma AmpersandsEscapedAppend(a: string, b: string)
    requires AmpersandsEscaped(a) && AmpersandsEscaped(b)
    ensures AmpersandsEscaped(a + b)
  {
    var ab := a + b;
    forall i | 0 <= i < |ab| && ab[i] == '&' ensures BeginsReference(ab[i..]) {
      if i < |a| {
        assert a[i] == '&';
        assert ab[i..] == a[i..] + b;
        assert BeginsReference(a[i..]);
      } else {
        assert ab[i..] == b[i - |a|..];
      }
    }
  }

  /** A reference followed by text without `&` has all its ampersands escaped. */
  lemma ReferenceThenPlain(t: string)
    requires |t| > 0 && BeginsReference(t) && '&' !in t[1..]
    ensures AmpersandsEscaped(t)
  {
    assert forall i :: 0 < i < |t| ==> t[i] == t[1..][i - 1];
    assert t[0..] == t;
  }

  /** An entity on its own is well-formed character data. */
  lemma EntityIsCharData(c: char)
    requires c in Entities
    ensures NoMarkup(Entities[c]) && AmpersandsEscaped(Entities[c])
  {
    EntityTails(c);
    var e := Entities[c];
    assert e == [e[0]] + e[1..];
    assert BeginsReference(e) by {
      if c == '&' {
        assert e == "&amp;";
      } else if c == '"' {
        assert e == "&quot;";
      } else if c == '<' {
        assert e == "&lt;";
      } else if c == '>' {
        assert e == "&gt;";
      } else {
        assert e == "&#39;";
      }
    }
    ReferenceThenPlain(e);
  }

  /** A doubly escaped entity is well-formed character data too. */
  lemma DelayedIsCharData(c: char)
    requires c in Entities
    ensures NoMarkup(Delayed(c)) && AmpersandsEscaped(Delayed(c))
  {
    EntityTails(c);
    var tail := Entities[c][1..];
    var d := Delayed(c);
    assert "&amp;" <= d;
    assert d[1..] == "amp;" + tail;
    assert '&' !in "amp;";
    ReferenceThenPlain(d);
  }

  lemma EscapedCharIsCharData(c: char, order: seq<char>)
    requires c in Entities ==> c in order
    ensures NoMarkup(EscapedChar(c, order)) && AmpersandsEscaped(EscapedChar(c, order))
  {
    if c in Entities {
      EntityIsCharData(c);
      DelayedIsCharData(c);
    } else {
      assert c != '<' && c != '>' && c != '"' && c != '\'' && c != '&';
    }
  }

  /** The escaped text is well-formed character data (section 2.4 of XML 1.0): no markup
      character, and no `&` that does not begin a reference; this holds for every order. */
  lemma {:induction false} EscapeTextIsCharData(s: string, order: seq<char>)
    requires IsIterationOrder(order)
    ensures NoMarkup(EscapeText(s, order)) && AmpersandsEscaped(EscapeText(s, order))
    decreases |s|
  {
    if s != [] {
      EscapedCharIsCharData(s[0], order);
      EscapeTextIsCharData(s[1..], order);
      AmpersandsEscapedAppend(EscapedChar(s[0], order), EscapeText(s[1..], order));
    }
  }

  /** For every order, `xmlsafe` produces well-formed character data. */
  lemma XmlSafeIsCharData(s: string, order: seq<char>)
    requires IsIterationOrder(order)
    ensures NoMarkup(ReplaceInOrder(s, order)) && AmpersandsEscaped(ReplaceInOrder(s, order))
  {
    ReplaceInOrderCharwise(s, order);
    EscapeTextIsCharData(s, order);
  }

  /** Text with none of the five keys comes back unchanged, for every order. */
  lemma {:induction false} XmlSafePlain(s: string, order: seq<char>)
    requires IsIterationOrder(order)
    requires forall i :: 0 <= i < |s| ==> s[i] !in Entities
    ensures ReplaceInOrder(s, order) == s
  {
    ReplaceInOrderCharwise(s, order);
    EscapeTextPlain(s, order);
  }

  lemma {:induction false} EscapeTextPlain(s: string, order: seq<char>)
    requires forall i :: 0 <= i < |s| ==> s[i] !in Entities
    ensures EscapeText(s, order) == s
    decreases |s|
  {
    if s != [] {
      EscapeTextPlain(s[1..], order);
      assert s == [s[0]] + s[1..];
    }
  }

  /** An input `&` is always escaped, even where it already begins a reference. */
  lemma XmlSafeReescapes(order: seq<char>)
    requires IsIterationOrder(order)
    ensures ReplaceInOrder("&amp;", order) == "&amp;amp;"
  {
    ReplaceInOrderCharwise("&amp;", order);
    assert EscapeText("&amp;", order) == "&amp;" + EscapeText("amp;", order);
    EscapeTextPlain("amp;", order);
  }

  // ---------------------------------------------------------------------------------------------
  // When `&` comes first: the ordinary escape and its inverse

  /** The ordinary escape: every key replaced by its entity, every other character kept. */
  function StandardEscape(s: string): string
    decreases |s|
  {
    if s == [] then []
    else (if s[0] in Entities then Entities[s[0]] else [s[0]]) + StandardEscape(s[1..])
  }

  /** Reading character data: each of the five references turned back into its character. */
  function DecodeReferences(t: string): string
    decreases |t|
  {
    if t == [] then []
    else if "&amp;" <= t then "&" + DecodeReferences(t[5..])
    else if "&quot;" <= t then "\"" + DecodeReferences(t[6..])
    else if "&lt;" <= t then "<" + DecodeReferences(t[4..])
    else if "&gt;" <= t then ">" + DecodeReferences(t[4..])
    else if "&#39;" <= t then "'" + DecodeReferences(t[5..])
    else [t[0]] + DecodeReferences(t[1..])
  }

  lemma {:induction false} AmpFirstBefore(c: char, order: seq<char>)
    requires |order| > 0 && order[0] == '&' && c in order && c != '&'
    ensures AmpBefore(c, order)
    decreases |order|
  {
    var n := |order| - 1;
    assert order == order[..n] + [order[n]];
    if order[n] == c {
      assert order[..n][0] == '&';
    } else {
      AmpFirstBefore(c, order[..n]);
    }
  }

  /** When the loop happens to visit `&` first, `xmlsafe` is the ordinary escape. */
  lemma {:induction false} XmlSafeAmpFirst(s: string, order: seq<char>)
    requires IsIterationOrder(order) && |order| > 0 && order[0] == '&'
    ensures ReplaceInOrder(s, order) == StandardEscape(s)
  {
    ReplaceInOrderCharwise(s, order);
    EscapeTextAmpFirst(s, order);
  }

  lemma {:induction false} EscapeTextAmpFirst(s: string, order: seq<char>)
    requires IsIterationOrder(order) && |order| > 0 && order[0] == '&'
    ensures EscapeText(s, order) == StandardEscape(s)
    decreases |s|
  {
    if s != [] {
      var c := s[0];
      if c in Entities && c != '&' {
        AmpFirstBefore(c, order);
      }
      EscapeTextAmpFirst(s[1..], order);
    }
  }

  /** Reading back the ordinary escape gives the original text. */
  lemma {:induction false} DecodeStandardEscape(s: string)
    ensures DecodeReferences(StandardEscape(s)) == s
    decreases |s|
  {
    if s != [] {
      var c, rest := s[0], StandardEscape(s[1..]);
      DecodeStandardEscape(s[1..]);
      if c in Entities {
        DecodeEntity(c, rest);
      } else {
        var t := [c] + rest;
        assert t[1..] == rest;
        assert t[0] == c != '&';
      }
      assert s == [c] + s[1..];
    }
  }

  /** A reference followed by anything decodes to its character followed by the decoded rest. */
  lemma DecodeEntity(c: char, rest: string)
    requires c in Entities
    ensures DecodeReferences(Entities[c] + rest) == [c] + DecodeReferences(rest)
  {
    var e := Entities[c];
    var t := e + rest;
    assert t[..|e|] == e && t[|e|..] == rest;
    if c == '&' {
      assert e == "&amp;";
    } else if c == '"' {
      assert e == "&quot;";
      assert t[1] == 'q';
    } else if c == '<' {
      assert e == "&lt;";
      assert t[1] == 'l';
    } else if c == '>' {
      assert e == "&gt;";
      assert t[1] == 'g';
    } else {
      assert e == "&#39;";
      assert t[1] == '#';
    }
  }

  /** A key visited first is visited before `&`, if at all. */
  lemma {:induction false} FirstKeyNotAfterAmp(c: char, order: seq<char>)
    requires IsPartialOrder(order) && |order| > 0 && order[0] == c
    ensures !AmpBefore(c, order)
    decreases |order|
  {
    var n := |order| - 1;
    LastIsNew(order);
    if order[n] != c {
      assert order[..n][0] == c;
      FirstKeyNotAfterAmp(c, order[..n]);
    } else {
      assert order[0] == order[n];
    }
  }

  /** The order matters: visiting `<` before `&` escapes `<` twice, and what a reader then
      decodes is `&lt;`, not `<`. */
  lemma XmlSafeOrderMatters()
    ensures IsIterationOrder(['&', '"', '<', '>', '\'']) && IsIterationOrder(['<', '&', '"', '>', '\''])
    ensures ReplaceInOrder("<", ['&', '"', '<', '>', '\'']) == "&lt;"
    ensures ReplaceInOrder("<", ['<', '&', '"', '>', '\'']) == "&amp;lt;"
    ensures DecodeReferences("&amp;lt;") == "&lt;"
  {
    LessThanAmpFirst();
    LessThanAmpLate();
    DecodeEntity('&', "lt;");
    assert DecodeReferences("lt;") == "lt;" by {
      assert DecodeReferences("lt;") == "l" + DecodeReferences("t;");
      assert DecodeReferences("t;") == "t" + DecodeReferences(";");
      assert DecodeReferences(";") == ";" + DecodeReferences([]);
    }
  }

  lemma LessThanAmpFirst()
    ensures IsIterationOrder(['&', '"', '<', '>', '\''])
    ensures ReplaceInOrder("<", ['&', '"', '<', '>', '\'']) == "&lt;"
  {
    var first := ['&', '"', '<', '>', '\''];
    assert IsIterationOrder(first);
    XmlSafeAmpFirst("<", first);
    assert StandardEscape("<") == Entities['<'] + StandardEscape([]);
  }

  lemma LessThanAmpLate()
    ensures IsIterationOrder(['<', '&', '"', '>', '\''])
    ensures ReplaceInOrder("<", ['<', '&', '"', '>', '\'']) == "&amp;lt;"
  {
    var late := ['<', '&', '"', '>', '\''];
    assert IsIterationOrder(late);
    ReplaceInOrderCharwise("<", late);
    FirstKeyNotAfterAmp('<', late);
    assert EscapeText("<", late) == EscapedChar('<', late) + EscapeText([], late);
    assert Entities['<'][1..] == "lt;";
  }
}
