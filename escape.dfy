/**
 * HTML escaping of the browser client: every `&`, `<`, `>`, `"` and `'` of
 * a text is replaced by its character reference and every other
 * character is kept. `null` and `undefined` escape to the empty text.
 */
module Html {

  /** The argument of the escaper, as the `??` operator sees it. */
  datatype JsValue = Null | Undefined | Text(s: string)

  /** The characters that are never left raw in escaped text. */
  predicate Special(c: char) {
    c == '&' || c == '<' || c == '>' || c == '"' || c == '\''
  }

  /** The characters that may not appear raw inside an element or a quoted attribute. */
  predicate Markup(c: char) {
    c == '<' || c == '>' || c == '"' || c == '\''
  }

  /** The replacement of one character. */
  function Entity(c: char): (r: string)
    ensures |r| >= 1
    ensures !Special(c) ==> r == [c]
    ensures forall i :: 0 <= i < |r| ==> !Markup(r[i])
    ensures Special(c) ==> r[0] == '&' && r[|r| - 1] == ';'
  {
    match c
    case '&' => "&amp;"
    case '<' => "&lt;"
    case '>' => "&gt;"
    case '"' => "&quot;"
    case '\'' => "&#39;"
    case _ => [c]
  }

  /** Character-by-character escaping of a text. */
  function EscapeText(s: string): (r: string)
    ensures |r| >= |s|
    ensures forall i :: 0 <= i < |r| ==> !Markup(r[i])
  {
    if s == [] then [] else Entity(s[0]) + EscapeText(s[1..])
  }

  /** `String(s ?? "")` escaped: null and undefined give the empty text. */
  function EscapeHtml(v: JsValue): (r: string)
    ensures v.Null? || v.Undefined? ==> r == []
    ensures v.Text? ==> |r| >= |v.s|
    ensures forall i :: 0 <= i < |r| ==> !Markup(r[i])
  {
    match v
    case Null => ""
    case Undefined => ""
    case Text(s) => EscapeText(s)
  }

  /** Decodes the five character references back to their characters; everything else is kept. */
  function Unescape(s: string): string
    decreases |s|
  {
    if s == [] then []
    else if s[0] != '&' then [s[0]] + Unescape(s[1..])
    else if |s| >= 5 && s[..5] == "&amp;" then "&" + Unescape(s[5..])
    else if |s| >= 4 && s[..4] == "&lt;" then "<" + Unescape(s[4..])
    else if |s| >= 4 && s[..4] == "&gt;" then ">" + Unescape(s[4..])
    else if |s| >= 6 && s[..6] == "&quot;" then "\"" + Unescape(s[6..])
    else if |s| >= 5 && s[..5] == "&#39;" then "'" + Unescape(s[5..])
    else [s[0]] + Unescape(s[1..])
  }

  /** Decoding the replacement of one character, followed by escaped text, gives that character back first. */
  lemma UnescapeEntity(c: char, rest: string)
    ensures Unescape(Entity(c) + rest) == [c] + Unescape(rest)
  {
    var e := Entity(c);
    var t := e + rest;
    assert t[..|e|] == e && t[|e|..] == rest;
    if c == '<' || c == '>' {
      assert |t| >= 5 ==> t[..5] != "&amp;" by { if |t| >= 5 { assert t[1] != "&amp;"[1]; } }
    } else if c == '"' {
      assert t[..5] != "&amp;" by { assert t[1] != "&amp;"[1]; }
      assert t[..4] != "&lt;" && t[..4] != "&gt;" by { assert t[1] == 'q'; }
    } else if c == '\'' {
      assert t[..5] != "&amp;" by { assert t[1] != "&amp;"[1]; }
      assert t[..4] != "&lt;" && t[..4] != "&gt;" by { assert t[1] == '#'; }
      assert |t| >= 6 ==> t[..6] != "&quot;" by { if |t| >= 6 { assert t[1] == '#'; } }
    } else if !Special(c) {
      assert e == [c];
    }
  }

  /** Escaping loses nothing: decoding the escaped text gives the original back. */
  lemma {:induction false} RoundTrip(s: string)
    ensures Unescape(EscapeText(s)) == s
  {
    if s != [] {
      RoundTrip(s[1..]);
      UnescapeEntity(s[0], EscapeText(s[1..]));
      assert [s[0]] + s[1..] == s;
    }
  }

  /** Two different texts never escape to the same text. */
  lemma EscapeInjective(a: string, b: string)
    requires EscapeText(a) == EscapeText(b)
    ensures a == b
  {
    RoundTrip(a);
    RoundTrip(b);
  }

  /** Escaping works piecewise: the escape of a concatenation is the concatenation of the escapes. */
  lemma {:induction false} EscapeConcat(a: string, b: string)
    ensures EscapeText(a + b) == EscapeText(a) + EscapeText(b)
  {
    if a == [] {
      assert a + b == b;
    } else {
      var c := a + b;
      assert c[0] == a[0] && c[1..] == a[1..] + b;
      EscapeConcat(a[1..], b);
      EscapeCons(c);
      EscapeCons(a);
      Associative(Entity(a[0]), EscapeText(a[1..]), EscapeText(b));
    }
  }

  /**
   * Concatenation regroups freely. Kept apart from `EscapeConcat` so that
   * the regrouping is proved without the unfoldings of `EscapeText` in scope.
   */
  lemma Associative(x: string, y: string, z: string)
    ensures x + (y + z) == (x + y) + z
  {
  }

  /** One step of the escape: the first character's replacement, then the rest. */
  lemma EscapeCons(s: string)
    requires s != []
    ensures EscapeText(s) == Entity(s[0]) + EscapeText(s[1..])
  {
  }

  /** A text without any of the five characters is left exactly as it is. */
  lemma {:induction false} EscapeSafeText(s: string)
    requires forall i :: 0 <= i < |s| ==> !Special(s[i])
    ensures EscapeText(s) == s
  {
    if s != [] {
      EscapeSafeText(s[1..]);
      assert [s[0]] + s[1..] == s;
    }
  }

  /**
   * Escaping twice is not the same as escaping once: the `&` of a reference
   * is escaped again.
   */
  lemma DoubleEscapeDiffers()
    ensures EscapeText(EscapeText("<")) == "&amp;lt;"
  {
    assert EscapeText("<") == "&lt;" by {
      assert "<"[1..] == [];
    }
    var t := "&lt;";
    assert t[1..] == "lt;" && t[1..][1..] == "t;" && t[1..][1..][1..] == ";" && t[1..][1..][1..][1..] == [];
    assert EscapeText(";") == ";" by { assert ";"[1..] == []; }
    assert EscapeText("t;") == "t;";
    assert EscapeText("lt;") == "lt;";
  }
}
