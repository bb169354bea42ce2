/**
 * `escapeHtml` of the inquiry e-mail (`action/mail/index.ts`): five global
 * single-character replacements applied one after the other, `&` first.
 */
module HtmlEscape {
  import opened Wrappers

  /** `s.replace(/c/g, rep)`: every occurrence of `c`, left to right. */
  function ReplaceAll(s: string, c: char, rep: string): (r: string)
    ensures c !in s ==> r == s
  {
    if s == [] then []
    else (if s[0] == c then rep else [s[0]]) + ReplaceAll(s[1..], c, rep)
  }

  /** `escapeHtml`, as written: the replacement chain. */
  function EscapeHtml(s: string): string {
    ReplaceAll(ReplaceAll(ReplaceAll(ReplaceAll(ReplaceAll(
      s, '&', "&amp;"), '<', "&lt;"), '>', "&gt;"), '"', "&quot;"), '\'', "&#39;")
  }

  /** What one input character becomes. */
  function EscapeChar(c: char): string {
    match c
    case '&' => "&amp;"
    case '<' => "&lt;"
    case '>' => "&gt;"
    case '"' => "&quot;"
    case '\'' => "&#39;"
    case _ => [c]
  }

  /** The single-pass transducer: each character escaped on its own. */
  function EscapeEach(s: string): string {
    if s == [] then [] else EscapeChar(s[0]) + EscapeEach(s[1..])
  }

  lemma {:induction false} ReplaceAllConcat(a: string, b: string, c: char, rep: string)
    ensures ReplaceAll(a + b, c, rep) == ReplaceAll(a, c, rep) + ReplaceAll(b, c, rep)
  {
    if a == [] {
      assert a + b == b;
    } else {
      assert (a + b)[1..] == a[1..] + b;
      ReplaceAllConcat(a[1..], b, c, rep);
    }
  }

  /** The last four replacements leave a text without their characters alone. */
  lemma ChainTail(t: string)
    requires '<' !in t && '>' !in t && '"' !in t && '\'' !in t
    ensures ReplaceAll(ReplaceAll(ReplaceAll(ReplaceAll(
      t, '<', "&lt;"), '>', "&gt;"), '"', "&quot;"), '\'', "&#39;") == t
  {
  }

  /** The chain applied to one character gives that character's entity. */
  lemma EscapeHtmlOfChar(c: char)
    ensures EscapeHtml([c]) == EscapeChar(c)
  {
    ReplaceAllOne(c, '&', "&amp;");
    if c == '&' {
      ChainTail("&amp;");
    } else if c == '<' {
      ReplaceAllOne(c, '<', "&lt;");
      ReplaceAllOne(c, '>', "&gt;");
      var t := "&lt;";
      assert '>' !in t && '"' !in t && '\'' !in t;
    } else if c == '>' {
      ReplaceAllOne(c, '<', "&lt;");
      ReplaceAllOne(c, '>', "&gt;");
      var t := "&gt;";
      assert '"' !in t && '\'' !in t;
    } else if c == '"' {
      ReplaceAllOne(c, '<', "&lt;");
      ReplaceAllOne(c, '>', "&gt;");
      ReplaceAllOne(c, '"', "&quot;");
      var t := "&quot;";
      assert '\'' !in t;
    } else {
      ReplaceAllOne(c, '<', "&lt;");
      ReplaceAllOne(c, '>', "&gt;");
      ReplaceAllOne(c, '"', "&quot;");
      ReplaceAllOne(c, '\'', "&#39;");
    }
  }

  lemma ReplaceAllOne(c: char, d: char, rep: string)
    ensures ReplaceAll([c], d, rep) == if c == d then rep else [c]
  {
    assert [c][1..] == [];
  }

  /** The replacement chain is the single-pass transducer: no entity is escaped twice. */
  lemma {:induction false} EscapeHtmlIsPerChar(s: string)
    ensures EscapeHtml(s) == EscapeEach(s)
  {
    if s != [] {
      var c, rest := s[0], s[1..];
      assert s == [c] + rest;
      var x0, y0 := [c], rest;
      ReplaceAllConcat(x0, y0, '&', "&amp;");
      var x1, y1 := ReplaceAll(x0, '&', "&amp;"), ReplaceAll(y0, '&', "&amp;");
      ReplaceAllConcat(x1, y1, '<', "&lt;");
      var x2, y2 := ReplaceAll(x1, '<', "&lt;"), ReplaceAll(y1, '<', "&lt;");
      ReplaceAllConcat(x2, y2, '>', "&gt;");
      var x3, y3 := ReplaceAll(x2, '>', "&gt;"), ReplaceAll(y2, '>', "&gt;");
      ReplaceAllConcat(x3, y3, '"', "&quot;");
      var x4, y4 := ReplaceAll(x3, '"', "&quot;"), ReplaceAll(y3, '"', "&quot;");
      ReplaceAllConcat(x4, y4, '\'', "&#39;");
      assert EscapeHtml(s) == EscapeHtml([c]) + EscapeHtml(rest);
      EscapeHtmlOfChar(c);
      EscapeHtmlIsPerChar(rest);
    }
  }

  /** The characters that start markup or end an attribute value. */
  predicate IsMarkupChar(c: char) {
    c == '<' || c == '>' || c == '"' || c == '\''
  }

  lemma {:induction false} EscapeEachHasNoMarkup(s: string)
    ensures forall k :: 0 <= k < |EscapeEach(s)| ==> !IsMarkupChar(EscapeEach(s)[k])
  {
    if s != [] {
      EscapeEachHasNoMarkup(s[1..]);
      var e, r := EscapeChar(s[0]), EscapeEach(s[1..]);
      assert forall k :: 0 <= k < |e| ==> !IsMarkupChar(e[k]);
      assert forall k :: |e| <= k < |e + r| ==> (e + r)[k] == r[k - |e|];
    }
  }

  /** The escaped text holds no raw `<`, `>`, `"` or `'`. */
  lemma NoMarkupChars(s: string)
    ensures forall k :: 0 <= k < |EscapeHtml(s)| ==> !IsMarkupChar(EscapeHtml(s)[k])
  {
    EscapeHtmlIsPerChar(s);
    EscapeEachHasNoMarkup(s);
  }

  /**
   * The decoder of the five entities. It fails on a raw markup character
   * and on an `&` that does not start one of the five entities.
   */
  function Unescape(t: string): Option<string>
    decreases |t|
  {
    if t == [] then Some([])
    else if t[0] == '&' then
      if "&amp;" <= t then Prepend('&', Unescape(t[5..]))
      else if "&lt;" <= t then Prepend('<', Unescape(t[4..]))
      else if "&gt;" <= t then Prepend('>', Unescape(t[4..]))
      else if "&quot;" <= t then Prepend('"', Unescape(t[6..]))
      else if "&#39;" <= t then Prepend('\'', Unescape(t[5..]))
      else None
    else if IsMarkupChar(t[0]) then None
    else Prepend(t[0], Unescape(t[1..]))
  }

  function Prepend(c: char, r: Option<string>): Option<string> {
    if r.Some? then Some([c] + r.value) else None
  }

  lemma UnescapeAfterChar(c: char, u: string)
    ensures Unescape(EscapeChar(c) + u) == Prepend(c, Unescape(u))
  {
    var t := EscapeChar(c) + u;
    if c == '&' {
      assert "&amp;" <= t && t[5..] == u;
    } else if c == '<' {
      assert "&lt;" <= t && t[4..] == u;
      assert !("&amp;" <= t) by { assert t[1] == 'l'; }
    } else if c == '>' {
      assert "&gt;" <= t && t[4..] == u;
      assert !("&amp;" <= t) && !("&lt;" <= t) by { assert t[1] == 'g'; }
    } else if c == '"' {
      assert "&quot;" <= t && t[6..] == u;
      assert !("&amp;" <= t) && !("&lt;" <= t) && !("&gt;" <= t) by { assert t[1] == 'q'; }
    } else if c == '\'' {
      assert "&#39;" <= t && t[5..] == u;
      assert !("&amp;" <= t) && !("&lt;" <= t) && !("&gt;" <= t) && !("&quot;" <= t) by { assert t[1] == '#'; }
    } else {
      assert t[0] == c && t[1..] == u;
    }
  }

  /** Decoding the escaped text gives the original back: every `&` of the output starts an entity. */
  lemma {:induction false} UnescapeEscape(s: string)
    ensures Unescape(EscapeHtml(s)) == Some(s)
  {
    EscapeHtmlIsPerChar(s);
    UnescapeEscapeEach(s);
  }

  lemma {:induction false} UnescapeEscapeEach(s: string)
    ensures Unescape(EscapeEach(s)) == Some(s)
  {
    if s != [] {
      UnescapeEscapeEach(s[1..]);
      UnescapeAfterChar(s[0], EscapeEach(s[1..]));
      assert [s[0]] + s[1..] == s;
    }
  }

  /** Distinct texts stay distinct once escaped. */
  lemma EscapeInjective(a: string, b: string)
    requires EscapeHtml(a) == EscapeHtml(b)
    ensures a == b
  {
    UnescapeEscape(a);
    UnescapeEscape(b);
  }

  /** Only the empty text escapes to the empty text. */
  lemma EscapeEmpty(s: string)
    ensures EscapeHtml(s) == [] <==> s == []
  {
    EscapeHtmlIsPerChar(s);
    if s != [] {
      assert |EscapeChar(s[0])| >= 1;
    }
  }
}
