/**
 * `escapeHtml` of the planner (app.js:389-391), which renders task titles
 * into `<option>` markup. Its pattern `/[&<>"]+/g` matches whole RUNS of
 * special characters, and the callback looks each run up in a table keyed by
 * single characters: a run of two or more misses the table and is replaced
 * by the text `undefined`. `EscapeHtml` models that code as written;
 * `EscapeHtmlPerChar` is the evidently intended per-character escape.
 */
module HtmlEscape {

  predicate IsSpecial(c: char) {
    c == '&' || c == '<' || c == '>' || c == '"'
  }

  /** The table entry for one special character. */
  function Entity(c: char): (e: string)
    requires IsSpecial(c)
    ensures |e| >= 4 && e[0] == '&' && e[|e| - 1] == ';'
  {
    match c
    case '&' => "&amp;"
    case '<' => "&lt;"
    case '>' => "&gt;"
    case _ => "&quot;"
  }

  /** No character that could open or close a tag or an attribute value. */
  predicate MarkupFree(s: string) {
    forall i :: 0 <= i < |s| ==> s[i] != '<' && s[i] != '>' && s[i] != '"'
  }

  /** Length of the run of special characters `s` starts with (what one regex match takes). */
  function RunLength(s: string): (n: nat)
    ensures n <= |s|
    ensures forall i :: 0 <= i < n ==> IsSpecial(s[i])
    ensures n < |s| ==> !IsSpecial(s[n])
  {
    if s != [] && IsSpecial(s[0]) then 1 + RunLength(s[1..]) else 0
  }

  /**
   * What the replace callback returns for one matched run: the table entry
   * when the run is one character, otherwise the lookup gives `undefined`,
   * which `replace` turns into its text.
   */
  function Replacement(run: string): (r: string)
    ensures MarkupFree(r)
  {
    if |run| == 1 && IsSpecial(run[0]) then Entity(run[0]) else "undefined"
  }

  lemma MarkupFreeConcat(a: string, b: string)
    requires MarkupFree(a) && MarkupFree(b)
    ensures MarkupFree(a + b)
  {
  }

  /** `escapeHtml(s)` as written: every maximal run of specials is replaced as a whole. */
  function EscapeHtml(s: string): (r: string)
    ensures MarkupFree(r)
    decreases |s|
  {
    if s == [] then []
    else if !IsSpecial(s[0]) then
      MarkupFreeConcat([s[0]], EscapeHtml(s[1..]));
      [s[0]] + EscapeHtml(s[1..])
    else
      var n := RunLength(s);
      MarkupFreeConcat(Replacement(s[..n]), EscapeHtml(s[n..]));
      Replacement(s[..n]) + EscapeHtml(s[n..])
  }

  /** The evidently intended escape: each special character becomes its entity. */
  function EscapeHtmlPerChar(s: string): (r: string)
    ensures MarkupFree(r)
    ensures |r| >= |s|
  {
    if s == [] then []
    else
      var head := if IsSpecial(s[0]) then Entity(s[0]) else [s[0]];
      MarkupFreeConcat(head, EscapeHtmlPerChar(s[1..]));
      head + EscapeHtmlPerChar(s[1..])
  }

  /** Decoding of the four entities; any other text is kept. */
  function Unescape(s: string): string
    decreases |s|
  {
    if s == [] then []
    else if "&amp;" <= s then "&" + Unescape(s[5..])
    else if "&lt;" <= s then "<" + Unescape(s[4..])
    else if "&gt;" <= s then ">" + Unescape(s[4..])
    else if "&quot;" <= s then "\"" + Unescape(s[6..])
    else [s[0]] + Unescape(s[1..])
  }

  /** An entity followed by any text decodes to its character followed by the decoded text. */
  lemma UnescapeEntity(c: char, rest: string)
    requires IsSpecial(c)
    ensures Unescape(Entity(c) + rest) == [c] + Unescape(rest)
  {
    var t := Entity(c) + rest;
    assert t[|Entity(c)|..] == rest;
    assert Entity(c) <= t;
    assert t[1] == Entity(c)[1];
    if c == '&' {
    } else if c == '<' {
      assert !("&amp;" <= t) by { assert t[1] == 'l'; }
    } else if c == '>' {
      assert !("&amp;" <= t) && !("&lt;" <= t) by { assert t[1] == 'g'; }
    } else {
      assert !("&amp;" <= t) && !("&lt;" <= t) && !("&gt;" <= t) by { assert t[1] == 'q'; }
    }
  }

  /** The corrected escape loses nothing: decoding gives the original text back. */
  lemma {:induction false} UnescapeEscapeHtmlPerChar(s: string)
    ensures Unescape(EscapeHtmlPerChar(s)) == s
  {
    if s != [] {
      var rest := EscapeHtmlPerChar(s[1..]);
      UnescapeEscapeHtmlPerChar(s[1..]);
      if IsSpecial(s[0]) {
        assert EscapeHtmlPerChar(s) == Entity(s[0]) + rest;
        UnescapeEntity(s[0], rest);
      } else {
        assert EscapeHtmlPerChar(s) == [s[0]] + rest;
        assert ([s[0]] + rest)[1..] == rest;
      }
    }
  }

  /** No two special characters stand next to each other. */
  predicate NoAdjacentSpecials(s: string) {
    forall i :: 0 <= i < |s| - 1 ==> !(IsSpecial(s[i]) && IsSpecial(s[i + 1]))
  }

  /** When every run is a single character, the code as written escapes correctly. */
  lemma {:induction false} EscapeHtmlAgreesOnIsolatedSpecials(s: string)
    requires NoAdjacentSpecials(s)
    ensures EscapeHtml(s) == EscapeHtmlPerChar(s)
  {
    if s != [] {
      assert NoAdjacentSpecials(s[1..]) by {
        forall i | 0 <= i < |s[1..]| - 1
          ensures !(IsSpecial(s[1..][i]) && IsSpecial(s[1..][i + 1]))
        {
          assert s[1..][i] == s[i + 1] && s[1..][i + 1] == s[i + 2];
        }
      }
      EscapeHtmlAgreesOnIsolatedSpecials(s[1..]);
      if IsSpecial(s[0]) {
        var n := RunLength(s);
        assert n == 1 by {
          assert |s| > 1 ==> !IsSpecial(s[1]);
          assert s[1..] == [] || !IsSpecial(s[1..][0]);
        }
        assert s[..n] == [s[0]];
      }
    }
  }

  /** The discrepancy: a title with `<<` is shown with the word `undefined` in its place. */
  lemma EscapeHtmlRunBecomesUndefined()
    ensures EscapeHtml("a<<b") == "aundefinedb"
    ensures EscapeHtmlPerChar("a<<b") == "a&lt;&lt;b"
  {
    var s := "a<<b";
    assert s[1..] == "<<b";
    assert RunLength("<<b") == 2 by {
      assert "<<b"[1..] == "<b";
      assert "<b"[1..] == "b";
      assert RunLength("b") == 0;
    }
    assert "<<b"[..2] == "<<";
    assert "<<b"[2..] == "b";
    assert "b"[1..] == [];
    assert "<<b"[1..] == "<b";
    assert "<b"[1..] == "b";
  }
}
