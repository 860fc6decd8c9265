/** `escapeHtml` from scripts/render.mjs: five chained `replaceAll` calls. */
module Escape {

  /**
   * `s.replaceAll(c, rep)` for a one-character pattern and a replacement
   * without `$`: every `c` becomes `rep`. (JavaScript expands `$&`, `$$` and
   * the like in a replacement string; none of the five replacements of
   * `escapeHtml` contains a `$`.)
   */
  function ReplaceAll(s: string, c: char, rep: string): (r: string)
    ensures c !in s ==> r == s
    ensures c !in rep ==> c !in r
  {
    if s == [] then []
    else (if s[0] == c then rep else [s[0]]) + ReplaceAll(s[1..], c, rep)
  }

  /** `escapeHtml(s)`: the five replacements in the order the script chains them, `&` first. */
  function EscapeHtml(s: string): (r: string)
    ensures (forall i :: 0 <= i < |s| ==> !IsSpecial(s[i])) ==> r == s
  {
    var amp := ReplaceAll(s, '&', "&amp;");
    var lt := ReplaceAll(amp, '<', "&lt;");
    var gt := ReplaceAll(lt, '>', "&gt;");
    var quot := ReplaceAll(gt, '"', "&quot;");
    ReplaceAll(quot, '\'', "&#39;")
  }

  /** The five characters `escapeHtml` rewrites. */
  predicate IsSpecial(ch: char) {
    ch == '&' || ch == '<' || ch == '>' || ch == '"' || ch == '\''
  }

  /** Characters that may not appear in escaped text at all. */
  predicate IsMarkup(ch: char) {
    ch == '<' || ch == '>' || ch == '"' || ch == '\''
  }

  /** The text begins with one of the five entities `escapeHtml` writes. */
  predicate StartsEntity(t: string) {
    "&amp;" <= t || "&lt;" <= t || "&gt;" <= t || "&quot;" <= t || "&#39;" <= t
  }

  /** The escape of one character, as a table. */
  function EscapeChar(ch: char): string {
    match ch
    case '&' => "&amp;"
    case '<' => "&lt;"
    case '>' => "&gt;"
    case '"' => "&quot;"
    case '\'' => "&#39;"
    case _ => [ch]
  }

  /** Escaping character by character. */
  function EscapeEach(s: string): string {
    if s == [] then [] else EscapeChar(s[0]) + EscapeEach(s[1..])
  }

  /** Decodes the five entities; the inverse used to state that escaping loses nothing. */
  function Unescape(t: string): string
    decreases |t|
  {
    if t == [] then []
    else if "&amp;" <= t then "&" + Unescape(t[5..])
    else if "&lt;" <= t then "<" + Unescape(t[4..])
    else if "&gt;" <= t then ">" + Unescape(t[4..])
    else if "&quot;" <= t then "\"" + Unescape(t[6..])
    else if "&#39;" <= t then "'" + Unescape(t[5..])
    else [t[0]] + Unescape(t[1..])
  }

  lemma {:induction false} ReplaceAllAppend(x: string, y: string, c: char, rep: string)
    ensures ReplaceAll(x + y, c, rep) == ReplaceAll(x, c, rep) + ReplaceAll(y, c, rep)
  {
    if x == [] {
      assert x + y == y;
    } else {
      assert (x + y)[0] == x[0] && (x + y)[1..] == x[1..] + y;
      ReplaceAllAppend(x[1..], y, c, rep);
    }
  }

  lemma EscapeHtmlAppend(x: string, y: string)
    ensures EscapeHtml(x + y) == EscapeHtml(x) + EscapeHtml(y)
  {
    ReplaceAllAppend(x, y, '&', "&amp;");
    var ax, ay := ReplaceAll(x, '&', "&amp;"), ReplaceAll(y, '&', "&amp;");
    ReplaceAllAppend(ax, ay, '<', "&lt;");
    var lx, ly := ReplaceAll(ax, '<', "&lt;"), ReplaceAll(ay, '<', "&lt;");
    ReplaceAllAppend(lx, ly, '>', "&gt;");
    var gx, gy := ReplaceAll(lx, '>', "&gt;"), ReplaceAll(ly, '>', "&gt;");
    ReplaceAllAppend(gx, gy, '"', "&quot;");
    var qx, qy := ReplaceAll(gx, '"', "&quot;"), ReplaceAll(gy, '"', "&quot;");
    ReplaceAllAppend(qx, qy, '\'', "&#39;");
  }

  lemma ReplaceAllOne(ch: char, c: char, rep: string)
    ensures ReplaceAll([ch], c, rep) == if ch == c then rep else [ch]
  {
    assert [ch][1..] == [];
  }

  /** The chain leaves a string alone once it holds none of the remaining patterns. */
  lemma ChainFrom(s: string, amp: string)
    requires amp == ReplaceAll(s, '&', "&amp;")
    requires '<' !in amp && '>' !in amp && '"' !in amp && '\'' !in amp
    ensures EscapeHtml(s) == amp
  {
  }

  lemma EscapeHtmlAmp()
    ensures EscapeHtml("&") == "&amp;"
  {
    ReplaceAllOne('&', '&', "&amp;");
    ChainFrom("&", "&amp;");
  }

  lemma EscapeHtmlLt()
    ensures EscapeHtml("<") == "&lt;"
  {
    ReplaceAllOne('<', '&', "&amp;");
    ReplaceAllOne('<', '<', "&lt;");
    var lt := "&lt;";
    assert '>' !in lt && '"' !in lt && '\'' !in lt;
    assert ReplaceAll(ReplaceAll(ReplaceAll(lt, '>', "&gt;"), '"', "&quot;"), '\'', "&#39;") == lt;
  }

  lemma EscapeHtmlGt()
    ensures EscapeHtml(">") == "&gt;"
  {
    ReplaceAllOne('>', '&', "&amp;");
    ReplaceAllOne('>', '<', "&lt;");
    ReplaceAllOne('>', '>', "&gt;");
    var gt := "&gt;";
    assert '"' !in gt && '\'' !in gt;
    assert ReplaceAll(ReplaceAll(gt, '"', "&quot;"), '\'', "&#39;") == gt;
  }

  lemma EscapeHtmlQuot()
    ensures EscapeHtml("\"") == "&quot;"
  {
    ReplaceAllOne('"', '&', "&amp;");
    ReplaceAllOne('"', '<', "&lt;");
    ReplaceAllOne('"', '>', "&gt;");
    ReplaceAllOne('"', '"', "&quot;");
    var quot := "&quot;";
    assert '\'' !in quot;
    assert ReplaceAll(quot, '\'', "&#39;") == quot;
  }

  lemma EscapeHtmlApos()
    ensures EscapeHtml("'") == "&#39;"
  {
    ReplaceAllOne('\'', '&', "&amp;");
    ReplaceAllOne('\'', '<', "&lt;");
    ReplaceAllOne('\'', '>', "&gt;");
    ReplaceAllOne('\'', '"', "&quot;");
    ReplaceAllOne('\'', '\'', "&#39;");
  }

  /** Applied to one character, the chain of replacements gives that character's table entry. */
  lemma EscapeHtmlChar(ch: char)
    ensures EscapeHtml([ch]) == EscapeChar(ch)
  {
    if ch == '&' {
      EscapeHtmlAmp();
    } else if ch == '<' {
      EscapeHtmlLt();
    } else if ch == '>' {
      EscapeHtmlGt();
    } else if ch == '"' {
      EscapeHtmlQuot();
    } else if ch == '\'' {
      EscapeHtmlApos();
    } else {
      ReplaceAllOne(ch, '&', "&amp;");
      ChainFrom([ch], [ch]);
    }
  }

  /**
   * Chaining the five `replaceAll` calls is the same as escaping each
   * character on its own: no replacement ever rewrites text an earlier one
   * inserted, because `&` is replaced first.
   */
  lemma {:induction false} EscapeHtmlIsPerChar(s: string)
    ensures EscapeHtml(s) == EscapeEach(s)
  {
    if s != [] {
      assert s == [s[0]] + s[1..];
      EscapeHtmlAppend([s[0]], s[1..]);
      EscapeHtmlChar(s[0]);
      EscapeHtmlIsPerChar(s[1..]);
    }
  }

  lemma {:induction false} EscapeEachSafe(s: string)
    ensures forall i :: 0 <= i < |EscapeEach(s)| ==> !IsMarkup(EscapeEach(s)[i])
    ensures forall i :: 0 <= i < |EscapeEach(s)| && EscapeEach(s)[i] == '&' ==> StartsEntity(EscapeEach(s)[i..])
  {
    if s != [] {
      EscapeEachSafe(s[1..]);
      var head, tail := EscapeChar(s[0]), EscapeEach(s[1..]);
      var r := EscapeEach(s);
      assert r == head + tail;
      forall i | 0 <= i < |r|
        ensures !IsMarkup(r[i])
        ensures r[i] == '&' ==> StartsEntity(r[i..])
      {
        if i < |head| {
          assert r[i] == head[i];
          if r[i] == '&' {
            assert i == 0;
            assert head <= r;
          }
        } else {
          assert r[i] == tail[i - |head|];
          assert r[i..] == tail[i - |head|..];
        }
      }
    }
  }

  /**
   * What `escapeHtml` promises: the output holds no `<`, `>`, `"` or `'`, and
   * every `&` in it begins one of the five entities.
   */
  lemma EscapeHtmlSafe(s: string)
    ensures forall i :: 0 <= i < |EscapeHtml(s)| ==> !IsMarkup(EscapeHtml(s)[i])
    ensures forall i :: 0 <= i < |EscapeHtml(s)| && EscapeHtml(s)[i] == '&' ==> StartsEntity(EscapeHtml(s)[i..])
  {
    EscapeHtmlIsPerChar(s);
    EscapeEachSafe(s);
  }

  lemma UnescapeAfterChar(ch: char, t: string)
    ensures Unescape(EscapeChar(ch) + t) == [ch] + Unescape(t)
  {
    var e := EscapeChar(ch) + t;
    if !IsSpecial(ch) {
      assert e[0] == ch && e[1..] == t;
    } else if ch == '&' {
      assert "&amp;" <= e && e[5..] == t;
    } else if ch == '<' {
      assert e[1] == 'l' && e[4..] == t;
      assert "&lt;" <= e;
    } else if ch == '>' {
      assert e[1] == 'g' && e[4..] == t;
      assert "&gt;" <= e;
    } else if ch == '"' {
      assert e[1] == 'q' && e[6..] == t;
      assert "&quot;" <= e;
    } else {
      assert e[1] == '#' && e[5..] == t;
      assert "&#39;" <= e;
    }
  }

  /** Escaping is lossless: decoding the five entities gives back the input. */
  lemma {:induction false} UnescapeEscapeHtml(s: string)
    ensures Unescape(EscapeHtml(s)) == s
  {
    EscapeHtmlIsPerChar(s);
    UnescapeEscapeEach(s);
  }

  lemma {:induction false} UnescapeEscapeEach(s: string)
    ensures Unescape(EscapeEach(s)) == s
  {
    if s != [] {
      UnescapeAfterChar(s[0], EscapeEach(s[1..]));
      UnescapeEscapeEach(s[1..]);
    }
  }
}
