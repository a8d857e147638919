/**
 * Telegram HTML formatting: escaping the four characters HTML reserves, and
 * splitting a long message into chunks Telegram accepts, preferring to cut at
 * a line break, then at a space, else at the length limit.
 */
module TelegramHtml {
  import Text

  // ----- escaping -------------------------------------------------------------------

  /** `s.replace(c, rep)` for a one-character pattern. */
  function Replace(s: string, c: char, rep: string): (r: string)
    ensures c !in rep ==> c !in r
  {
    if s == [] then [] else (if s[0] == c then rep else [s[0]]) + Replace(s[1..], c, rep)
  }

  lemma {:induction false} ReplaceAppend(a: string, b: string, c: char, rep: string)
    ensures Replace(a + b, c, rep) == Replace(a, c, rep) + Replace(b, c, rep)
  {
    if a == [] {
      assert a + b == b;
    } else {
      assert (a + b)[1..] == a[1..] + b;
      ReplaceAppend(a[1..], b, c, rep);
    }
  }

  /** A character `escape_html` leaves as it is. */
  predicate PlainHtmlChar(c: char) {
    c != '&' && c != '<' && c != '>' && c != '"'
  }

  /** `escape_html`: the replace chain, `&` first. */
  function EscapeHtml(text: string): string {
    Replace(Replace(Replace(Replace(text, '&', "&amp;"), '<', "&lt;"), '>', "&gt;"), '"', "&quot;")
  }

  /** What `escape_html` turns one character into. */
  function EscapeHtmlChar(c: char): (r: string)
    ensures PlainHtmlChar(c) ==> r == [c]
    ensures '<' !in r && '>' !in r && '"' !in r
  {
    if c == '&' then "&amp;" else if c == '<' then "&lt;" else if c == '>' then "&gt;" else if c == '"' then "&quot;" else [c]
  }

  lemma ReplaceAbsent(s: string, c: char, rep: string)
    requires c !in s
    ensures Replace(s, c, rep) == s
  {
    if s != [] {
      assert c !in s[1..];
      ReplaceAbsent(s[1..], c, rep);
    }
  }

  lemma ReplaceOne(x: char, c: char, rep: string)
    ensures Replace([x], c, rep) == if x == c then rep else [x]
  {
    assert [x][1..] == [];
  }

  lemma EscapeHtmlOneChar(c: char)
    ensures EscapeHtml([c]) == EscapeHtmlChar(c)
  {
    ReplaceOne(c, '&', "&amp;");
    if c == '&' {
      LaterReplacesKeep("&amp;");
    } else {
      ReplaceOne(c, '<', "&lt;");
      if c == '<' {
        LaterReplacesKeep("&lt;");
      } else {
        ReplaceOne(c, '>', "&gt;");
        if c == '>' {
          ReplaceAbsent("&gt;", '"', "&quot;");
        } else {
          ReplaceOne(c, '"', "&quot;");
        }
      }
    }
  }

  /** The replacements after `&` leave a text without `<`, `>` and `"` alone. */
  lemma LaterReplacesKeep(s: string)
    requires '<' !in s && '>' !in s && '"' !in s
    ensures Replace(Replace(Replace(s, '<', "&lt;"), '>', "&gt;"), '"', "&quot;") == s
    ensures Replace(Replace(s, '>', "&gt;"), '"', "&quot;") == s
  {
    ReplaceAbsent(s, '<', "&lt;");
    ReplaceAbsent(s, '>', "&gt;");
    ReplaceAbsent(s, '"', "&quot;");
  }

  /** The chain escapes character by character: each character in turn, nothing else. */
  lemma {:induction false} EscapeHtmlCons(c: char, rest: string)
    ensures EscapeHtml([c] + rest) == EscapeHtmlChar(c) + EscapeHtml(rest)
  {
    var s1 := Replace([c], '&', "&amp;");
    var t1 := Replace(rest, '&', "&amp;");
    ReplaceAppend([c], rest, '&', "&amp;");
    ReplaceAppend(s1, t1, '<', "&lt;");
    var s2 := Replace(s1, '<', "&lt;");
    var t2 := Replace(t1, '<', "&lt;");
    ReplaceAppend(s2, t2, '>', "&gt;");
    ReplaceAppend(Replace(s2, '>', "&gt;"), Replace(t2, '>', "&gt;"), '"', "&quot;");
    EscapeHtmlOneChar(c);
  }

  /** No raw `<`, `>` or `"` survives escaping. */
  lemma {:induction false} EscapeHtmlSafe(text: string)
    ensures '<' !in EscapeHtml(text) && '>' !in EscapeHtml(text) && '"' !in EscapeHtml(text)
    decreases |text|
  {
    if text != [] {
      assert text == [text[0]] + text[1..];
      EscapeHtmlCons(text[0], text[1..]);
      EscapeHtmlSafe(text[1..]);
    }
  }

  /** Decoding the four entities back, left to right. */
  function UnescapeHtml(s: string): string
    decreases |s|
  {
    if s == [] then []
    else if |s| >= 5 && s[..5] == "&amp;" then "&" + UnescapeHtml(s[5..])
    else if |s| >= 4 && s[..4] == "&lt;" then "<" + UnescapeHtml(s[4..])
    else if |s| >= 4 && s[..4] == "&gt;" then ">" + UnescapeHtml(s[4..])
    else if |s| >= 6 && s[..6] == "&quot;" then "\"" + UnescapeHtml(s[6..])
    else [s[0]] + UnescapeHtml(s[1..])
  }

  /** Escaping loses nothing: decoding the entities gives the text back. Had `&` been
      replaced after the others, `<` would come back as `&lt;`. */
  lemma {:induction false} UnescapeEscapeHtml(text: string)
    ensures UnescapeHtml(EscapeHtml(text)) == text
    decreases |text|
  {
    if text != [] {
      var c, rest := text[0], text[1..];
      assert text == [c] + rest;
      EscapeHtmlCons(c, rest);
      UnescapeEscapeHtml(rest);
      UnescapeEscapedChar(c, EscapeHtml(rest));
    }
  }

  /** Decoding reads an escaped character back, whatever follows it. */
  lemma UnescapeEscapedChar(c: char, t: string)
    ensures UnescapeHtml(EscapeHtmlChar(c) + t) == [c] + UnescapeHtml(t)
  {
    if c == '&' {
      UnescapeAmp(t);
    } else if c == '<' {
      UnescapeEntity("&lt;" + t, "&lt;", t);
    } else if c == '>' {
      UnescapeEntity("&gt;" + t, "&gt;", t);
    } else if c == '"' {
      UnescapeQuot(t);
    } else {
      UnescapePlain(c, t);
    }
  }

  lemma UnescapeAmp(t: string)
    ensures UnescapeHtml("&amp;" + t) == "&" + UnescapeHtml(t)
  {
    var e := "&amp;" + t;
    assert e[..5] == "&amp;" && e[5..] == t;
  }

  lemma UnescapeEntity(e: string, entity: string, t: string)
    requires entity == "&lt;" || entity == "&gt;"
    requires e == entity + t
    ensures UnescapeHtml(e) == (if entity == "&lt;" then "<" else ">") + UnescapeHtml(t)
  {
    assert e[1] == entity[1] && e[..4] == entity && e[4..] == t;
    assert |e| >= 5 ==> e[..5][1] != "&amp;"[1];
  }

  lemma UnescapeQuot(t: string)
    ensures UnescapeHtml("&quot;" + t) == "\"" + UnescapeHtml(t)
  {
    var e := "&quot;" + t;
    assert e[..6] == "&quot;" && e[6..] == t;
    assert e[..5][1] != "&amp;"[1] && e[..4][1] != "&lt;"[1] && e[..4][1] != "&gt;"[1];
  }

  lemma UnescapePlain(c: char, t: string)
    requires PlainHtmlChar(c)
    ensures UnescapeHtml([c] + t) == [c] + UnescapeHtml(t)
  {
    var e := [c] + t;
    assert e[0] == c && e[1..] == t;
    assert |e| >= 5 ==> e[..5][0] != "&amp;"[0];
    assert |e| >= 4 ==> e[..4][0] != "&lt;"[0] && e[..4][0] != "&gt;"[0];
    assert |e| >= 6 ==> e[..6][0] != "&quot;"[0];
  }

  // ----- splitting --------------------------------------------------------------------

  /** `s.rfind(c, lo, hi)`: the last index of `c` in `s[lo..hi]`, or -1. */
  function RFind(s: string, c: char, lo: nat, hi: nat): (r: int)
    requires lo <= hi <= |s|
    ensures r == -1 || lo <= r < hi
    ensures r == -1 ==> forall k :: lo <= k < hi ==> s[k] != c
    ensures r != -1 ==> s[r] == c && forall k :: r < k < hi ==> s[k] != c
    decreases hi - lo
  {
    if lo == hi then -1 else if s[hi - 1] == c then hi - 1 else RFind(s, c, lo, hi - 1)
  }

  /** A character dropped at a cut. */
  predicate IsCutSpace(c: char) {
    c == '\n' || c == ' '
  }

  /** Where the chunk starting at `pos` ends. */
  function BreakAt(text: string, pos: nat, max: nat): (b: nat)
    requires max >= 1 && pos + max < |text|
    ensures pos < b <= pos + max
  {
    var newline := RFind(text, '\n', pos, pos + max);
    var space := if newline == -1 || newline == pos then RFind(text, ' ', pos, pos + max) else newline;
    if space == -1 || space == pos then pos + max else space
  }

  /** The cut is at the last line break inside the window after `pos`, else at the last
      space there, else at the end of the window. */
  lemma BreakAtPreference(text: string, pos: nat, max: nat)
    requires max >= 1 && pos + max < |text|
    ensures var b := BreakAt(text, pos, max);
      ((exists k :: pos < k < pos + max && text[k] == '\n') ==>
         text[b] == '\n' && forall k :: b < k < pos + max ==> text[k] != '\n')
      && ((forall k :: pos < k < pos + max ==> text[k] != '\n') && (exists k :: pos < k < pos + max && text[k] == ' ') ==>
         text[b] == ' ' && forall k :: b < k < pos + max ==> text[k] != ' ')
      && ((forall k :: pos < k < pos + max ==> text[k] != '\n' && text[k] != ' ') ==> b == pos + max)
  {
  }

  /** Text, chunks, and at most one line break or space dropped after each chunk. */
  predicate Rebuilds(chunks: seq<string>, t: string)
    decreases |chunks|
  {
    if chunks == [] then t == []
    else
      var c := chunks[0];
      |c| <= |t| && t[..|c|] == c &&
      (Rebuilds(chunks[1..], t[|c|..]) || (|c| < |t| && IsCutSpace(t[|c|]) && Rebuilds(chunks[1..], t[|c| + 1..])))
  }

  /** The chunks the splitting loop produces from position `pos` on. */
  function ChunksFrom(text: string, pos: nat, max: nat): seq<string>
    requires max >= 1 && pos <= |text|
    decreases |text| - pos
  {
    if pos == |text| then []
    else if pos + max >= |text| then [text[pos..]]
    else
      var b := BreakAt(text, pos, max);
      [text[pos..b]] + ChunksFrom(text, b + (if IsCutSpace(text[b]) then 1 else 0), max)
  }

  /** Every chunk is non-empty and at most `max` long. */
  lemma {:induction false} ChunksFromBounded(text: string, pos: nat, max: nat)
    requires max >= 1 && pos <= |text|
    ensures forall k :: 0 <= k < |ChunksFrom(text, pos, max)| ==> 0 < |ChunksFrom(text, pos, max)[k]| <= max
    decreases |text| - pos
  {
    if pos < |text| && pos + max < |text| {
      var b := BreakAt(text, pos, max);
      ChunksFromBounded(text, b + (if IsCutSpace(text[b]) then 1 else 0), max);
    }
  }

  /** The chunks, with one line break or space put back at some cuts, are the text. */
  lemma {:induction false} ChunksFromRebuilds(text: string, pos: nat, max: nat)
    requires max >= 1 && pos <= |text|
    ensures Rebuilds(ChunksFrom(text, pos, max), text[pos..])
    decreases |text| - pos
  {
    if pos == |text| {
    } else if pos + max >= |text| {
      assert text[pos..][..|text[pos..]|] == text[pos..];
      assert [text[pos..]][1..] == [];
    } else {
      var b := BreakAt(text, pos, max);
      var next := b + (if IsCutSpace(text[b]) then 1 else 0);
      ChunksFromRebuilds(text, next, max);
      RebuildsCut(text, pos, b, next, ChunksFrom(text, next, max));
    }
  }

  lemma ChunksFromStep(text: string, pos: nat, max: nat, b: nat, next: nat)
    requires max >= 1 && pos + max < |text|
    requires b == BreakAt(text, pos, max) && next == b + (if IsCutSpace(text[b]) then 1 else 0)
    ensures ChunksFrom(text, pos, max) == [text[pos..b]] + ChunksFrom(text, next, max)
  {
  }

  lemma RebuildsCut(text: string, pos: nat, b: nat, next: nat, rest: seq<string>)
    requires pos <= b < |text|
    requires next == b + (if IsCutSpace(text[b]) then 1 else 0)
    requires Rebuilds(rest, text[next..])
    ensures Rebuilds([text[pos..b]] + rest, text[pos..])
  {
    var t := text[pos..];
    assert t[..b - pos] == text[pos..b];
    assert t[b - pos..] == text[b..];
    assert t[b - pos + 1..] == text[b + 1..];
    assert ([text[pos..b]] + rest)[1..] == rest;
  }

  /** `split_long_html_message(text, max_length)`; a `max_length` below one never ends
      unless the text fits. */
  function SplitLong(text: string, maxLength: int): (chunks: seq<string>)
    requires maxLength >= 1 || |text| <= maxLength
    ensures |text| <= maxLength ==> chunks == [text]
    ensures |text| > maxLength ==> forall k :: 0 <= k < |chunks| ==> 0 < |chunks[k]| <= maxLength
    ensures Rebuilds(chunks, text)
  {
    if |text| <= maxLength then
      assert text[..|text|] == text && text[|text|..] == [];
      [text]
    else
      assert text[0..] == text;
      ChunksFromBounded(text, 0, maxLength);
      ChunksFromRebuilds(text, 0, maxLength);
      ChunksFrom(text, 0, maxLength)
  }

  /** The splitting loop of `split_long_html_message`. */
  method SplitLongHtmlMessage(text: string, maxLength: int) returns (chunks: seq<string>)
    requires maxLength >= 1 || |text| <= maxLength
    ensures chunks == SplitLong(text, maxLength)
  {
    if |text| <= maxLength {
      return [text];
    }
    var max: nat := maxLength;
    chunks := [];
    var pos := 0;
    while pos < |text|
      invariant 0 <= pos <= |text|
      invariant chunks + ChunksFrom(text, pos, max) == ChunksFrom(text, 0, max)
      decreases |text| - pos
    {
      var endPos := pos + max;
      if endPos >= |text| {
        assert ChunksFrom(text, pos, max) == [text[pos..]];
        chunks := chunks + [text[pos..]];
        break;
      }
      var safeBreak := RFind(text, '\n', pos, endPos);
      if safeBreak == -1 || safeBreak == pos {
        safeBreak := RFind(text, ' ', pos, endPos);
      }
      if safeBreak == -1 || safeBreak == pos {
        safeBreak := endPos;
      }
      assert safeBreak == BreakAt(text, pos, max);
      var next := safeBreak + (if text[safeBreak] == '\n' || text[safeBreak] == ' ' then 1 else 0);
      ChunksFromStep(text, pos, max, safeBreak, next);
      Text.AppendAssoc(chunks, [text[pos..safeBreak]], ChunksFrom(text, next, max));
      chunks := chunks + [text[pos..safeBreak]];
      pos := next;
    }
  }
}
