/**
 * Telegram MarkdownV2: backslash-escaping the eighteen reserved characters and
 * splitting the escaped text with the long-message splitter.
 */
module TelegramMarkdown {
  import TelegramHtml

  /** The eighteen characters MarkdownV2 reserves: `_*[]()~`>#+-=|{}.!`. */
  predicate IsSpecial(c: char) {
    c == '_' || c == '*' || c == '[' || c == ']' || c == '(' || c == ')' || c == '~' || c == '`' || c == '>'
    || c == '#' || c == '+' || c == '-' || c == '=' || c == '|' || c == '{' || c == '}' || c == '.' || c == '!'
  }

  /** The number of reserved characters in `s`. */
  function CountSpecials(s: string): nat {
    if s == [] then 0 else (if IsSpecial(s[0]) then 1 else 0) + CountSpecials(s[1..])
  }

  /** `escape_markdown_v2`: a backslash before each reserved character, every other
      character copied; the first character of the result is never reserved. */
  function EscapeMarkdownV2(text: string): (r: string)
    ensures |r| == |text| + CountSpecials(text)
    ensures r == [] || !IsSpecial(r[0])
  {
    if text == [] then []
    else (if IsSpecial(text[0]) then ['\\', text[0]] else [text[0]]) + EscapeMarkdownV2(text[1..])
  }

  /** Escaping distributes over concatenation, so characters keep their order. */
  lemma {:induction false} EscapeAppend(a: string, b: string)
    ensures EscapeMarkdownV2(a + b) == EscapeMarkdownV2(a) + EscapeMarkdownV2(b)
  {
    if a == [] {
      assert a + b == b;
    } else {
      assert (a + b)[1..] == a[1..] + b;
      EscapeAppend(a[1..], b);
    }
  }

  /** Drops every backslash that stands right before a reserved character. */
  function UnescapeMarkdownV2(s: string): string
    decreases |s|
  {
    if s == [] then []
    else if |s| >= 2 && s[0] == '\\' && IsSpecial(s[1]) then [s[1]] + UnescapeMarkdownV2(s[2..])
    else [s[0]] + UnescapeMarkdownV2(s[1..])
  }

  /** Removing the inserted backslashes restores the text, backslashes of its own included. */
  lemma {:induction false} UnescapeEscape(text: string)
    ensures UnescapeMarkdownV2(EscapeMarkdownV2(text)) == text
    decreases |text|
  {
    if text != [] {
      var c, rest := text[0], text[1..];
      var e := EscapeMarkdownV2(text);
      UnescapeEscape(rest);
      if IsSpecial(c) {
        assert e[2..] == EscapeMarkdownV2(rest);
      } else {
        assert e[1..] == EscapeMarkdownV2(rest);
      }
      assert text == [c] + rest;
    }
  }

  /** In escaped text every reserved character follows a backslash. */
  predicate SpecialsEscaped(s: string) {
    forall i :: 0 <= i < |s| && IsSpecial(s[i]) ==> i > 0 && s[i - 1] == '\\'
  }

  lemma {:induction false} EscapedHasBackslashes(text: string)
    ensures SpecialsEscaped(EscapeMarkdownV2(text))
    decreases |text|
  {
    if text != [] {
      EscapedHasBackslashes(text[1..]);
      var head := if IsSpecial(text[0]) then ['\\', text[0]] else [text[0]];
      var tail := EscapeMarkdownV2(text[1..]);
      forall i | 0 <= i < |head + tail| && IsSpecial((head + tail)[i])
        ensures i > 0 && (head + tail)[i - 1] == '\\'
      {
        if i >= |head| {
          assert (head + tail)[i] == tail[i - |head|];
        }
      }
    }
  }

  /** `send_long_message_v2(text, max_length)`: the escaped text, split as by
      `split_long_html_message`. */
  function SendLongMessageV2(text: string, maxLength: int): (chunks: seq<string>)
    requires maxLength >= 1 || |EscapeMarkdownV2(text)| <= maxLength
    ensures |EscapeMarkdownV2(text)| <= maxLength ==> chunks == [EscapeMarkdownV2(text)]
    ensures |EscapeMarkdownV2(text)| > maxLength ==> forall k :: 0 <= k < |chunks| ==> 0 < |chunks[k]| <= maxLength
    ensures TelegramHtml.Rebuilds(chunks, EscapeMarkdownV2(text))
  {
    TelegramHtml.SplitLong(EscapeMarkdownV2(text), maxLength)
  }

  /** A hard cut can fall between an inserted backslash and its character: `".."` with
      a limit of 3 gives a chunk ending in a lone backslash and a chunk `"."` whose dot
      is not escaped. */
  lemma HardCutSplitsEscape()
    ensures SendLongMessageV2("..", 3) == ["\\.\\", "."]
    ensures !SpecialsEscaped(SendLongMessageV2("..", 3)[1])
  {
    var e := EscapeMarkdownV2("..");
    assert e == "\\.\\.";
    assert TelegramHtml.RFind(e, '\n', 0, 3) == -1;
    assert TelegramHtml.RFind(e, ' ', 0, 3) == -1;
    assert TelegramHtml.BreakAt(e, 0, 3) == 3;
    assert e[0..3] == "\\.\\" && e[3..] == ".";
    assert TelegramHtml.ChunksFrom(e, 3, 3) == ["."];
    assert IsSpecial('.');
  }

  // ----- a splitter that keeps each escape pair together --------------------------------

  /** The cut of `BreakAt`, moved back by one when a hard cut would separate a
      backslash from the reserved character it escapes. */
  function PairSafeBreakAt(text: string, pos: nat, max: nat): (b: nat)
    requires max >= 2 && pos + max < |text|
    ensures pos < b <= pos + max
  {
    var b := TelegramHtml.BreakAt(text, pos, max);
    if text[b - 1] == '\\' && IsSpecial(text[b]) && b == pos + max then b - 1 else b
  }

  /** The pair-safe cut never falls between a backslash and a reserved character. */
  lemma PairSafeBreakKeepsPair(text: string, pos: nat, max: nat)
    requires max >= 2 && pos + max < |text|
    ensures var b := PairSafeBreakAt(text, pos, max); !(text[b - 1] == '\\' && IsSpecial(text[b]))
  {
    var b := TelegramHtml.BreakAt(text, pos, max);
    TelegramHtml.BreakAtPreference(text, pos, max);
  }

  /** `ChunksFrom` with the pair-safe cut. */
  function PairSafeChunksFrom(text: string, pos: nat, max: nat): seq<string>
    requires max >= 2 && pos <= |text|
    decreases |text| - pos
  {
    if pos == |text| then []
    else if pos + max >= |text| then [text[pos..]]
    else
      var b := PairSafeBreakAt(text, pos, max);
      [text[pos..b]] + PairSafeChunksFrom(text, b + (if TelegramHtml.IsCutSpace(text[b]) then 1 else 0), max)
  }

  lemma PairSafeStep(text: string, pos: nat, max: nat, b: nat, next: nat)
    requires max >= 2 && pos + max < |text|
    requires b == PairSafeBreakAt(text, pos, max) && next == b + (if TelegramHtml.IsCutSpace(text[b]) then 1 else 0)
    ensures PairSafeChunksFrom(text, pos, max) == [text[pos..b]] + PairSafeChunksFrom(text, next, max)
  {
  }

  /** Every pair-safe chunk is non-empty and at most `max` long. */
  lemma {:induction false} PairSafeChunksBounded(text: string, pos: nat, max: nat)
    requires max >= 2 && pos <= |text|
    ensures forall k :: 0 <= k < |PairSafeChunksFrom(text, pos, max)| ==> 0 < |PairSafeChunksFrom(text, pos, max)[k]| <= max
    decreases |text| - pos
  {
    if pos < |text| && pos + max < |text| {
      var b := PairSafeBreakAt(text, pos, max);
      var next := b + (if TelegramHtml.IsCutSpace(text[b]) then 1 else 0);
      PairSafeStep(text, pos, max, b, next);
      PairSafeChunksBounded(text, next, max);
    }
  }

  /** The pair-safe chunks rebuild the text as the plain ones do. */
  lemma {:induction false} PairSafeChunksRebuild(text: string, pos: nat, max: nat)
    requires max >= 2 && pos <= |text|
    ensures TelegramHtml.Rebuilds(PairSafeChunksFrom(text, pos, max), text[pos..])
    decreases |text| - pos
  {
    if pos == |text| {
    } else if pos + max >= |text| {
      assert text[pos..][..|text[pos..]|] == text[pos..];
      assert [text[pos..]][1..] == [];
    } else {
      var b := PairSafeBreakAt(text, pos, max);
      var next := b + (if TelegramHtml.IsCutSpace(text[b]) then 1 else 0);
      var rest := PairSafeChunksFrom(text, next, max);
      PairSafeChunksRebuild(text, next, max);
      TelegramHtml.RebuildsCut(text, pos, b, next, rest);
      PairSafeStep(text, pos, max, b, next);
    }
  }

  /** Cutting escaped text with the pair-safe cut leaves every reserved character of every
      chunk after its backslash. */
  lemma {:induction false} PairSafeChunksEscaped(text: string, pos: nat, max: nat)
    requires max >= 2 && pos <= |text|
    requires SpecialsEscaped(text) && (pos < |text| ==> !IsSpecial(text[pos]))
    ensures forall k :: 0 <= k < |PairSafeChunksFrom(text, pos, max)| ==> SpecialsEscaped(PairSafeChunksFrom(text, pos, max)[k])
    decreases |text| - pos
  {
    if pos == |text| {
    } else if pos + max >= |text| {
      SliceEscaped(text, pos, |text|);
    } else {
      var b := PairSafeBreakAt(text, pos, max);
      var next := b + (if TelegramHtml.IsCutSpace(text[b]) then 1 else 0);
      SliceEscaped(text, pos, b);
      PairSafeStep(text, pos, max, b, next);
      NextNotSpecial(text, pos, max, b, next);
      PairSafeChunksEscaped(text, next, max);
      AllEscapedCons(text[pos..b], PairSafeChunksFrom(text, next, max));
    }
  }

  /** The next chunk does not start with a reserved character: the cut kept it with its backslash. */
  lemma NextNotSpecial(text: string, pos: nat, max: nat, b: nat, next: nat)
    requires max >= 2 && pos + max < |text| && SpecialsEscaped(text)
    requires b == PairSafeBreakAt(text, pos, max) && next == b + (if TelegramHtml.IsCutSpace(text[b]) then 1 else 0)
    ensures next < |text| ==> !IsSpecial(text[next])
  {
    PairSafeBreakKeepsPair(text, pos, max);
    if next < |text| {
      EscapedAt(text, next);
    }
  }

  lemma EscapedAt(text: string, i: nat)
    requires SpecialsEscaped(text) && i < |text|
    ensures IsSpecial(text[i]) ==> i > 0 && text[i - 1] == '\\'
  {
  }

  lemma AllEscapedCons(first: string, rest: seq<string>)
    requires SpecialsEscaped(first) && forall k :: 0 <= k < |rest| ==> SpecialsEscaped(rest[k])
    ensures forall k :: 0 <= k < |[first] + rest| ==> SpecialsEscaped(([first] + rest)[k])
  {
    forall k | 0 <= k < |[first] + rest| ensures SpecialsEscaped(([first] + rest)[k]) {
      if k > 0 {
        assert ([first] + rest)[k] == rest[k - 1];
      }
    }
  }

  lemma SliceEscaped(text: string, lo: nat, hi: nat)
    requires lo <= hi <= |text| && SpecialsEscaped(text) && (lo < |text| ==> !IsSpecial(text[lo]))
    ensures SpecialsEscaped(text[lo..hi])
  {
    var s := text[lo..hi];
    forall i | 0 <= i < |s| && IsSpecial(s[i]) ensures i > 0 && s[i - 1] == '\\' {
      assert s[i] == text[lo + i];
    }
  }

  /** `send_long_message_v2` with the pair-safe cut, for limits of two or more. */
  function SendLongMessageV2PairSafe(text: string, maxLength: int): (chunks: seq<string>)
    requires maxLength >= 2 || |EscapeMarkdownV2(text)| <= maxLength
    ensures |EscapeMarkdownV2(text)| <= maxLength ==> chunks == [EscapeMarkdownV2(text)]
    ensures |EscapeMarkdownV2(text)| > maxLength ==> forall k :: 0 <= k < |chunks| ==> 0 < |chunks[k]| <= maxLength
    ensures TelegramHtml.Rebuilds(chunks, EscapeMarkdownV2(text))
    ensures forall k :: 0 <= k < |chunks| ==> SpecialsEscaped(chunks[k])
  {
    var e := EscapeMarkdownV2(text);
    EscapedHasBackslashes(text);
    if |e| <= maxLength then
      assert e[..|e|] == e && e[|e|..] == [];
      [e]
    else
      assert e[0..] == e;
      PairSafeChunksBounded(e, 0, maxLength);
      PairSafeChunksRebuild(e, 0, maxLength);
      PairSafeChunksEscaped(e, 0, maxLength);
      PairSafeChunksFrom(e, 0, maxLength)
  }
}
