/**
 * Python string semantics the bot relies on: `str.lower`, `in`, `startswith`,
 * `strip`, `split`, `str(int)` and `int(str)`. Strings are sequences of
 * Unicode code points, as in Python.
 */
module Text {
  import opened Wrappers

  /** `c.lower()` for the Latin and the basic Cyrillic alphabets (А–Я, Ё). */
  function LowerChar(c: char): char {
    if 'A' <= c <= 'Z' then (c as int + 32) as char
    else if 'А' <= c <= 'Я' then (c as int + 32) as char
    else if c == 'Ё' then 'ё'
    else c
  }

  /** `s.lower()`: the same length, each character lowered. */
  function Lower(s: string): (r: string)
    ensures |r| == |s|
    ensures forall i :: 0 <= i < |s| ==> r[i] == LowerChar(s[i])
  {
    seq(|s|, i requires 0 <= i < |s| => LowerChar(s[i]))
  }

  /** `s.startswith(prefix)`. */
  predicate StartsWith(s: string, prefix: string) {
    |prefix| <= |s| && s[..|prefix|] == prefix
  }

  /** `sub` occurs in `s` at index `i`. */
  predicate OccursAt(s: string, sub: string, i: int) {
    0 <= i <= |s| - |sub| && s[i..i + |sub|] == sub
  }

  /** `sub in s`. */
  predicate Contains(s: string, sub: string) {
    exists i | 0 <= i <= |s| - |sub| :: OccursAt(s, sub, i)
  }

  lemma ContainsMiddle(a: string, b: string, c: string)
    ensures Contains(a + b + c, b)
  {
    var s := a + b + c;
    assert s[|a|..|a| + |b|] == b;
    assert OccursAt(s, b, |a|);
  }

  /** Concatenation regroups freely. */
  lemma AppendAssoc<T>(a: seq<T>, b: seq<T>, c: seq<T>)
    ensures (a + b) + c == a + (b + c)
  {
  }

  lemma ContainsSelf(s: string)
    ensures Contains(s, s)
  {
    assert OccursAt(s, s, 0);
  }

  lemma ContainsWithin(s: string, t: string, sub: string)
    requires Contains(t, sub)
    ensures Contains(s + t, sub) && Contains(t + s, sub)
  {
    var i :| 0 <= i <= |t| - |sub| && OccursAt(t, sub, i);
    assert (s + t)[|s| + i..|s| + i + |sub|] == sub;
    assert OccursAt(s + t, sub, |s| + i);
    assert (t + s)[i..i + |sub|] == sub;
    assert OccursAt(t + s, sub, i);
  }

  /** The characters Python's `str.strip()` removes. */
  predicate IsSpace(c: char) {
    c == ' ' || '\t' <= c <= '\r' || '\U{1C}' <= c <= '\U{1F}' || c == '\U{85}' || c == '\U{A0}'
    || c == '\U{1680}' || '\U{2000}' <= c <= '\U{200A}' || c == '\U{2028}' || c == '\U{2029}'
    || c == '\U{202F}' || c == '\U{205F}' || c == '\U{3000}'
  }

  function StripLeft(s: string): (r: string)
    ensures |r| <= |s| && r == s[|s| - |r|..]
    ensures r == [] || !IsSpace(r[0])
  {
    if |s| > 0 && IsSpace(s[0]) then StripLeft(s[1..]) else s
  }

  function StripRight(s: string): (r: string)
    ensures |r| <= |s| && r == s[..|r|]
    ensures r == [] || !IsSpace(r[|r| - 1])
  {
    if |s| > 0 && IsSpace(s[|s| - 1]) then StripRight(s[..|s| - 1]) else s
  }

  /** `s.strip()`. */
  function Strip(s: string): string {
    StripRight(StripLeft(s))
  }

  /** The number of occurrences of `c` in `s`. */
  function Count(s: string, c: char): nat {
    if s == [] then 0 else (if s[0] == c then 1 else 0) + Count(s[1..], c)
  }

  lemma CountNotIn(s: string, c: char)
    requires c !in s
    ensures Count(s, c) == 0
  {
    if s != [] {
      assert c !in s[1..];
      CountNotIn(s[1..], c);
    }
  }

  lemma CountAppend(a: string, b: string, c: char)
    ensures Count(a + b, c) == Count(a, c) + Count(b, c)
  {
    if a == [] {
      assert a + b == b;
    } else {
      assert (a + b)[1..] == a[1..] + b;
      CountAppend(a[1..], b, c);
    }
  }

  /** `s.find(c)` as an optional index: the first occurrence of `c`. */
  function IndexOf(s: string, c: char): (r: Option<nat>)
    ensures r.Some? ==> r.value < |s| && s[r.value] == c && c !in s[..r.value]
    ensures r.None? <==> c !in s
  {
    if s == [] then None
    else if s[0] == c then Some(0)
    else match IndexOf(s[1..], c)
      case None => None
      case Some(i) =>
        assert s[..i + 1] == [s[0]] + s[1..][..i];
        Some(i + 1)
  }

  /** `sep.join(parts)` for a one-character separator. */
  function Join(parts: seq<string>, sep: char): string {
    if |parts| == 0 then ""
    else if |parts| == 1 then parts[0]
    else parts[0] + [sep] + Join(parts[1..], sep)
  }

  /** `s.split(sep)` for a one-character separator: never empty, no piece holds `sep`. */
  function Split(s: string, sep: char): (parts: seq<string>)
    ensures |parts| >= 1
    ensures forall k :: 0 <= k < |parts| ==> sep !in parts[k]
    decreases |s|
  {
    match IndexOf(s, sep)
    case None => [s]
    case Some(i) => [s[..i]] + Split(s[i + 1..], sep)
  }

  lemma {:induction false} JoinSplit(s: string, sep: char)
    ensures Join(Split(s, sep), sep) == s
    decreases |s|
  {
    match IndexOf(s, sep)
    case None =>
    case Some(i) =>
      JoinSplit(s[i + 1..], sep);
      var rest := Split(s[i + 1..], sep);
      assert Split(s, sep)[1..] == rest;
      assert s == s[..i] + [sep] + s[i + 1..];
  }

  /** `s.split(sep, maxsplit)`: at most `maxsplit` cuts, the last piece keeps the rest. */
  function SplitN(s: string, sep: char, maxsplit: nat): (parts: seq<string>)
    ensures 1 <= |parts| <= maxsplit + 1
    decreases maxsplit
  {
    if maxsplit == 0 then [s]
    else match IndexOf(s, sep)
      case None => [s]
      case Some(i) => [s[..i]] + SplitN(s[i + 1..], sep, maxsplit - 1)
  }

  /** Only the last piece of `split(sep, maxsplit)` can hold `sep`. */
  lemma {:induction false} SplitNPieces(s: string, sep: char, maxsplit: nat)
    ensures forall k :: 0 <= k < |SplitN(s, sep, maxsplit)| - 1 ==> sep !in SplitN(s, sep, maxsplit)[k]
    decreases maxsplit
  {
    if maxsplit > 0 && IndexOf(s, sep).Some? {
      var i := IndexOf(s, sep).value;
      var m: nat := maxsplit - 1;
      SplitNPieces(s[i + 1..], sep, m);
      SplitNCons(s, sep, m, i);
      PiecesCons(s[..i], SplitN(s[i + 1..], sep, m), sep);
    }
  }

  lemma PiecesCons(first: string, rest: seq<string>, sep: char)
    requires sep !in first
    requires forall k :: 0 <= k < |rest| - 1 ==> sep !in rest[k]
    ensures forall k :: 0 <= k < |[first] + rest| - 1 ==> sep !in ([first] + rest)[k]
  {
    forall k | 0 <= k < |[first] + rest| - 1 ensures sep !in ([first] + rest)[k] {
      if k > 0 {
        assert ([first] + rest)[k] == rest[k - 1];
      }
    }
  }

  lemma JoinCons(head: string, rest: seq<string>, sep: char)
    requires |rest| >= 1
    ensures Join([head] + rest, sep) == head + [sep] + Join(rest, sep)
  {
    assert ([head] + rest)[1..] == rest;
  }

  lemma {:induction false} JoinSplitN(s: string, sep: char, maxsplit: nat)
    ensures Join(SplitN(s, sep, maxsplit), sep) == s
    decreases maxsplit
  {
    if maxsplit > 0 && IndexOf(s, sep).Some? {
      var i := IndexOf(s, sep).value;
      var m: nat := maxsplit - 1;
      JoinSplitN(s[i + 1..], sep, m);
      SplitNCons(s, sep, m, i);
      JoinAround(s, i, sep, SplitN(s[i + 1..], sep, m));
    } else {
      assert SplitN(s, sep, maxsplit) == [s];
    }
  }

  /** One cut of `split(sep, maxsplit)`: the piece before the first separator, then the rest
      split once less. */
  lemma SplitNCons(s: string, sep: char, m: nat, i: nat)
    requires IndexOf(s, sep) == Some(i)
    ensures i < |s| && SplitN(s, sep, m + 1) == [s[..i]] + SplitN(s[i + 1..], sep, m)
  {
  }

  /** Joining the piece before a separator with pieces that join to the text after it gives
      the whole text. */
  lemma JoinAround(s: string, i: nat, sep: char, rest: seq<string>)
    requires i < |s| && s[i] == sep && |rest| >= 1 && Join(rest, sep) == s[i + 1..]
    ensures Join([s[..i]] + rest, sep) == s
  {
    JoinCons(s[..i], rest, sep);
    assert s == s[..i] + [sep] + s[i + 1..];
  }

  /** `s.split(sep, maxsplit)` cuts exactly min(occurrences, maxsplit) times. */
  lemma {:induction false} SplitNLength(s: string, sep: char, maxsplit: nat)
    ensures |SplitN(s, sep, maxsplit)| == (if Count(s, sep) < maxsplit then Count(s, sep) else maxsplit) + 1
    decreases maxsplit, 1
  {
    if maxsplit > 0 && IndexOf(s, sep).Some? {
      SplitNLengthCut(s, sep, maxsplit - 1, IndexOf(s, sep).value);
    } else if maxsplit > 0 {
      CountNotIn(s, sep);
    }
  }

  lemma {:induction false} SplitNLengthCut(s: string, sep: char, m: nat, i: nat)
    requires IndexOf(s, sep) == Some(i)
    ensures |SplitN(s, sep, m + 1)| == (if Count(s, sep) < m + 1 then Count(s, sep) else m + 1) + 1
    decreases m + 1, 0
  {
    SplitNLength(s[i + 1..], sep, m);
    SplitNCons(s, sep, m, i);
    CountAround(s, i, sep);
  }

  /** The first separator of a text counts once, before the rest of the text. */
  lemma CountAround(s: string, i: nat, sep: char)
    requires IndexOf(s, sep) == Some(i)
    ensures i < |s| && Count(s, sep) == Count(s[i + 1..], sep) + 1
  {
    assert s == s[..i] + ([sep] + s[i + 1..]);
    CountAppend(s[..i], [sep] + s[i + 1..], sep);
    CountNotIn(s[..i], sep);
    assert ([sep] + s[i + 1..])[1..] == s[i + 1..];
  }

  /** The decimal digit `d` as a character. */
  function DigitChar(d: nat): (c: char)
    requires d < 10
    ensures '0' <= c <= '9'
  {
    (d + '0' as int) as char
  }

  /** `str(n)` for a natural number: decimal digits, no leading zero. */
  function NatToString(n: nat): (r: string)
    ensures |r| >= 1 && (|r| > 1 ==> r[0] != '0')
    ensures forall k :: 0 <= k < |r| ==> '0' <= r[k] <= '9'
    decreases n
  {
    if n < 10 then [DigitChar(n)] else NatToString(n / 10) + [DigitChar(n % 10)]
  }

  /** `str(i)` for an integer. */
  function IntToString(i: int): string {
    if i < 0 then "-" + NatToString(-i) else NatToString(i)
  }

  /** The value of a non-empty run of decimal digits. */
  function DigitsValue(s: string): nat
    requires forall k :: 0 <= k < |s| ==> '0' <= s[k] <= '9'
    decreases |s|
  {
    if s == [] then 0 else DigitsValue(s[..|s| - 1]) * 10 + (s[|s| - 1] as int - '0' as int)
  }

  predicate AllDigits(s: string) {
    |s| > 0 && forall k :: 0 <= k < |s| ==> '0' <= s[k] <= '9'
  }

  /** `int(s)` on text without surrounding blanks: an optional sign and decimal digits. */
  function ParseInt(s: string): Option<int> {
    if |s| > 0 && (s[0] == '-' || s[0] == '+') then
      if AllDigits(s[1..]) then
        var v: int := DigitsValue(s[1..]);
        Some(if s[0] == '-' then -v else v)
      else None
    else if AllDigits(s) then Some(DigitsValue(s))
    else None
  }

  lemma {:induction false} DigitsOfNat(n: nat)
    ensures AllDigits(NatToString(n)) && DigitsValue(NatToString(n)) == n
    decreases n
  {
    var r := NatToString(n);
    if n >= 10 {
      DigitsOfNat(n / 10);
      assert r[..|r| - 1] == NatToString(n / 10);
    }
  }

  /** Reading back what `str(i)` printed gives `i`. */
  lemma ParseIntToString(i: int)
    ensures ParseInt(IntToString(i)) == Some(i)
  {
    var s := IntToString(i);
    if i < 0 {
      var n: nat := -i;
      DigitsOfNat(n);
      assert s[1..] == NatToString(n);
    } else {
      var n: nat := i;
      DigitsOfNat(n);
      assert s == NatToString(n);
    }
  }
}
