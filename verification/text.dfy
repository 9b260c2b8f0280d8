/** Character and string primitives shared by the calendar scripts: the
    whitespace set of Python's `str.isspace` (also what the regex class `\s`
    and `str.strip()` use), ASCII case folding, substring search, splitting
    and prefix truncation. */
module Text {

  /** The characters for which Python's `str.isspace()` is true. */
  predicate IsSpace(c: char) {
    || ('\t' <= c <= '\r')
    || ('\U{1C}' <= c <= ' ')
    || c == '\U{85}' || c == '\U{A0}' || c == '\U{1680}'
    || ('\U{2000}' <= c <= '\U{200A}')
    || c == '\U{2028}' || c == '\U{2029}' || c == '\U{202F}' || c == '\U{205F}' || c == '\U{3000}'
  }

  predicate IsDigit(c: char) {
    '0' <= c <= '9'
  }

  function DigitValue(c: char): (r: nat)
    requires IsDigit(c)
    ensures r < 10
  {
    (c as int) - ('0' as int)
  }

  predicate IsUpper(c: char) {
    'A' <= c <= 'Z'
  }

  predicate IsLowerLetter(c: char) {
    'a' <= c <= 'z'
  }

  predicate IsLetter(c: char) {
    IsUpper(c) || IsLowerLetter(c)
  }

  function LowerChar(c: char): char {
    if IsUpper(c) then (c as int + 32) as char else c
  }

  function UpperChar(c: char): char {
    if IsLowerLetter(c) then (c as int - 32) as char else c
  }

  /** `s.lower()` restricted to ASCII letters. */
  function Lower(s: string): (r: string)
    ensures |r| == |s|
    ensures forall i :: 0 <= i < |s| ==> r[i] == LowerChar(s[i])
  {
    if |s| == 0 then "" else [LowerChar(s[0])] + Lower(s[1..])
  }

  predicate IsPrefix(p: string, s: string) {
    |p| <= |s| && s[..|p|] == p
  }

  predicate EndsWith(s: string, c: char) {
    |s| > 0 && s[|s| - 1] == c
  }

  /** There is an occurrence of `sub` that starts at index `i` of `s`. */
  predicate OccursAt(s: string, sub: string, i: int) {
    0 <= i && i + |sub| <= |s| && s[i..i + |sub|] == sub
  }

  /** Python's `sub in s`. */
  predicate Contains(s: string, sub: string) {
    exists i :: 0 <= i <= |s| - |sub| && OccursAt(s, sub, i)
  }

  /** A substring of a substring is a substring. */
  lemma ContainsTransitive(a: string, b: string, c: string)
    requires Contains(a, b) && Contains(b, c)
    ensures Contains(a, c)
  {
    var i :| 0 <= i <= |a| - |b| && OccursAt(a, b, i);
    var j :| 0 <= j <= |b| - |c| && OccursAt(b, c, j);
    forall k | 0 <= k < |c|
      ensures a[i + j..i + j + |c|][k] == c[k]
    {
      assert a[i + j + k] == a[i..i + |b|][j + k] == b[j..j + |c|][k];
    }
    assert OccursAt(a, c, i + j);
    assert 0 <= i + j <= |a| - |c|;
  }

  /** An occurrence survives any extension on either side. */
  lemma ContainsInConcat(x: string, y: string, z: string)
    ensures Contains(x + y + z, y)
  {
    assert (x + y + z)[|x|..|x| + |y|] == y;
    assert OccursAt(x + y + z, y, |x|);
    assert 0 <= |x| <= |x + y + z| - |y|;
  }

  /** `s.encode('ascii', 'ignore').decode('ascii')`: the characters below 128, in order. */
  function AsciiOnly(s: string): (r: string)
    ensures |r| <= |s|
    ensures forall i :: 0 <= i < |r| ==> r[i] < '\U{80}'
    ensures (forall i :: 0 <= i < |s| ==> s[i] < '\U{80}') ==> r == s
    ensures multiset(r) <= multiset(s)
    ensures forall c :: c < '\U{80}' ==> multiset(r)[c] == multiset(s)[c]
  {
    if |s| == 0 then ""
    else
      assert s == [s[0]] + s[1..];
      if s[0] < '\U{80}' then [s[0]] + AsciiOnly(s[1..]) else AsciiOnly(s[1..])
  }

  /** The filter works character by character: filtering a concatenation
      filters each part, so the kept characters stay in order. */
  lemma {:induction false} AsciiOnlyAppend(a: string, b: string)
    ensures AsciiOnly(a + b) == AsciiOnly(a) + AsciiOnly(b)
  {
    if |a| > 0 {
      assert (a + b)[0] == a[0] && (a + b)[1..] == a[1..] + b;
      AsciiOnlyAppend(a[1..], b);
    } else {
      assert a + b == b;
    }
  }

  /** `s[:n]` */
  function Take(s: string, n: nat): (r: string)
    ensures |r| <= n && IsPrefix(r, s)
    ensures |s| <= n ==> r == s
    ensures |s| > n ==> |r| == n
  {
    if |s| <= n then s else s[..n]
  }

  function LStrip(s: string): (r: string)
    ensures |r| <= |s| && r == s[|s| - |r|..]
    ensures forall i :: 0 <= i < |s| - |r| ==> IsSpace(s[i])
    ensures r == [] || !IsSpace(r[0])
  {
    if |s| > 0 && IsSpace(s[0]) then LStrip(s[1..]) else s
  }

  function RStrip(s: string): (r: string)
    ensures |r| <= |s| && r == s[..|r|]
    ensures forall i :: |r| <= i < |s| ==> IsSpace(s[i])
    ensures r == [] || !IsSpace(r[|r| - 1])
  {
    if |s| > 0 && IsSpace(s[|s| - 1]) then RStrip(s[..|s| - 1]) else s
  }

  /** `r` is the slice of `s` starting at `i` with only whitespace around it. */
  predicate SpaceAround(s: string, r: string, i: int) {
    && 0 <= i <= i + |r| <= |s| && r == s[i..i + |r|]
    && (forall k :: 0 <= k < i ==> IsSpace(s[k]))
    && (forall k :: i + |r| <= k < |s| ==> IsSpace(s[k]))
  }

  /** `s.strip()`: the slice left after removing whitespace from both ends. */
  function Strip(s: string): (r: string)
    ensures exists i :: SpaceAround(s, r, i)
    ensures r == [] || (!IsSpace(r[0]) && !IsSpace(r[|r| - 1]))
  {
    var l := LStrip(s);
    var r := RStrip(l);
    assert r == s[|s| - |l|..|s| - |l| + |r|];
    assert SpaceAround(s, r, |s| - |l|);
    r
  }

  /** A string without whitespace at either end is left alone by `strip()`. */
  lemma StripStable(s: string)
    requires s == [] || (!IsSpace(s[0]) && !IsSpace(s[|s| - 1]))
    ensures Strip(s) == s
  {
    var r := Strip(s);
    var i :| SpaceAround(s, r, i);
    if s != [] {
      assert i == 0;
      assert i + |r| == |s|;
    }
  }

  /** Whether `strip()` leaves nothing, i.e. the string is whitespace only. */
  predicate IsBlank(s: string) {
    Strip(s) == ""
  }

  lemma BlankIffAllSpace(s: string)
    ensures IsBlank(s) <==> forall k :: 0 <= k < |s| ==> IsSpace(s[k])
  {
    var r := Strip(s);
    var i :| SpaceAround(s, r, i);
    if r != "" {
      assert !IsSpace(s[i]);
    }
  }

  /** Number of occurrences of the character `c` in `s`. */
  function CountChar(s: string, c: char): nat {
    if |s| == 0 then 0 else (if s[0] == c then 1 else 0) + CountChar(s[1..], c)
  }

  /** Index of the first `c` in `s`, or `|s|` when there is none. */
  function IndexOf(s: string, c: char): (r: nat)
    ensures r <= |s|
    ensures forall k :: 0 <= k < r ==> s[k] != c
    ensures r < |s| ==> s[r] == c
  {
    if |s| == 0 then 0 else if s[0] == c then 0 else 1 + IndexOf(s[1..], c)
  }

  /** `s.split(sep)` for a one-character separator. */
  function Split(s: string, sep: char): (r: seq<string>)
    ensures |r| == CountChar(s, sep) + 1
    ensures forall k :: 0 <= k < |r| ==> sep !in r[k]
    decreases |s|
  {
    var i := IndexOf(s, sep);
    if i == |s| then
      CountNone(s, sep);
      [s]
    else
      CountAround(s, sep, i);
      [s[..i]] + Split(s[i + 1..], sep)
  }

  /** `sep.join(parts)` */
  function Join(parts: seq<string>, sep: char): string {
    if |parts| == 0 then ""
    else if |parts| == 1 then parts[0]
    else parts[0] + [sep] + Join(parts[1..], sep)
  }

  /** Splitting and re-joining on the same separator gives back the input. */
  lemma {:induction false} JoinSplit(s: string, sep: char)
    ensures Join(Split(s, sep), sep) == s
    decreases |s|
  {
    var i := IndexOf(s, sep);
    if i < |s| {
      var head, tail := s[..i], s[i + 1..];
      var rest := Split(tail, sep);
      JoinSplit(tail, sep);
      var parts := [head] + rest;
      assert Split(s, sep) == parts;
      assert |parts| >= 2 && parts[1..] == rest && parts[0] == head;
      assert Join(parts, sep) == head + [sep] + Join(rest, sep);
      assert s == head + [sep] + tail;
    }
  }

  lemma {:induction false} CountNone(s: string, c: char)
    requires forall k :: 0 <= k < |s| ==> s[k] != c
    ensures CountChar(s, c) == 0
  {
    if |s| > 0 {
      CountNone(s[1..], c);
    }
  }

  lemma {:induction false} CountAround(s: string, c: char, i: nat)
    requires i < |s| && s[i] == c
    requires forall k :: 0 <= k < i ==> s[k] != c
    ensures CountChar(s, c) == 1 + CountChar(s[i + 1..], c)
  {
    if i > 0 {
      CountAround(s[1..], c, i - 1);
      assert s[1..][i..] == s[i + 1..];
    }
  }

  /** `s.split(c)[0]`: everything before the first `c`. */
  function Before(s: string, c: char): (r: string)
    ensures IsPrefix(r, s) && c !in r
    ensures |r| < |s| ==> s[|r|] == c
  {
    s[..IndexOf(s, c)]
  }

  /** The first piece of a split is what comes before the first separator. */
  lemma FirstPiece(s: string, c: char)
    ensures Split(s, c)[0] == Before(s, c)
  {
  }

  /** `s.split(c, 1)[1]`: everything after the first `c` (empty when there is none). */
  function After(s: string, c: char): (r: string)
    ensures c in s ==> s == Before(s, c) + [c] + r
  {
    var i := IndexOf(s, c);
    if i < |s| then s[i + 1..] else ""
  }

  /** `s.title()` on ASCII: a letter is upper-cased when it does not follow a
      letter, and lower-cased when it does. */
  function TitleCase(s: string): (r: string)
    ensures |r| == |s|
    ensures forall i :: 0 <= i < |s| ==>
      r[i] == if i > 0 && IsLetter(s[i - 1]) then LowerChar(s[i]) else UpperChar(s[i])
  {
    TitleFrom(s, false)
  }

  /** Title-casing when the character before `s` was a letter
      (`afterLetter`) or not. */
  function TitleFrom(s: string, afterLetter: bool): (r: string)
    ensures |r| == |s|
    ensures forall i :: 0 <= i < |s| ==>
      r[i] == if (if i == 0 then afterLetter else IsLetter(s[i - 1])) then LowerChar(s[i]) else UpperChar(s[i])
  {
    if |s| == 0 then ""
    else
      var c := if afterLetter then LowerChar(s[0]) else UpperChar(s[0]);
      [c] + TitleFrom(s[1..], IsLetter(s[0]))
  }

  /** Title-casing changes only the case of letters: lower-casing undoes it. */
  lemma {:induction false} LowerTitle(s: string, afterLetter: bool)
    ensures Lower(TitleFrom(s, afterLetter)) == Lower(s)
  {
    if |s| > 0 {
      LowerTitle(s[1..], IsLetter(s[0]));
      var t := TitleFrom(s, afterLetter);
      assert t == [t[0]] + TitleFrom(s[1..], IsLetter(s[0]));
    }
  }
}
