/** Explicit leftmost-match scanners standing in for the handful of regular
    expressions the scripts use (`re.search` returns the leftmost match, and
    every pattern here has at most one way to match at a given position), and
    the "last piece after a separator" idiom `s.split(sep)[-1]`. */
module Scan {
  import opened Wrappers
  import opened Text

  /** The least index `k` in `[from, n)` with `p(k)`, if there is one. */
  function Leftmost(p: nat -> bool, from: nat, n: nat): (r: Option<nat>)
    ensures r.Some? ==> from <= r.value < n && p(r.value)
    ensures r.Some? ==> forall k :: from <= k < r.value ==> !p(k)
    ensures r.None? ==> forall k :: from <= k < n ==> !p(k)
    decreases n - from
  {
    if from >= n then None
    else if p(from) then Some(from)
    else Leftmost(p, from + 1, n)
  }

  /** The longest run of characters starting at `g` that are not `stop`
      characters: what a greedy `[^...]+` consumes. */
  function RunFrom(s: string, g: nat, stop: char -> bool): (r: string)
    requires g <= |s|
    ensures g + |r| <= |s| && r == s[g..g + |r|]
    ensures forall k :: 0 <= k < |r| ==> !stop(r[k])
    ensures g + |r| == |s| || stop(s[g + |r|])
    decreases |s| - g
  {
    if g == |s| || stop(s[g]) then ""
    else [s[g]] + RunFrom(s, g + 1, stop)
  }

  /** A capture pattern `lit` `"?` `([^stop]+)`: a literal, an optional
      double quote when `quote` holds, then a non-empty greedy group. */
  datatype Capture = Capture(lit: string, quote: bool, stop: char -> bool)

  /** Where the group starts when the literal occurs at `i`: the optional
      quote is taken greedily. When the quote is a `stop` character (as for
      `CN=`), backtracking over `"?` cannot rescue a failed group, since the
      group would then have to start with the quote itself. */
  function GroupStart(s: string, c: Capture, i: nat): nat {
    var j := i + |c.lit|;
    if c.quote && j < |s| && s[j] == '"' then j + 1 else j
  }

  /** The pattern matches at index `i`. */
  predicate MatchesAt(s: string, c: Capture, i: nat) {
    OccursAt(s, c.lit, i) && GroupStart(s, c, i) < |s| && !c.stop(s[GroupStart(s, c, i)])
  }

  /** `re.search(pattern, s).group(1)`, or `None` when the search fails. */
  function Search(s: string, c: Capture): (r: Option<string>)
    ensures r.Some? <==> exists i :: 0 <= i <= |s| && MatchesAt(s, c, i)
    ensures r.Some? ==> exists i :: (0 <= i <= |s| && MatchesAt(s, c, i)
              && (forall k :: 0 <= k < i ==> !MatchesAt(s, c, k))
              && r.value == RunFrom(s, GroupStart(s, c, i), c.stop))
    ensures r.Some? ==> |r.value| > 0
  {
    var p := (k: nat) => MatchesAt(s, c, k);
    assert forall k: nat :: p(k) == MatchesAt(s, c, k);
    match Leftmost(p, 0, |s| + 1)
    case None => None
    case Some(i) => Some(RunFrom(s, GroupStart(s, c, i), c.stop))
  }

  predicate NameStop(ch: char) {
    ch == '"' || ch == ';' || ch == ':'
  }

  predicate ParamStop(ch: char) {
    ch == ';' || ch == ':'
  }

  /** `mailto:([^\s]+)` */
  const Mailto := Capture("mailto:", false, IsSpace)
  /** `CN="?([^";:]+)"?` (the trailing optional quote never changes the group) */
  const CommonName := Capture("CN=", true, NameStop)
  /** `PARTSTAT=([^;:]+)` */
  const PartStat := Capture("PARTSTAT=", false, ParamStop)

  /** `s.split(sep)[-1]`: Python splits at the leftmost occurrence and goes on
      after it, so the last piece is what follows the last occurrence found
      that way; a string without `sep` is its own last piece. */
  function LastPiece(s: string, sep: string): (r: string)
    requires |sep| > 0
    ensures |r| <= |s|
    decreases |s|
  {
    match FirstOccurrence(s, sep, 0)
    case None => s
    case Some(i) => LastPiece(s[i + |sep|..], sep)
  }

  /** Start of the leftmost occurrence of `sep` in `s` at or after `from`. */
  function FirstOccurrence(s: string, sep: string, from: nat): (r: Option<nat>)
    ensures r.Some? ==> from <= r.value && OccursAt(s, sep, r.value)
    ensures r.None? ==> forall k :: from <= k ==> !OccursAt(s, sep, k)
    decreases |s| - from
  {
    if from + |sep| > |s| then None
    else if OccursAt(s, sep, from) then Some(from)
    else FirstOccurrence(s, sep, from + 1)
  }

  /** What `LastPiece` leaves contains no separator. */
  lemma {:induction false} LastPieceHasNoSep(s: string, sep: string)
    requires |sep| > 0
    ensures !Contains(LastPiece(s, sep), sep)
    decreases |s|
  {
    match FirstOccurrence(s, sep, 0)
    case None =>
    case Some(i) =>
      LastPieceHasNoSep(s[i + |sep|..], sep);
  }

  /** Without an occurrence of `sep` the last piece is the whole string. */
  lemma LastPieceWhole(s: string, sep: string)
    requires |sep| > 0 && !Contains(s, sep)
    ensures LastPiece(s, sep) == s
  {
  }

  /** The last piece is a suffix of the input. */
  lemma {:induction false} LastPieceSuffix(s: string, sep: string)
    requires |sep| > 0
    ensures |LastPiece(s, sep)| <= |s|
    ensures LastPiece(s, sep) == s[|s| - |LastPiece(s, sep)|..]
    decreases |s|
  {
    match FirstOccurrence(s, sep, 0)
    case None =>
      LastPieceNone(s, sep);
    case Some(i) =>
      LastPieceSome(s, sep, i);
      LastPieceSuffix(s[i + |sep|..], sep);
      SuffixOfSuffix(s, i + |sep|, LastPiece(s[i + |sep|..], sep));
  }

  lemma SuffixOfSuffix(s: string, m: nat, r: string)
    requires m <= |s| && |r| <= |s| - m && r == s[m..][|s| - m - |r|..]
    ensures r == s[|s| - |r|..]
  {
    assert s[m..][|s| - m - |r|..] == s[|s| - |r|..];
  }

  /** No occurrence of `sep` in `p + f` reaches into `f`. */
  predicate StaysLeft(p: string, f: string, sep: string) {
    forall i :: |p| < i + |sep| <= |p| + |f| ==> !OccursAt(p + f, sep, i)
  }

  lemma {:induction false} FirstOccurrenceAppend(p: string, f: string, sep: string, from: nat)
    requires |sep| > 0 && StaysLeft(p, f, sep)
    ensures FirstOccurrence(p + f, sep, from) == FirstOccurrence(p, sep, from)
    decreases |p + f| - from
  {
    var s := p + f;
    if from + |sep| <= |s| {
      if from + |sep| <= |p| {
        assert s[from..from + |sep|] == p[from..from + |sep|];
      } else {
        assert !OccursAt(s, sep, from);
      }
      if !OccursAt(s, sep, from) {
        FirstOccurrenceAppend(p, f, sep, from + 1);
      }
    }
  }

  /** Occurrences in a suffix are occurrences in the whole, shifted. */
  lemma OccursShift(s: string, sep: string, m: nat, j: nat)
    requires m <= |s|
    ensures OccursAt(s[m..], sep, j) <==> OccursAt(s, sep, j + m)
  {
    if j + |sep| <= |s| - m {
      assert s[m..][j..j + |sep|] == s[j + m..j + m + |sep|];
    }
  }

  lemma StaysLeftSuffix(p: string, f: string, sep: string, m: nat)
    requires m <= |p| && StaysLeft(p, f, sep)
    ensures StaysLeft(p[m..], f, sep)
  {
    var q := p[m..];
    assert (p + f)[m..] == q + f;
    forall j | |q| < j + |sep| <= |q| + |f|
      ensures !OccursAt(q + f, sep, j)
    {
      if 0 <= j {
        OccursShift(p + f, sep, m, j);
      }
    }
  }

  /** Text that no separator reaches into is carried along unchanged: the
      last piece of `p + f` is the last piece of `p`, followed by `f`. */
  lemma {:induction false} LastPieceAppend(p: string, f: string, sep: string)
    requires |sep| > 0 && StaysLeft(p, f, sep)
    ensures LastPiece(p + f, sep) == LastPiece(p, sep) + f
    decreases |p|
  {
    FirstOccurrenceAppend(p, f, sep, 0);
    match FirstOccurrence(p, sep, 0)
    case None =>
      LastPieceNone(p, sep);
      LastPieceNone(p + f, sep);
    case Some(i) =>
      var m := i + |sep|;
      StaysLeftSuffix(p, f, sep, m);
      LastPieceAppend(p[m..], f, sep);
      LastPieceAppendAt(p, f, sep, i);
  }

  /** Both last pieces continue after the same first occurrence. */
  lemma LastPieceAppendAt(p: string, f: string, sep: string, i: nat)
    requires |sep| > 0 && FirstOccurrence(p + f, sep, 0) == Some(i) == FirstOccurrence(p, sep, 0)
    requires i + |sep| <= |p| && LastPiece(p[i + |sep|..] + f, sep) == LastPiece(p[i + |sep|..], sep) + f
    ensures LastPiece(p + f, sep) == LastPiece(p, sep) + f
  {
    var m := i + |sep|;
    LastPieceSome(p + f, sep, i);
    LastPieceSome(p, sep, i);
    assert (p + f)[m..] == p[m..] + f;
  }

  /** `LastPiece` goes on after the first occurrence of `sep`, if any. */
  lemma LastPieceSome(s: string, sep: string, i: nat)
    requires |sep| > 0 && FirstOccurrence(s, sep, 0) == Some(i)
    ensures i + |sep| <= |s| && LastPiece(s, sep) == LastPiece(s[i + |sep|..], sep)
  {
    assert OccursAt(s, sep, i);
  }

  lemma LastPieceNone(s: string, sep: string)
    requires |sep| > 0 && FirstOccurrence(s, sep, 0).None?
    ensures LastPiece(s, sep) == s
  {
  }

  /** The timestamp text the accessors look at: `s.split('TZID=')[-1] if
      'TZID=' in s else s`. Both branches agree with `LastPiece`. */
  function AfterTzid(s: string): (r: string)
    ensures !Contains(r, "TZID=")
  {
    LastPieceHasNoSep(s, "TZID=");
    LastPiece(s, "TZID=")
  }

  /** `\d{k}` at `i` */
  predicate DigitsAt(s: string, i: nat, k: nat) {
    i + k <= |s| && forall j :: i <= j < i + k ==> IsDigit(s[j])
  }

  /** `\d{8}T\d{6}` at `i` */
  predicate StampAt(s: string, i: nat) {
    DigitsAt(s, i, 8) && i + 8 < |s| && s[i + 8] == 'T' && DigitsAt(s, i + 9, 6)
  }

  /** `\d{8}` at `i` */
  predicate DayAt(s: string, i: nat) {
    DigitsAt(s, i, 8)
  }

  /** `T(\d{2})\d{4}` at `i` */
  predicate ClockAt(s: string, i: nat) {
    i < |s| && s[i] == 'T' && DigitsAt(s, i + 1, 6)
  }

  /** Start of the leftmost match of `\d{8}T\d{6}`. */
  function FindStamp(s: string): (r: Option<nat>)
    ensures r.Some? ==> StampAt(s, r.value) && forall k :: 0 <= k < r.value ==> !StampAt(s, k)
    ensures r.None? ==> forall k :: 0 <= k < |s| ==> !StampAt(s, k)
  {
    var p := (k: nat) => StampAt(s, k);
    assert forall k: nat :: p(k) == StampAt(s, k);
    Leftmost(p, 0, |s|)
  }

  /** Start of the leftmost match of `\d{8}`. */
  function FindDay(s: string): (r: Option<nat>)
    ensures r.Some? ==> DayAt(s, r.value) && forall k :: 0 <= k < r.value ==> !DayAt(s, k)
    ensures r.None? ==> forall k :: 0 <= k < |s| ==> !DayAt(s, k)
  {
    var p := (k: nat) => DayAt(s, k);
    assert forall k: nat :: p(k) == DayAt(s, k);
    Leftmost(p, 0, |s|)
  }

  /** Start of the leftmost match of `T\d{6}`. */
  function FindClock(s: string): (r: Option<nat>)
    ensures r.Some? ==> ClockAt(s, r.value) && forall k :: 0 <= k < r.value ==> !ClockAt(s, k)
    ensures r.None? ==> forall k :: 0 <= k < |s| ==> !ClockAt(s, k)
  {
    var p := (k: nat) => ClockAt(s, k);
    assert forall k: nat :: p(k) == ClockAt(s, k);
    Leftmost(p, 0, |s|)
  }
}
