/** Python's string order (code point by code point, a proper prefix first)
    and `sorted(set(...))` built by inserting into a strictly ascending list. */
module Order {
  predicate Below(a: string, b: string) {
    if |a| == 0 then |b| > 0
    else |b| > 0 && (a[0] < b[0] || (a[0] == b[0] && Below(a[1..], b[1..])))
  }

  lemma {:induction false} BelowIrreflexive(a: string)
    ensures !Below(a, a)
  {
    if |a| > 0 {
      BelowIrreflexive(a[1..]);
    }
  }

  lemma {:induction false} BelowTotal(a: string, b: string)
    requires a != b
    ensures Below(a, b) || Below(b, a)
  {
    if |a| > 0 && |b| > 0 && a[0] == b[0] {
      assert a == [a[0]] + a[1..] && b == [b[0]] + b[1..];
      BelowTotal(a[1..], b[1..]);
    }
  }

  lemma {:induction false} BelowTransitive(a: string, b: string, c: string)
    requires Below(a, b) && Below(b, c)
    ensures Below(a, c)
  {
    if |a| > 0 && a[0] == b[0] && b[0] == c[0] {
      BelowTransitive(a[1..], b[1..], c[1..]);
    }
  }

  predicate Ascending(s: seq<string>) {
    forall i, j :: 0 <= i < j < |s| ==> Below(s[i], s[j])
  }

  /** Insert `x` into an ascending list unless it is already there. */
  function Insert(s: seq<string>, x: string): (r: seq<string>)
    requires Ascending(s)
    ensures Ascending(r)
    ensures forall y :: y in r <==> y in s || y == x
  {
    if |s| == 0 then [x]
    else if x == s[0] then s
    else if Below(x, s[0]) then
      forall j | 0 < j < |s|
        ensures Below(x, s[j])
      {
        BelowTransitive(x, s[0], s[j]);
      }
      [x] + s
    else
      BelowTotal(x, s[0]);
      var rest := Insert(s[1..], x);
      forall y | y in s
        ensures y == s[0] || y in s[1..]
      {
        var i :| 0 <= i < |s| && s[i] == y;
        if i > 0 {
          assert s[1..][i - 1] == y;
        }
      }
      forall j | 0 <= j < |rest|
        ensures Below(s[0], rest[j])
      {
        assert rest[j] in rest;
        if rest[j] != x {
          var i :| 0 <= i < |s[1..]| && s[1..][i] == rest[j];
          assert s[i + 1] == rest[j];
        }
      }
      [s[0]] + rest
  }

  /** `sorted(set(xs))` */
  function SortedSet(xs: seq<string>): (r: seq<string>)
    ensures Ascending(r)
    ensures forall y :: y in r <==> y in xs
  {
    if |xs| == 0 then []
    else
      var n := |xs| - 1;
      var r := Insert(SortedSet(xs[..n]), xs[n]);
      assert forall y :: y in xs <==> y in xs[..n] || y == xs[n] by {
        assert xs == xs[..n] + [xs[n]];
      }
      r
  }

  /** An ascending list has no repeats. */
  lemma AscendingDistinct(s: seq<string>)
    requires Ascending(s)
    ensures forall i, j :: 0 <= i < j < |s| ==> s[i] != s[j]
  {
    forall i, j | 0 <= i < j < |s|
      ensures s[i] != s[j]
    {
      BelowIrreflexive(s[i]);
    }
  }
}
