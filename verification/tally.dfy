/** The scripts' aggregations are left folds into `defaultdict`s: a list of
    events per key, a running count per key, or a count and an hour total
    per key. This module defines the three folds once, each against an
    independent description of what ends up under a key, and the sums over
    a whole map. */
module Tally {
  /** How many of the keys are `k`. */
  function CountIn(keys: seq<string>, k: string): (r: nat)
    ensures r <= |keys|
  {
    if |keys| == 0 then 0
    else CountIn(keys[..|keys| - 1], k) + (if keys[|keys| - 1] == k then 1 else 0)
  }

  /** The items whose key is `k`, in input order. */
  function Filter<T>(xs: seq<T>, keys: seq<string>, k: string): (r: seq<T>)
    requires |xs| == |keys|
    ensures |r| == CountIn(keys, k)
  {
    if |xs| == 0 then []
    else Filter(xs[..|xs| - 1], keys[..|keys| - 1], k) + (if keys[|keys| - 1] == k then [xs[|xs| - 1]] else [])
  }

  lemma CountInLast(keys: seq<string>, x: string, k: string)
    ensures CountIn(keys + [x], k) == CountIn(keys, k) + (if x == k then 1 else 0)
  {
    assert (keys + [x])[..|keys|] == keys;
  }

  /** Filtering one more item adds its value to the filtered sum exactly
      when its key is `k`. */
  lemma FilterSumLast(hs: seq<real>, keys: seq<string>, h: real, x: string, k: string)
    requires |hs| == |keys|
    ensures SumReal(Filter(hs + [h], keys + [x], k)) == SumReal(Filter(hs, keys, k)) + (if x == k then h else 0.0)
  {
    assert (hs + [h])[..|hs|] == hs && (keys + [x])[..|keys|] == keys;
    var f := Filter(hs, keys, k);
    SumRealAppend(f, if x == k then [h] else []);
  }

  lemma {:induction false} CountInAppend(a: seq<string>, b: seq<string>, k: string)
    ensures CountIn(a + b, k) == CountIn(a, k) + CountIn(b, k)
    decreases |b|
  {
    if |b| > 0 {
      assert (a + b)[..|a + b| - 1] == a + b[..|b| - 1];
      CountInAppend(a, b[..|b| - 1], k);
    } else {
      assert a + b == a;
    }
  }

  /** Filtering a concatenation filters each part. */
  lemma {:induction false} FilterAppend<T>(xs: seq<T>, keys: seq<string>, ys: seq<T>, more: seq<string>, k: string)
    requires |xs| == |keys| && |ys| == |more|
    ensures Filter(xs + ys, keys + more, k) == Filter(xs, keys, k) + Filter(ys, more, k)
    decreases |ys|
  {
    if |ys| > 0 {
      var n := |ys| - 1;
      assert (xs + ys)[..|xs + ys| - 1] == xs + ys[..n];
      assert (keys + more)[..|keys + more| - 1] == keys + more[..n];
      FilterAppend(xs, keys, ys[..n], more[..n], k);
    } else {
      assert xs + ys == xs && keys + more == keys;
    }
  }

  /** The positions holding `k`, ascending. */
  function Positions(keys: seq<string>, k: string): (r: seq<nat>)
    ensures |r| == CountIn(keys, k)
    ensures forall j :: 0 <= j < |r| ==> r[j] < |keys| && keys[r[j]] == k
    ensures forall i, j :: 0 <= i < j < |r| ==> r[i] < r[j]
  {
    if |keys| == 0 then []
    else
      var n := |keys| - 1;
      var front := Positions(keys[..n], k);
      assert forall p :: 0 <= p < n ==> keys[..n][p] == keys[p];
      front + (if keys[n] == k then [n] else [])
  }

  /** Every position holding `k` is listed. */
  lemma {:induction false} PositionsComplete(keys: seq<string>, k: string, p: nat)
    requires p < |keys| && keys[p] == k
    ensures p in Positions(keys, k)
  {
    var n := |keys| - 1;
    if p < n {
      PositionsComplete(keys[..n], k, p);
    }
  }

  /** The filtered items are exactly the items at the positions holding
      `k`, in order: every item with key `k` is kept and nothing else. */
  lemma {:induction false} FilterAtPositions<T>(xs: seq<T>, keys: seq<string>, k: string)
    requires |xs| == |keys|
    ensures var r, p := Filter(xs, keys, k), Positions(keys, k);
      |r| == |p| && forall j :: 0 <= j < |p| ==> r[j] == xs[p[j]]
  {
    if |xs| > 0 {
      var n := |xs| - 1;
      FilterAtPositions(xs[..n], keys[..n], k);
    }
  }

  /** Filtering keeps only items of the input. */
  lemma FilterIn<T>(xs: seq<T>, keys: seq<string>, k: string)
    requires |xs| == |keys|
    ensures forall x :: x in Filter(xs, keys, k) ==> x in xs
  {
    var r, p := Filter(xs, keys, k), Positions(keys, k);
    FilterAtPositions(xs, keys, k);
    forall x | x in r
      ensures x in xs
    {
      var j :| 0 <= j < |r| && r[j] == x;
      assert xs[p[j]] == x;
    }
  }

  /** `[f(x) for x in xs]` */
  function MapSeq<T, U>(xs: seq<T>, f: T -> U): (r: seq<U>)
    ensures |r| == |xs| && forall i :: 0 <= i < |xs| ==> r[i] == f(xs[i])
  {
    if |xs| == 0 then [] else MapSeq(xs[..|xs| - 1], f) + [f(xs[|xs| - 1])]
  }

  /** `[x for x in xs if keep(x)]`: the items that pass, in input order;
      when every item passes, all of them. */
  function Keep<T(!new)>(xs: seq<T>, keep: T -> bool): (r: seq<T>)
    ensures |r| <= |xs|
    ensures forall x :: x in r <==> x in xs && keep(x)
    ensures (forall i :: 0 <= i < |xs| ==> keep(xs[i])) ==> r == xs
  {
    if |xs| == 0 then []
    else
      var n := |xs| - 1;
      var front := Keep(xs[..n], keep);
      assert forall x :: x in xs <==> x in xs[..n] || x == xs[n] by {
        assert xs == xs[..n] + [xs[n]];
      }
      if keep(xs[n]) then front + [xs[n]] else front
  }

  /** `[x] * n` */
  function Replicate<T>(x: T, n: nat): (r: seq<T>)
    ensures |r| == n && forall i :: 0 <= i < n ==> r[i] == x
  {
    if n == 0 then [] else Replicate(x, n - 1) + [x]
  }

  /** Filtering `n` copies of one item by `n` keys keeps one copy per key
      that is `k`. */
  lemma {:induction false} FilterReplicate<T>(x: T, keys: seq<string>, k: string)
    ensures Filter(Replicate(x, |keys|), keys, k) == Replicate(x, CountIn(keys, k))
  {
    if |keys| > 0 {
      var n := |keys| - 1;
      assert Replicate(x, |keys|)[..n] == Replicate(x, n);
      FilterReplicate(x, keys[..n], k);
    }
  }

  /** Mapping a concatenation maps each part. */
  lemma MapSeqAppend<T, U>(a: seq<T>, b: seq<T>, f: T -> U)
    ensures MapSeq(a + b, f) == MapSeq(a, f) + MapSeq(b, f)
  {
    var l, r := MapSeq(a + b, f), MapSeq(a, f) + MapSeq(b, f);
    assert |l| == |r|;
    forall i | 0 <= i < |l|
      ensures l[i] == r[i]
    {
      if i < |a| {
        assert (a + b)[i] == a[i];
      } else {
        assert (a + b)[i] == b[i - |a|];
      }
    }
  }

  /** `sum(w(x) for x in xs)` */
  function SumOf<T>(xs: seq<T>, w: T -> real): real {
    SumReal(MapSeq(xs, w))
  }

  lemma SumOfLast<T>(xs: seq<T>, w: T -> real)
    requires |xs| > 0
    ensures SumOf(xs, w) == SumOf(xs[..|xs| - 1], w) + w(xs[|xs| - 1])
  {
    assert MapSeq(xs, w)[..|xs| - 1] == MapSeq(xs[..|xs| - 1], w);
  }

  lemma SumOfConcat<T>(a: seq<T>, b: seq<T>, w: T -> real)
    ensures SumOf(a + b, w) == SumOf(a, w) + SumOf(b, w)
  {
    MapSeqAppend(a, b, w);
    SumRealAppend(MapSeq(a, w), MapSeq(b, w));
  }

  /** Key-wise filtering commutes with mapping the items. */
  lemma {:induction false} FilterMapSeq<T, U>(xs: seq<T>, keys: seq<string>, k: string, f: T -> U)
    requires |xs| == |keys|
    ensures Filter(MapSeq(xs, f), keys, k) == MapSeq(Filter(xs, keys, k), f)
  {
    if |xs| > 0 {
      var n := |xs| - 1;
      FilterMapSeq(xs[..n], keys[..n], k, f);
      FilterMapStep(xs, keys, k, f);
    }
  }

  /** If filtering commutes with mapping on all items but the last, it
      does on all of them. */
  lemma FilterMapStep<T, U>(xs: seq<T>, keys: seq<string>, k: string, f: T -> U)
    requires |xs| == |keys| && |xs| > 0
    requires var n := |xs| - 1;
      Filter(MapSeq(xs[..n], f), keys[..n], k) == MapSeq(Filter(xs[..n], keys[..n], k), f)
    ensures Filter(MapSeq(xs, f), keys, k) == MapSeq(Filter(xs, keys, k), f)
  {
    var n := |xs| - 1;
    var ys := MapSeq(xs, f);
    var last := if keys[n] == k then [f(xs[n])] else [];
    var front := MapSeq(Filter(xs[..n], keys[..n], k), f);
    assert ys[..n] == MapSeq(xs[..n], f);
    assert ys[n] == f(xs[n]);
    assert Filter(ys, keys, k) == front + last;
    MapSeqAppend(Filter(xs[..n], keys[..n], k), if keys[n] == k then [xs[n]] else [], f);
    assert MapSeq(Filter(xs, keys, k), f) == front + last;
  }

  function SumReal(hs: seq<real>): real {
    if |hs| == 0 then 0.0 else SumReal(hs[..|hs| - 1]) + hs[|hs| - 1]
  }

  lemma {:induction false} SumRealAppend(a: seq<real>, b: seq<real>)
    ensures SumReal(a + b) == SumReal(a) + SumReal(b)
    decreases |b|
  {
    if |b| > 0 {
      assert (a + b)[..|a + b| - 1] == a + b[..|b| - 1];
      SumRealAppend(a, b[..|b| - 1]);
    } else {
      assert a + b == a;
    }
  }

  /** `stats[k]['count'] += 1; stats[k]['hours'] += h` */
  datatype Stat = Stat(count: nat, hours: real)

  function Bump(m: map<string, Stat>, k: string, h: real): (r: map<string, Stat>)
    ensures r.Keys == m.Keys + {k}
  {
    m[k := Bumped(m, k, h)]
  }

  /** The entry of key `k` after one more event of `h` hours. */
  function Bumped(m: map<string, Stat>, k: string, h: real): (r: Stat)
    ensures r.count == (if k in m then m[k].count else 0) + 1
    ensures r.hours == (if k in m then m[k].hours else 0.0) + h
  {
    var s := if k in m then m[k] else Stat(0, 0.0);
    Stat(s.count + 1, s.hours + h)
  }

  /** The count-and-hours fold: key `keys[i]` gets one more event of
      `hs[i]` hours. */
  function TallyOf(keys: seq<string>, hs: seq<real>): (r: map<string, Stat>)
    requires |keys| == |hs|
  {
    if |keys| == 0 then map[]
    else Bump(TallyOf(keys[..|keys| - 1], hs[..|hs| - 1]), keys[|keys| - 1], hs[|hs| - 1])
  }

  /** A key occurs in a non-empty list iff it occurs before the last
      place or at it. */
  lemma KeysStep(keys: seq<string>, k: string)
    requires |keys| > 0
    ensures k in keys <==> k in keys[..|keys| - 1] || k == keys[|keys| - 1]
  {
    var n := |keys| - 1;
    if k in keys {
      var i :| 0 <= i < |keys| && keys[i] == k;
      if i < n {
        assert keys[..n][i] == k;
      }
    }
    if k in keys[..n] {
      var i :| 0 <= i < n && keys[..n][i] == k;
      assert keys[i] == k;
    }
  }

  /** A key that does not occur is counted zero times. */
  lemma {:induction false} Absent(keys: seq<string>, k: string)
    requires k !in keys
    ensures CountIn(keys, k) == 0
  {
    if |keys| > 0 {
      KeysStep(keys, k);
      Absent(keys[..|keys| - 1], k);
    }
  }

  /** A key that occurs is counted at least once. */
  lemma Present(keys: seq<string>, k: string)
    requires k in keys
    ensures CountIn(keys, k) >= 1
  {
    var i :| 0 <= i < |keys| && keys[i] == k;
    PositionsComplete(keys, k, i);
  }

  lemma {:induction false} TallyAtKey(keys: seq<string>, hs: seq<real>, k: string)
    requires |keys| == |hs|
    ensures k in TallyOf(keys, hs) <==> k in keys
    ensures k in TallyOf(keys, hs) ==> TallyOf(keys, hs)[k] == Stat(CountIn(keys, k), SumReal(Filter(hs, keys, k)))
  {
    if |keys| > 0 {
      var n := |keys| - 1;
      KeysStep(keys, k);
      TallyAtKey(keys[..n], hs[..n], k);
      var front := Filter(hs[..n], keys[..n], k);
      if k == keys[n] {
        if k !in keys[..n] {
          Absent(keys[..n], k);
          assert front == [];
        }
        SumRealAppend(front, [hs[n]]);
      } else {
        var m := TallyOf(keys[..n], hs[..n]);
        assert TallyOf(keys, hs) == Bump(m, keys[n], hs[n]);
        assert k in m ==> Bump(m, keys[n], hs[n])[k] == m[k];
        assert CountIn(keys, k) == CountIn(keys[..n], k);
        assert hs[..|hs| - 1] == hs[..n];
        assert Filter(hs, keys, k) == front + [];
        assert front + [] == front;
      }
    }
  }

  /** Under each key that occurs: how often it occurs, and the hours of
      its occurrences; no other key appears. */
  lemma TallyAt(keys: seq<string>, hs: seq<real>)
    requires |keys| == |hs|
    ensures forall k :: k in TallyOf(keys, hs) <==> k in keys
    ensures forall k :: k in TallyOf(keys, hs) ==>
      TallyOf(keys, hs)[k] == Stat(CountIn(keys, k), SumReal(Filter(hs, keys, k)))
  {
    forall k {
      TallyAtKey(keys, hs, k);
    }
  }

  /** The keys with the empty ones left out (`if event.status:`). */
  function NonEmpty(keys: seq<string>): (r: seq<string>)
    ensures forall k :: k in r <==> k in keys && k != ""
    ensures forall k :: k != "" ==> CountIn(r, k) == CountIn(keys, k)
  {
    if |keys| == 0 then []
    else
      var n := |keys| - 1;
      var front := NonEmpty(keys[..n]);
      forall k
        ensures k in keys <==> k in keys[..n] || k == keys[n]
      {
        KeysStep(keys, k);
      }
      var r := if keys[n] != "" then front + [keys[n]] else front;
      assert keys[n] != "" ==> r[..|r| - 1] == front;
      r
  }

  /** `counts[k] += 1` */
  function Counts(keys: seq<string>): (r: map<string, nat>)
  {
    if |keys| == 0 then map[]
    else
      var m := Counts(keys[..|keys| - 1]);
      var k := keys[|keys| - 1];
      m[k := (if k in m then m[k] else 0) + 1]
  }

  lemma {:induction false} CountsAtKey(keys: seq<string>, k: string)
    ensures k in Counts(keys) <==> k in keys
    ensures k in Counts(keys) ==> Counts(keys)[k] == CountIn(keys, k)
  {
    if |keys| > 0 {
      var n := |keys| - 1;
      KeysStep(keys, k);
      CountsAtKey(keys[..n], k);
      if k == keys[n] && k !in keys[..n] {
        Absent(keys[..n], k);
      }
    }
  }

  /** Under each key that occurs, how often it occurs; no other key appears. */
  lemma CountsAt(keys: seq<string>)
    ensures forall k :: k in Counts(keys) <==> k in keys
    ensures forall k :: k in Counts(keys) ==> Counts(keys)[k] == CountIn(keys, k)
  {
    forall k {
      CountsAtKey(keys, k);
    }
  }

  /** `groups[k].append(x)` */
  function Group<T>(xs: seq<T>, keys: seq<string>): (r: map<string, seq<T>>)
    requires |xs| == |keys|
  {
    if |xs| == 0 then map[]
    else
      var m := Group(xs[..|xs| - 1], keys[..|keys| - 1]);
      var k := keys[|keys| - 1];
      m[k := (if k in m then m[k] else []) + [xs[|xs| - 1]]]
  }

  lemma {:induction false} GroupAtKey<T>(xs: seq<T>, keys: seq<string>, k: string)
    requires |xs| == |keys|
    ensures k in Group(xs, keys) <==> k in keys
    ensures k in Group(xs, keys) ==> Group(xs, keys)[k] == Filter(xs, keys, k)
  {
    if |xs| > 0 {
      var n := |xs| - 1;
      KeysStep(keys, k);
      GroupAtKey(xs[..n], keys[..n], k);
      if k == keys[n] && k !in keys[..n] {
        Absent(keys[..n], k);
      }
      if k != keys[n] {
        assert Filter(xs, keys, k) == Filter(xs[..n], keys[..n], k) + [];
      }
    }
  }

  /** Each key that occurs holds its items in input order; no other key
      appears. */
  lemma GroupAt<T>(xs: seq<T>, keys: seq<string>)
    requires |xs| == |keys|
    ensures forall k :: k in Group(xs, keys) <==> k in keys
    ensures forall k :: k in Group(xs, keys) ==> Group(xs, keys)[k] == Filter(xs, keys, k)
  {
    forall k {
      GroupAtKey(xs, keys, k);
    }
  }

  ghost function Pick<V>(m: map<string, V>): (k: string)
    requires |m| > 0
    ensures k in m
  {
    assert m.Keys != {};
    var k :| k in m; k
  }

  lemma Smaller<V>(m: map<string, V>, k: string)
    requires k in m
    ensures |m - {k}| == |m| - 1
  {
    assert (m - {k}).Keys == m.Keys - {k};
  }

  /** The sum of `w` over the values of a map. */
  ghost function MapSum<V>(m: map<string, V>, w: V -> real): real
    decreases |m|
  {
    if |m| == 0 then 0.0
    else
      var k := Pick(m);
      Smaller(m, k);
      w(m[k]) + MapSum(m - {k}, w)
  }

  /** The sum does not depend on which key is taken first. */
  lemma {:induction false} MapSumRemove<V>(m: map<string, V>, w: V -> real, k: string)
    requires k in m
    ensures MapSum(m, w) == w(m[k]) + MapSum(m - {k}, w)
    decreases |m|
  {
    var j := Pick(m);
    if j != k {
      Smaller(m, j);
      Smaller(m, k);
      var mj, mk := m - {j}, m - {k};
      assert mj[k] == m[k] && mk[j] == m[j];
      MapSumRemove(mj, w, k);
      MapSumRemove(mk, w, j);
      assert mj - {k} == mk - {j};
    }
  }

  lemma MapSumUpdate<V>(m: map<string, V>, w: V -> real, k: string, v: V)
    ensures MapSum(m[k := v], w) == MapSum(m, w) - (if k in m then w(m[k]) else 0.0) + w(v)
  {
    MapSumRemove(m[k := v], w, k);
    assert m[k := v] - {k} == m - {k};
    if k in m {
      MapSumRemove(m, w, k);
    } else {
      assert m - {k} == m;
    }
  }

  function Restrict<V>(m: map<string, V>, keep: set<string>): (r: map<string, V>)
    ensures forall k :: k in r <==> k in m && k in keep
  {
    map k | k in m && k in keep :: m[k]
  }

  function Drop<V>(m: map<string, V>, keep: set<string>): (r: map<string, V>)
    ensures forall k :: k in r <==> k in m && k !in keep
  {
    map k | k in m && k !in keep :: m[k]
  }

  /** Taking one key out of a map takes it out of the kept or the dropped part. */
  lemma RestrictStep<V>(m: map<string, V>, keep: set<string>, k: string)
    requires k in m
    ensures k in keep ==> Restrict(m, keep) == Restrict(m - {k}, keep)[k := m[k]] && Drop(m, keep) == Drop(m - {k}, keep)
    ensures k !in keep ==> Restrict(m, keep) == Restrict(m - {k}, keep) && Drop(m, keep) == Drop(m - {k}, keep)[k := m[k]]
  {
  }

  /** Summing the kept keys and the dropped keys separately gives the whole sum. */
  lemma {:induction false} MapSumSplit<V>(m: map<string, V>, w: V -> real, keep: set<string>)
    ensures MapSum(m, w) == MapSum(Restrict(m, keep), w) + MapSum(Drop(m, keep), w)
    decreases |m|
  {
    if |m| == 0 {
      assert Restrict(m, keep) == map[] && Drop(m, keep) == map[];
    } else {
      var k := Pick(m);
      var rest := m - {k};
      Smaller(m, k);
      MapSumRemove(m, w, k);
      MapSumSplit(rest, w, keep);
      RestrictStep(m, keep, k);
      var r, d := Restrict(rest, keep), Drop(rest, keep);
      if k in keep {
        MapSumUpdate(r, w, k, m[k]);
      } else {
        MapSumUpdate(d, w, k, m[k]);
      }
    }
  }

  function CountOf(s: Stat): real {
    s.count as real
  }

  function HoursOf(s: Stat): real {
    s.hours
  }

  function NatOf(n: nat): real {
    n as real
  }

  function LengthOf<T>(s: seq<T>): real {
    |s| as real
  }

  /** The counts of a tally add up to the number of keys, and its hours to
      the sum of all hours. */
  lemma TallyTotal(keys: seq<string>, hs: seq<real>)
    requires |keys| == |hs|
    ensures MapSum(TallyOf(keys, hs), CountOf) == |keys| as real
    ensures MapSum(TallyOf(keys, hs), HoursOf) == SumReal(hs)
  {
    TallyCountTotal(keys, hs);
    TallyHoursTotal(keys, hs);
  }

  /** Replacing one entry changes a map's total by what the entry gains. */
  lemma MapSumStep<V>(m: map<string, V>, w: V -> real, k: string, v: V, d: real)
    requires (if k in m then w(m[k]) else 0.0) + d == w(v)
    ensures MapSum(m[k := v], w) == MapSum(m, w) + d
  {
    MapSumUpdate(m, w, k, v);
  }

  /** The last key adds one event and its hours to the totals. */
  lemma TallyStep(keys: seq<string>, hs: seq<real>)
    requires |keys| == |hs| && |keys| > 0
    ensures var n := |keys| - 1;
      MapSum(TallyOf(keys, hs), CountOf) == MapSum(TallyOf(keys[..n], hs[..n]), CountOf) + 1.0
    ensures var n := |keys| - 1;
      MapSum(TallyOf(keys, hs), HoursOf) == MapSum(TallyOf(keys[..n], hs[..n]), HoursOf) + hs[n]
  {
    var n := |keys| - 1;
    var m := TallyOf(keys[..n], hs[..n]);
    var t := Bumped(m, keys[n], hs[n]);
    MapSumStep(m, CountOf, keys[n], t, 1.0);
    MapSumStep(m, HoursOf, keys[n], t, hs[n]);
  }

  lemma {:induction false} TallyCountTotal(keys: seq<string>, hs: seq<real>)
    requires |keys| == |hs|
    ensures MapSum(TallyOf(keys, hs), CountOf) == |keys| as real
  {
    if |keys| > 0 {
      TallyCountTotal(keys[..|keys| - 1], hs[..|hs| - 1]);
      TallyStep(keys, hs);
    }
  }

  lemma {:induction false} TallyHoursTotal(keys: seq<string>, hs: seq<real>)
    requires |keys| == |hs|
    ensures MapSum(TallyOf(keys, hs), HoursOf) == SumReal(hs)
  {
    if |keys| > 0 {
      TallyHoursTotal(keys[..|keys| - 1], hs[..|hs| - 1]);
      TallyStep(keys, hs);
    }
  }

  lemma {:induction false} CountsTotal(keys: seq<string>)
    ensures MapSum(Counts(keys), NatOf) == |keys| as real
  {
    if |keys| > 0 {
      var n := |keys| - 1;
      var m := Counts(keys[..n]);
      CountsTotal(keys[..n]);
      MapSumStep(m, NatOf, keys[n], (if keys[n] in m then m[keys[n]] else 0) + 1, 1.0);
    }
  }

  /** Every item lands in exactly one group. */
  lemma {:induction false} GroupTotal<T>(xs: seq<T>, keys: seq<string>)
    requires |xs| == |keys|
    ensures MapSum(Group(xs, keys), LengthOf) == |xs| as real
  {
    if |xs| > 0 {
      var n := |xs| - 1;
      var m := Group(xs[..n], keys[..n]);
      GroupTotal(xs[..n], keys[..n]);
      MapSumUpdate(m, LengthOf, keys[n], (if keys[n] in m then m[keys[n]] else []) + [xs[n]]);
    }
  }

  /** The group the last item joins, as it stood before. */
  function GroupBefore<T>(xs: seq<T>, keys: seq<string>): (r: seq<T>)
    requires |xs| == |keys| && |xs| > 0
  {
    var m := Group(xs[..|xs| - 1], keys[..|keys| - 1]);
    var k := keys[|keys| - 1];
    if k in m then m[k] else []
  }

  /** Appending one item to its group adds what the item adds to that
      group's weight to the groups' total. */
  lemma GroupSumStep<T>(xs: seq<T>, keys: seq<string>, ws: seq<T> -> real, d: real)
    requires |xs| == |keys| && |xs| > 0
    requires ws([]) == 0.0
    requires ws(GroupBefore(xs, keys) + [xs[|xs| - 1]]) == ws(GroupBefore(xs, keys)) + d
    ensures var n := |xs| - 1;
      MapSum(Group(xs, keys), ws) == MapSum(Group(xs[..n], keys[..n]), ws) + d
  {
    var n := |xs| - 1;
    var m := Group(xs[..n], keys[..n]);
    var k := keys[n];
    var before := GroupBefore(xs, keys);
    assert Group(xs, keys) == m[k := before + [xs[n]]];
    MapSumUpdate(m, ws, k, before + [xs[n]]);
    assert (if k in m then ws(m[k]) else 0.0) == ws(before);
  }

  /** A weight given by summing item weights is zero on nothing and
      grows by an item's weight when the item is appended. */
  lemma WeighOne<T>(s: seq<T>, x: T, w: T -> real, ws: seq<T> -> real)
    requires forall s :: ws(s) == SumOf(s, w)
    ensures ws([]) == 0.0 && ws(s + [x]) == ws(s) + w(x)
  {
    assert SumOf([], w) == 0.0;
    SumOfConcat(s, [x], w);
    SumOfLast([x], w);
    assert [x][..0] == [];
  }

  /** Grouping neither loses nor adds weight. */
  lemma {:induction false} GroupSumTotal<T>(xs: seq<T>, keys: seq<string>, w: T -> real, ws: seq<T> -> real)
    requires |xs| == |keys|
    requires forall s :: ws(s) == SumOf(s, w)
    ensures MapSum(Group(xs, keys), ws) == SumOf(xs, w)
  {
    if |xs| > 0 {
      var n := |xs| - 1;
      var before := GroupBefore(xs, keys);
      GroupSumTotal(xs[..n], keys[..n], w, ws);
      WeighOne(before, xs[n], w, ws);
      GroupSumStep(xs, keys, ws, w(xs[n]));
      SumOfLast(xs, w);
    }
  }

  /** The first `n` items, or all of them when there are fewer: `xs[:n]`. */
  function First<T>(xs: seq<T>, n: nat): (r: seq<T>)
    ensures |r| == if |xs| < n then |xs| else n
    ensures r == xs[..|r|]
  {
    if |xs| <= n then xs else xs[..n]
  }

  /** Two maps over the same keys whose weights agree key by key have the
      same sum. */
  lemma {:induction false} MapSumSame<V, U>(m: map<string, V>, w: V -> real, n: map<string, U>, u: U -> real)
    requires m.Keys == n.Keys
    requires forall k :: k in m ==> w(m[k]) == u(n[k])
    ensures MapSum(m, w) == MapSum(n, u)
    decreases |m|
  {
    if |m| > 0 {
      var k := Pick(m);
      Smaller(m, k);
      Smaller(n, k);
      MapSumRemove(m, w, k);
      MapSumRemove(n, u, k);
      MapSumSame(m - {k}, w, n - {k}, u);
    }
  }

  /** The sum of `w` over the keys of `m` that appear in `labels`, each
      key once however often it is listed. */
  function SumOver<V>(m: map<string, V>, labels: seq<string>, w: V -> real): real {
    if |labels| == 0 then 0.0
    else
      var l := labels[0];
      (if l in m && l !in labels[1..] then w(m[l]) else 0.0) + SumOver(m, labels[1..], w)
  }

  /** Walking a list of labels sums the map restricted to those labels. */
  lemma LabelSet(labels: seq<string>)
    requires |labels| > 0
    ensures (set x | x in labels) == (set x | x in labels[1..]) + {labels[0]}
  {
    forall x | x in labels
      ensures x in labels[1..] || x == labels[0]
    {
      var i :| 0 <= i < |labels| && labels[i] == x;
      if i > 0 {
        assert labels[1..][i - 1] == x;
      }
    }
  }

  /** Adding one label to the kept set adds at most that key to the restriction. */
  lemma RestrictGrow<V>(m: map<string, V>, small: set<string>, l: string)
    ensures l in small || l !in m ==> Restrict(m, small + {l}) == Restrict(m, small)
    ensures l !in small && l in m ==> Restrict(m, small + {l}) == Restrict(m, small)[l := m[l]]
  {
  }

  lemma {:induction false} SumOverIsMapSum<V>(m: map<string, V>, labels: seq<string>, w: V -> real)
    ensures SumOver(m, labels, w) == MapSum(Restrict(m, set l | l in labels), w)
  {
    if |labels| == 0 {
      assert Restrict(m, set l | l in labels) == map[];
    } else {
      var l, rest := labels[0], labels[1..];
      SumOverIsMapSum(m, rest, w);
      var small := set x | x in rest;
      LabelSet(labels);
      RestrictGrow(m, small, l);
      assert l in rest <==> l in small;
      if !(l in rest || l !in m) {
        MapSumStep(Restrict(m, small), w, l, m[l], w(m[l]));
      }
    }
  }

  /** The number of items listed under the keys of `m` that appear in
      `labels`, each key once. */
  function CountOver<T>(m: map<string, seq<T>>, labels: seq<string>): (r: nat)
    ensures r as real == SumOver(m, labels, LengthOf)
  {
    if |labels| == 0 then 0
    else
      var l := labels[0];
      (if l in m && l !in labels[1..] then |m[l]| else 0) + CountOver(m, labels[1..])
  }
}
