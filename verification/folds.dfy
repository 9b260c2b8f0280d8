/** Folds over events: the hours of a list of events, and how grouping
    events by a key shares out those hours. */
module Folds {
  import opened Events
  import opened Tally

  /** `[e.get_duration_hours() for e in es]` */
  function HoursList(es: seq<Event>): (r: seq<real>)
    ensures |r| == |es| && forall i :: 0 <= i < |es| ==> r[i] == Hours(es[i])
  {
    MapSeq(es, Hours)
  }

  /** `sum(e.get_duration_hours() for e in es)` */
  function SeqHours(es: seq<Event>): real {
    SumOf(es, Hours)
  }

  lemma SeqHoursAppend(es: seq<Event>, e: Event)
    ensures SeqHours(es + [e]) == SeqHours(es) + Hours(e)
  {
    SumOfConcat(es, [e], Hours);
    SumOfLast([e], Hours);
  }

  lemma SeqHoursLast(es: seq<Event>)
    requires |es| > 0
    ensures SeqHours(es) == SeqHours(es[..|es| - 1]) + Hours(es[|es| - 1])
  {
    SumOfLast(es, Hours);
  }

  /** The hours under a group key are the hours of the items with that key. */
  lemma GroupHoursAt(es: seq<Event>, keys: seq<string>, k: string)
    requires |es| == |keys| && k in Group(es, keys)
    ensures SeqHours(Group(es, keys)[k]) == SumReal(Filter(HoursList(es), keys, k))
  {
    GroupAt(es, keys);
    FilterMapSeq(es, keys, k, Hours);
  }

  /** Grouping neither loses nor adds hours: the groups' hours add up to the
      hours of all events. */
  lemma GroupHoursTotal(es: seq<Event>, keys: seq<string>)
    requires |es| == |keys|
    ensures MapSum(Group(es, keys), SeqHours) == SeqHours(es)
  {
    GroupSumTotal(es, keys, Hours, SeqHours);
  }

  lemma SeqHoursConcat(a: seq<Event>, b: seq<Event>)
    ensures SeqHours(a + b) == SeqHours(a) + SeqHours(b)
  {
    SumOfConcat(a, b, Hours);
  }

  lemma SeqHoursRepeat(e: Event, n: nat)
    ensures SeqHours(Replicate(e, n)) == Times(n, Hours(e))
  {
    var hs := HoursList(Replicate(e, n));
    SumConstant(hs, Hours(e));
  }

  /** `n * h` as `n` additions. */
  function Times(n: nat, h: real): real {
    if n == 0 then 0.0 else Times(n - 1, h) + h
  }

  lemma {:induction false} TimesIsProduct(n: nat, h: real)
    ensures Times(n, h) == n as real * h
  {
    if n > 0 {
      TimesIsProduct(n - 1, h);
      assert (n - 1) as real * h + h == n as real * h;
    }
  }

  /** A list of equal values sums to their number times the value. */
  lemma {:induction false} SumConstant(hs: seq<real>, h: real)
    requires forall i :: 0 <= i < |hs| ==> hs[i] == h
    ensures SumReal(hs) == Times(|hs|, h)
  {
    if |hs| > 0 {
      SumConstant(hs[..|hs| - 1], h);
    }
  }
}
