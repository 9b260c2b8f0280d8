/** The statistics of the final analysis: every event is labelled by
    `categorize_event_final`, the events are grouped by label, the groups
    are split into work and excluded by `is_work_relevant_final`, and the
    exported `by_category` lists every group with its count, hours, work
    flag and first five events. */
module FinalReport {
  import opened Text
  import opened Events
  import opened Rules
  import Final
  import opened Tally
  import opened Folds

  function FinalOf(e: Event): string {
    Final.Final(FactsOf(e))
  }

  function FinalKeys(es: seq<Event>): (r: seq<string>)
    ensures |r| == |es| && forall i :: 0 <= i < |es| ==> r[i] == FinalOf(es[i]) && r[i] in Final.FinalLabels
  {
    MapSeq(es, FinalOf)
  }

  /** `categorized`: the events of each label, in input order. */
  function Categorized(es: seq<Event>): map<string, seq<Event>> {
    Group(es, FinalKeys(es))
  }

  /** The labels of a list that `is_work_relevant_final` keeps (`work`) or
      rejects (`!work`), in list order. */
  function Select(labels: seq<string>, work: bool): (r: seq<string>)
    ensures forall c :: c in r <==> c in labels && Final.WorkRelevant(c) == work
  {
    if |labels| == 0 then []
    else
      var rest := Select(labels[1..], work);
      forall c
        ensures c in labels <==> c == labels[0] || c in labels[1..]
      {
        if c in labels {
          var i :| 0 <= i < |labels| && labels[i] == c;
          if i > 0 {
            assert labels[1..][i - 1] == c;
          }
        }
      }
      if Final.WorkRelevant(labels[0]) == work then [labels[0]] + rest else rest
  }

  /** The keys of `categorized` that count as work (`work_categories`). */
  ghost function WorkKeys(g: map<string, seq<Event>>): set<string> {
    set c | c in g && Final.WorkRelevant(c)
  }

  /** The `summary` block of the export. */
  datatype Summary = Summary(total: nat, workEvents: nat, workHours: real, excludedEvents: nat, excludedHours: real)

  /** The sums over the work and the excluded labels. Every label of
      `categorized` is one of the nineteen, so walking the nineteen labels
      and skipping the absent ones visits exactly the dictionary's keys. */
  function Summarize(es: seq<Event>): (r: Summary)
    ensures r.total == |es|
  {
    var g := Categorized(es);
    var work, excluded := Select(Final.FinalLabels, true), Select(Final.FinalLabels, false);
    Summary(|es|, CountOver(g, work), SumOver(g, work, SeqHours), CountOver(g, excluded), SumOver(g, excluded, SeqHours))
  }

  /** Every key of `categorized` is one of the nineteen labels. */
  lemma KeysKnown(es: seq<Event>)
    ensures forall c :: c in Categorized(es) ==> c in Final.FinalLabels
  {
    GroupAt(es, FinalKeys(es));
  }

  /** Selecting from the nineteen labels selects the same keys as the
      script's filters over the keys of `categorized`. */
  lemma SelectMatchesKeys(g: map<string, seq<Event>>, labels: seq<string>)
    requires forall c :: c in g ==> c in labels
    ensures Restrict(g, set l | l in Select(labels, true)) == Restrict(g, WorkKeys(g))
    ensures Restrict(g, set l | l in Select(labels, false)) == Drop(g, WorkKeys(g))
  {
  }

  /** Walking the nineteen labels gives the script's sums over the keys of
      `categorized` filtered by `is_work_relevant_final`. */
  lemma SummaryIsKeySum(es: seq<Event>)
    ensures var g, r := Categorized(es), Summarize(es);
      && r.workEvents as real == MapSum(Restrict(g, WorkKeys(g)), LengthOf)
      && r.workHours == MapSum(Restrict(g, WorkKeys(g)), SeqHours)
      && r.excludedEvents as real == MapSum(Drop(g, WorkKeys(g)), LengthOf)
      && r.excludedHours == MapSum(Drop(g, WorkKeys(g)), SeqHours)
  {
    var g := Categorized(es);
    var work, excluded := Select(Final.FinalLabels, true), Select(Final.FinalLabels, false);
    KeysKnown(es);
    SelectMatchesKeys(g, Final.FinalLabels);
    SumOverIsMapSum(g, work, LengthOf);
    SumOverIsMapSum(g, work, SeqHours);
    SumOverIsMapSum(g, excluded, LengthOf);
    SumOverIsMapSum(g, excluded, SeqHours);
  }

  /** Work and excluded events together are all events, and their hours
      together are the hours of all events. */
  lemma SummaryAddsUp(es: seq<Event>)
    ensures var r := Summarize(es);
      && r.workEvents + r.excludedEvents == |es|
      && r.workHours + r.excludedHours == SeqHours(es)
  {
    var g := Categorized(es);
    SummaryIsKeySum(es);
    MapSumSplit(g, LengthOf, WorkKeys(g));
    MapSumSplit(g, SeqHours, WorkKeys(g));
    GroupTotal(es, FinalKeys(es));
    GroupHoursTotal(es, FinalKeys(es));
  }

  /** `categorized[k]` on a `defaultdict(list)`: reading a missing label
      inserts it with no events. */
  function Touch(g: map<string, seq<Event>>, k: string): (r: map<string, seq<Event>>)
    ensures r.Keys == g.Keys + {k}
    ensures forall c :: c in g ==> r[c] == g[c]
    ensures k !in g ==> r[k] == []
  {
    if k in g then g else g[k := []]
  }

  /** One entry of an exported `sample_events`. */
  datatype Sample = Sample(summary: string, hours: real)

  function SampleOf(e: Event): Sample {
    Sample(Take(e.summary, 80), Hours(e))
  }

  /** One entry of the exported `by_category`. */
  datatype Entry = Entry(count: nat, hours: real, isWork: bool, samples: seq<Sample>)

  function EntryOf(c: string, group: seq<Event>): (r: Entry)
    ensures r.count == |group| && r.hours == SeqHours(group) && r.isWork == Final.WorkRelevant(c)
    ensures |r.samples| == (if |group| < 5 then |group| else 5)
    ensures forall j :: 0 <= j < |r.samples| ==> r.samples[j] == SampleOf(group[j])
  {
    Entry(|group|, SeqHours(group), Final.WorkRelevant(c), MapSeq(First(group, 5), SampleOf))
  }

  /** The exported `by_category`, after the report has read the
      `non_meetings_excluded` and `uncategorized` groups. */
  function Exported(es: seq<Event>): (r: map<string, Entry>)
    ensures "non_meetings_excluded" in r && "uncategorized" in r
  {
    var g := Touch(Touch(Categorized(es), "non_meetings_excluded"), "uncategorized");
    map c | c in g :: EntryOf(c, g[c])
  }

  /** A label is exported when some event has it or it is one of the two
      labels read before the export; its entry counts and sums exactly the
      events with that label, zero for a label no event has. */
  lemma ExportedAt(es: seq<Event>, c: string)
    ensures var keys, r := FinalKeys(es), Exported(es);
      && (c in r <==> c in keys || c == "non_meetings_excluded" || c == "uncategorized")
      && (c in r ==>
        && r[c].count == CountIn(keys, c)
        && r[c].hours == SeqHours(Filter(es, keys, c))
        && r[c].isWork == Final.WorkRelevant(c))
  {
    var keys := FinalKeys(es);
    GroupAtKey(es, keys, c);
    if c !in keys {
      Absent(keys, c);
      assert Filter(es, keys, c) == [];
    }
  }
}
