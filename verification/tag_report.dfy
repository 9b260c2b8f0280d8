/** `analyze_by_tags`: the work events (by the tag analysis'
    `is_work_relevant`) are grouped by their CATEGORIES tags, one entry per
    occurrence of a tag, and the untagged ones are set aside. Per tag the
    report gives the count, the hours, the months active and the first five
    events. */
module TagReport {
  import opened Text
  import opened Events
  import opened Rules
  import opened Relevance
  import opened Tally
  import opened Folds
  import opened Order

  predicate IsWork(e: Event) {
    TagWork(FactsOf(e))
  }

  /** `[e for e in events if is_work_relevant(e)]` */
  function WorkEvents(es: seq<Event>): seq<Event> {
    Keep(es, IsWork)
  }

  /** The tags of the events, one after another, as the loop visits them. */
  function TagKeys(es: seq<Event>): seq<string> {
    if |es| == 0 then [] else TagKeys(es[..|es| - 1]) + es[|es| - 1].categories
  }

  /** The event each visited tag belongs to. */
  function TagItems(es: seq<Event>): (r: seq<Event>)
    ensures |r| == |TagKeys(es)|
    ensures forall i :: 0 <= i < |r| ==> TagKeys(es)[i] in r[i].categories
  {
    if |es| == 0 then []
    else
      var n := |es| - 1;
      var front := TagItems(es[..n]);
      var e := es[n];
      var r := front + Replicate(e, |e.categories|);
      forall i | |front| <= i < |r|
        ensures TagKeys(es)[i] in r[i].categories
      {
        assert TagKeys(es)[i] == e.categories[i - |front|];
      }
      r
  }

  /** `by_tag` */
  function ByTag(work: seq<Event>): map<string, seq<Event>> {
    Group(TagItems(work), TagKeys(work))
  }

  /** `no_tag` */
  function NoTag(work: seq<Event>): (r: seq<Event>)
    ensures forall e :: e in r <==> e in work && e.categories == []
  {
    if |work| == 0 then []
    else
      var n := |work| - 1;
      var front := NoTag(work[..n]);
      assert forall e :: e in work <==> e in work[..n] || e == work[n] by {
        assert work == work[..n] + [work[n]];
      }
      if work[n].categories == [] then front + [work[n]] else front
  }

  /** One entry of a tag's `sample_events`. */
  datatype Sample = Sample(summary: string, organizer: string, hours: real)

  function SampleOf(e: Event): Sample {
    Sample(Take(e.summary, 80), e.organizerName, Hours(e))
  }

  datatype TagStats = TagStats(count: nat, hours: real, months: seq<string>, samples: seq<Sample>)

  /** `sorted(set(e.get_month() for e in tag_events if e.get_month()))` */
  function MonthsActive(group: seq<Event>): (r: seq<string>)
    ensures Ascending(r) && "" !in r
    ensures forall m :: m in r <==> m != "" && exists i :: 0 <= i < |group| && MonthText(group[i]) == m
  {
    var months := MapSeq(group, MonthText);
    assert forall m :: m in months <==> exists i :: 0 <= i < |group| && MonthText(group[i]) == m;
    SortedSet(NonEmpty(months))
  }

  function StatsOf(group: seq<Event>): (r: TagStats)
    ensures r.count == |group| && r.hours == SeqHours(group) && r.months == MonthsActive(group)
    ensures |r.samples| == (if |group| < 5 then |group| else 5)
    ensures forall j :: 0 <= j < |r.samples| ==> r.samples[j] == SampleOf(group[j])
  {
    TagStats(|group|, SeqHours(group), MonthsActive(group), MapSeq(First(group, 5), SampleOf))
  }

  datatype Result = Result(byTag: map<string, TagStats>, noTag: seq<Event>, work: seq<Event>)

  /** `analyze_by_tags` */
  function Analyze(es: seq<Event>): (r: Result)
    ensures r.work == WorkEvents(es) && r.noTag == NoTag(r.work)
  {
    var work := WorkEvents(es);
    var g := ByTag(work);
    Result(map t | t in g :: StatsOf(g[t]), NoTag(work), work)
  }

  /** How often `t` is listed over the events' tags, duplicates included. */
  function Occurrences(es: seq<Event>, t: string): nat {
    if |es| == 0 then 0 else Occurrences(es[..|es| - 1], t) + CountIn(es[|es| - 1].categories, t)
  }

  /** The hours of the events, each counted once per listing of `t`. */
  function WeightedHours(es: seq<Event>, t: string): real {
    if |es| == 0 then 0.0
    else WeightedHours(es[..|es| - 1], t) + Times(CountIn(es[|es| - 1].categories, t), Hours(es[|es| - 1]))
  }

  lemma {:induction false} KeysCountOccurrences(es: seq<Event>, t: string)
    ensures CountIn(TagKeys(es), t) == Occurrences(es, t)
  {
    if |es| > 0 {
      var n := |es| - 1;
      KeysCountOccurrences(es[..n], t);
      CountInAppend(TagKeys(es[..n]), es[n].categories, t);
    }
  }

  lemma {:induction false} FilterWeighted(es: seq<Event>, t: string)
    ensures SeqHours(Filter(TagItems(es), TagKeys(es), t)) == WeightedHours(es, t)
  {
    if |es| > 0 {
      var n := |es| - 1;
      var e := es[n];
      FilterWeighted(es[..n], t);
      FilterAppend(TagItems(es[..n]), TagKeys(es[..n]), Replicate(e, |e.categories|), e.categories, t);
      FilterReplicate(e, e.categories, t);
      SeqHoursConcat(Filter(TagItems(es[..n]), TagKeys(es[..n]), t), Replicate(e, CountIn(e.categories, t)));
      SeqHoursRepeat(e, CountIn(e.categories, t));
    }
  }

  /** A tag has an entry exactly when some work event lists it; its count is
      the number of listings over the work events, so a tag listed twice
      counts twice, and its hours weigh each event by its listings. */
  lemma TagTotals(es: seq<Event>, t: string)
    ensures var r, work := Analyze(es), WorkEvents(es);
      && (t in r.byTag <==> t in TagKeys(work))
      && (t in r.byTag ==> r.byTag[t].count == Occurrences(work, t) && r.byTag[t].hours == WeightedHours(work, t))
  {
    var work := WorkEvents(es);
    GroupAtKey(TagItems(work), TagKeys(work), t);
    KeysCountOccurrences(work, t);
    FilterWeighted(work, t);
  }

  /** Every event under a tag lists that tag; so an untagged work event is
      under no tag and only in `no_tag`. */
  lemma GroupsHoldTagged(work: seq<Event>, t: string, e: Event)
    requires t in ByTag(work) && e in ByTag(work)[t]
    ensures t in e.categories
  {
    var items, keys := TagItems(work), TagKeys(work);
    GroupAtKey(items, keys, t);
    FilterAtPositions(items, keys, t);
    var f := Filter(items, keys, t);
    var j :| 0 <= j < |f| && f[j] == e;
    var p := Positions(keys, t)[j];
    assert items[p] == e && keys[p] == t;
  }

  /** Months active per tag are ascending, free of repeats and of `""`, and
      are exactly the months of the tag's events. */
  lemma MonthsOfTag(es: seq<Event>, t: string)
    requires t in Analyze(es).byTag
    ensures var ms, g := Analyze(es).byTag[t].months, ByTag(WorkEvents(es))[t];
      && Ascending(ms) && "" !in ms
      && (forall i, j :: 0 <= i < j < |ms| ==> ms[i] != ms[j])
      && (forall m :: m in ms <==> m != "" && exists i :: 0 <= i < |g| && MonthText(g[i]) == m)
  {
    AscendingDistinct(Analyze(es).byTag[t].months);
  }

  /** The samples are the first five events under the tag, in visiting order. */
  lemma SamplesOfTag(es: seq<Event>, t: string)
    requires t in Analyze(es).byTag
    ensures var work := WorkEvents(es);
      var s, items, keys := Analyze(es).byTag[t].samples, TagItems(work), TagKeys(work);
      && |s| == (if CountIn(keys, t) < 5 then CountIn(keys, t) else 5)
      && forall j :: 0 <= j < |s| ==> s[j] == SampleOf(items[Positions(keys, t)[j]])
  {
    var work := WorkEvents(es);
    GroupAtKey(TagItems(work), TagKeys(work), t);
    FilterAtPositions(TagItems(work), TagKeys(work), t);
  }

  /** An empty CATEGORIES value decodes to one empty tag, so the event is
      tagged, under `""`, and not in `no_tag`. */
  lemma EmptyTagIsATag(e: Event)
    requires e.categories == [""] && IsWork(e)
    ensures var r := Analyze([e]);
      "" in r.byTag && r.byTag[""].count == 1 && e !in r.noTag
  {
    var work := WorkEvents([e]);
    assert work == [e];
    assert TagKeys(work) == [] + [""];
    TagTotals([e], "");
    assert Occurrences(work, "") == Occurrences([], "") + CountIn([""], "");
    assert CountIn([""], "") == CountIn([], "") + 1;
  }
}
