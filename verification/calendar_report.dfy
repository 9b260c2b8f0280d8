/** `analyze_calendar`: every event is labelled by `categorize_event`, the
    events are grouped by label, and the report gives per label the count,
    the hours and the first five events, with counts of the non-empty
    statuses and busy statuses beside. */
module CalendarReport {
  import opened Text
  import opened Scan
  import opened Events
  import opened Rules
  import opened Calendar
  import opened Tally
  import opened Folds

  function CategoryOf(e: Event): string {
    Categorize(FactsOf(e))
  }

  function StatusOf(e: Event): string {
    e.status
  }

  function BusyOf(e: Event): string {
    e.busyStatus
  }

  function CategoryKeys(es: seq<Event>): (r: seq<string>)
    ensures |r| == |es| && forall i :: 0 <= i < |es| ==> r[i] == CategoryOf(es[i])
  {
    MapSeq(es, CategoryOf)
  }

  /** `e.dtstart.split(':')[-1][:15] if e.dtstart else ''` */
  function StartText(dtstart: string): (r: string)
    ensures |r| <= 15 && !Contains(r, ":")
    ensures dtstart == "" ==> r == ""
  {
    if dtstart != "" then
      var last := LastPiece(dtstart, ":");
      LastPieceHasNoSep(dtstart, ":");
      NoSepInPrefix(last, Take(last, 15));
      Take(last, 15)
    else ""
  }

  lemma NoSepInPrefix(s: string, p: string)
    requires IsPrefix(p, s) && !Contains(s, ":")
    ensures !Contains(p, ":")
  {
    if Contains(p, ":") {
      var i :| 0 <= i <= |p| - 1 && OccursAt(p, ":", i);
      assert OccursAt(s, ":", i);
    }
  }

  /** A text ending in a colon has an empty last piece. */
  lemma {:induction false} LastPieceAfterColon(p: string)
    requires EndsWith(p, ':')
    ensures LastPiece(p, ":") == ""
    decreases |p|
  {
    assert OccursAt(p, ":", |p| - 1);
    match FirstOccurrence(p, ":", 0)
    case None =>
      assert false;
    case Some(i) =>
      var rest := p[i + 1..];
      if rest != "" {
        assert rest[|rest| - 1] == p[|p| - 1];
        LastPieceAfterColon(rest);
      }
  }

  /** The stored `NAME;PARAMS:value` of a start field gives back the first
      fifteen characters of its value, a compact date-time whole. */
  lemma StartOfField(head: string, value: string)
    requires ':' !in value
    ensures StartText(head + ":" + value) == Take(value, 15)
  {
    var p := head + ":";
    assert p + value == head + ":" + value;
    forall i | |p| < i + 1 <= |p| + |value|
      ensures !OccursAt(p + value, ":", i)
    {
      assert (p + value)[i] == value[i - |p|];
    }
    LastPieceAfterColon(p);
    LastPieceAppend(p, value, ":");
    assert "" + value == value;
  }

  /** One entry of `sample_events`. */
  datatype Sample = Sample(summary: string, start: string, hours: real, status: string, busy: string)

  function SampleOf(e: Event): Sample {
    Sample(Take(e.summary, 80), StartText(e.dtstart), Hours(e), e.status, e.busyStatus)
  }

  /** One entry of `by_category`. */
  datatype CategoryStats = CategoryStats(count: nat, hours: real, samples: seq<Sample>)

  datatype Report = Report(
    total: nat,
    byCategory: map<string, CategoryStats>,
    byStatus: map<string, nat>,
    byBusy: map<string, nat>,
    hoursByCategory: map<string, real>)

  /** `total_hours_by_category`: the hours fold over the labels. */
  function HoursByCategory(es: seq<Event>): (r: map<string, real>)
  {
    var t := TallyOf(CategoryKeys(es), HoursList(es));
    map c | c in t :: t[c].hours
  }

  /** The `by_category` entry of one group. */
  function Summarise(group: seq<Event>, hours: real): (r: CategoryStats)
    ensures r.count == |group| && r.hours == hours && |r.samples| <= 5 && |r.samples| <= |group|
    ensures forall j :: 0 <= j < |r.samples| ==> r.samples[j] == SampleOf(group[j])
  {
    CategoryStats(|group|, hours, MapSeq(First(group, 5), SampleOf))
  }

  /** `analyze_calendar`. */
  function Analyze(es: seq<Event>): (r: Report)
    ensures r.total == |es|
    ensures forall c :: c in r.byCategory ==> |r.byCategory[c].samples| <= 5
  {
    var groups := Group(es, CategoryKeys(es));
    var hours := HoursByCategory(es);
    var byCategory := map c | c in groups ::
      Summarise(groups[c], if c in hours then hours[c] else 0.0);
    Report(|es|, byCategory,
      Counts(NonEmpty(MapSeq(es, StatusOf))), Counts(NonEmpty(MapSeq(es, BusyOf))), hours)
  }

  /** A label has an entry exactly when some event gets it, and then it is
      one of `category_order`; the hours fold has the same labels. */
  lemma CategoryPresent(es: seq<Event>, c: string)
    ensures var r := Analyze(es);
      && (c in r.byCategory <==> exists i :: 0 <= i < |es| && CategoryOf(es[i]) == c)
      && (c in r.byCategory <==> c in r.hoursByCategory)
      && (c in r.byCategory ==> c in CategoryOrder)
  {
    var keys := CategoryKeys(es);
    GroupAtKey(es, keys, c);
    TallyAtKey(keys, HoursList(es), c);
    KeyIff(es, c);
  }

  lemma KeyIff(es: seq<Event>, c: string)
    ensures c in CategoryKeys(es) <==> exists i :: 0 <= i < |es| && CategoryOf(es[i]) == c
    ensures c in CategoryKeys(es) ==> c in CategoryOrder
  {
    var keys := CategoryKeys(es);
    if c in keys {
      var i :| 0 <= i < |keys| && keys[i] == c;
      assert CategoryOf(es[i]) == c;
    }
  }

  /** The entry counts the events with the label and sums their hours. */
  lemma CategoryTotals(es: seq<Event>, c: string)
    requires c in Analyze(es).byCategory
    ensures var keys, r := CategoryKeys(es), Analyze(es);
      && r.byCategory[c].count == CountIn(keys, c) >= 1
      && r.byCategory[c].hours == SeqHours(Filter(es, keys, c))
      && c in r.hoursByCategory && r.hoursByCategory[c] == r.byCategory[c].hours
  {
    var keys := CategoryKeys(es);
    CategoryCount(es, c);
    var h := Entry(es, c);
    TallyAtKey(keys, HoursList(es), c);
    FilterMapSeq(es, keys, c, Hours);
  }

  /** The entry of a label is its group summarised with its hours. */
  lemma Entry(es: seq<Event>, c: string) returns (h: real)
    requires c in Analyze(es).byCategory
    ensures c in HoursByCategory(es) && h == HoursByCategory(es)[c]
    ensures c in Analyze(es).hoursByCategory && Analyze(es).hoursByCategory[c] == h && Analyze(es).byCategory[c].hours == h
  {
    CategoryPresent(es, c);
    h := HoursByCategory(es)[c];
  }

  lemma CategoryCount(es: seq<Event>, c: string)
    requires c in Analyze(es).byCategory
    ensures Analyze(es).byCategory[c].count == CountIn(CategoryKeys(es), c) >= 1
  {
    var keys := CategoryKeys(es);
    GroupAtKey(es, keys, c);
    Present(keys, c);
  }

  /** The samples are the first five events with the label, in input order. */
  lemma CategorySamples(es: seq<Event>, c: string)
    requires c in Analyze(es).byCategory
    ensures var keys, r := CategoryKeys(es), Analyze(es);
      && |r.byCategory[c].samples| == (if CountIn(keys, c) < 5 then CountIn(keys, c) else 5)
      && forall j :: 0 <= j < |r.byCategory[c].samples| ==>
           r.byCategory[c].samples[j] == SampleOf(es[Positions(keys, c)[j]])
  {
    var keys := CategoryKeys(es);
    CategoryPresent(es, c);
    GroupAtKey(es, keys, c);
    FilterAtPositions(es, keys, c);
  }

  function CountOfCategory(s: CategoryStats): real {
    s.count as real
  }

  function HoursOfCategory(s: CategoryStats): real {
    s.hours
  }

  /** The per-label counts add up to `total_events`, and the per-label
      hours to the hours of all events. */
  lemma CategoriesAddUp(es: seq<Event>)
    ensures MapSum(Analyze(es).byCategory, CountOfCategory) == |es| as real
    ensures MapSum(Analyze(es).byCategory, HoursOfCategory) == SeqHours(es)
  {
    var keys := CategoryKeys(es);
    var groups := Group(es, keys);
    var r := Analyze(es);
    GroupTotal(es, keys);
    GroupHoursTotal(es, keys);
    EntriesMatchGroups(es);
    MapSumSame(r.byCategory, CountOfCategory, groups, LengthOf);
    MapSumSame(r.byCategory, HoursOfCategory, groups, SeqHours);
  }

  /** Each entry counts and times its group. */
  lemma EntriesMatchGroups(es: seq<Event>)
    ensures var r, groups := Analyze(es), Group(es, CategoryKeys(es));
      && r.byCategory.Keys == groups.Keys
      && (forall c :: c in r.byCategory ==> CountOfCategory(r.byCategory[c]) == LengthOf(groups[c]))
      && (forall c :: c in r.byCategory ==> HoursOfCategory(r.byCategory[c]) == SeqHours(groups[c]))
  {
    var keys := CategoryKeys(es);
    var r := Analyze(es);
    forall c | c in r.byCategory
      ensures CountOfCategory(r.byCategory[c]) == LengthOf(Group(es, keys)[c])
      ensures HoursOfCategory(r.byCategory[c]) == SeqHours(Group(es, keys)[c])
    {
      EntryMatchesGroup(es, c);
    }
  }

  lemma EntryMatchesGroup(es: seq<Event>, c: string)
    requires c in Analyze(es).byCategory
    ensures var keys := CategoryKeys(es);
      && c in Group(es, keys)
      && CountOfCategory(Analyze(es).byCategory[c]) == LengthOf(Group(es, keys)[c])
      && HoursOfCategory(Analyze(es).byCategory[c]) == SeqHours(Group(es, keys)[c])
  {
    var keys := CategoryKeys(es);
    GroupAt(es, keys);
    CategoryTotals(es, c);
    GroupHoursAt(es, keys, c);
  }

  /** Only non-empty statuses are counted, each as often as it occurs. */
  lemma StatusCounts(es: seq<Event>, s: string)
    ensures var r, statuses := Analyze(es), MapSeq(es, StatusOf);
      && (s in r.byStatus <==> s != "" && exists i :: 0 <= i < |es| && es[i].status == s)
      && (s in r.byStatus ==> r.byStatus[s] == CountIn(statuses, s))
    ensures var r, busy := Analyze(es), MapSeq(es, BusyOf);
      && (s in r.byBusy <==> s != "" && exists i :: 0 <= i < |es| && es[i].busyStatus == s)
      && (s in r.byBusy ==> r.byBusy[s] == CountIn(busy, s))
  {
    var statuses, busy := MapSeq(es, StatusOf), MapSeq(es, BusyOf);
    CountsAt(NonEmpty(statuses));
    CountsAt(NonEmpty(busy));
    assert s in statuses <==> exists i :: 0 <= i < |es| && es[i].status == s;
    assert s in busy <==> exists i :: 0 <= i < |es| && es[i].busyStatus == s;
  }
}
