/** `analyze_time_patterns`: the work events of the stakeholder analysis
    tallied, count and hours, by month, weekday, time of day, meeting type,
    attendee company and location bucket; counted by size bucket; and split
    into recurring and ad-hoc. */
module TimePatterns {
  import opened Events
  import opened Meetings
  import opened Organisation
  import opened Tally
  import opened Folds
  import opened Stakeholders

  /** A count-and-hours tally of the events by `key`. */
  function Tabulate(es: seq<Event>, key: Event -> string): map<string, Stat> {
    TallyOf(MapSeq(es, key), HoursList(es))
  }

  /** Under each key: the events with that key, counted and timed; and
      the counts add up to the number of events, the hours to their hours. */
  lemma TabulateFacts(es: seq<Event>, key: Event -> string, k: string)
    ensures var t, keys := Tabulate(es, key), MapSeq(es, key);
      && (k in t <==> exists i :: 0 <= i < |es| && key(es[i]) == k)
      && (k in t ==> t[k] == Stat(CountIn(keys, k), SumReal(Filter(HoursList(es), keys, k))))
      && MapSum(t, CountOf) == |es| as real && MapSum(t, HoursOf) == SeqHours(es)
  {
    var keys := MapSeq(es, key);
    TallyAtKey(keys, HoursList(es), k);
    TallyTotal(keys, HoursList(es));
  }

  /** The events with a month (`if month:`). */
  function Dated(es: seq<Event>): (r: seq<Event>)
    ensures |r| <= |es|
    ensures forall e :: e in r <==> e in es && MonthOf(e) != ""
  {
    if |es| == 0 then []
    else
      var n := |es| - 1;
      assert forall e :: e in es <==> e in es[..n] || e == es[n] by {
        assert es == es[..n] + [es[n]];
      }
      var front := Dated(es[..n]);
      if MonthOf(es[n]) != "" then front + [es[n]] else front
  }

  function LocationOf(e: Event): string {
    LocationBucket(e.location)
  }

  function SizeOf(e: Event): string {
    SizeBucket(|e.attendees|)
  }

  function CompanyOfAttendee(a: Attendee): string {
    Company(a.email)
  }

  /** The values of `xs` once each, first occurrence first: a Python set
      of them, whose iteration order the tally does not depend on. */
  function Distinct(xs: seq<string>): (r: seq<string>)
    ensures forall x :: x in r <==> x in xs
    ensures forall i, j :: 0 <= i < j < |r| ==> r[i] != r[j]
  {
    if |xs| == 0 then []
    else
      var n := |xs| - 1;
      assert forall x :: x in xs <==> x in xs[..n] || x == xs[n] by {
        assert xs == xs[..n] + [xs[n]];
      }
      var front := Distinct(xs[..n]);
      if xs[n] in front then front else front + [xs[n]]
  }

  /** A value listed without repeats is counted once or not at all. */
  lemma {:induction false} DistinctCount(r: seq<string>, k: string)
    requires forall i, j :: 0 <= i < j < |r| ==> r[i] != r[j]
    ensures CountIn(r, k) == if k in r then 1 else 0
  {
    if |r| > 0 {
      var n := |r| - 1;
      KeysStep(r, k);
      DistinctCount(r[..n], k);
      if k == r[n] {
        forall i | 0 <= i < n
          ensures r[..n][i] != k
        {
          assert r[..n][i] == r[i];
        }
      }
    }
  }

  /** `{extract_company_from_email(a['email']) for a in event.attendees}` */
  function CompaniesOf(e: Event): (r: seq<string>)
    ensures forall c :: c in r <==> exists i :: 0 <= i < |e.attendees| && Company(e.attendees[i].email) == c
    ensures forall i, j :: 0 <= i < j < |r| ==> r[i] != r[j]
    ensures |e.attendees| > 0 ==> |r| > 0
  {
    var cs := MapSeq(e.attendees, CompanyOfAttendee);
    assert |e.attendees| > 0 ==> cs[0] in cs;
    Distinct(cs)
  }

  /** The companies, event after event. */
  function CompanyKeys(es: seq<Event>): seq<string> {
    if |es| == 0 then [] else CompanyKeys(es[..|es| - 1]) + CompaniesOf(es[|es| - 1])
  }

  /** `duration / len(companies)`, once per company of the event. */
  function SharesOf(e: Event): (r: seq<real>)
    ensures |r| == |CompaniesOf(e)|
  {
    var n := |CompaniesOf(e)|;
    if n == 0 then [] else Replicate(Hours(e) / n as real, n)
  }

  function Shares(es: seq<Event>): (r: seq<real>)
    ensures |r| == |CompanyKeys(es)|
  {
    if |es| == 0 then [] else Shares(es[..|es| - 1]) + SharesOf(es[|es| - 1])
  }

  /** How many of the events have an attendee at company `k`. */
  function Reaching(es: seq<Event>, k: string): (r: nat)
    ensures r <= |es|
  {
    if |es| == 0 then 0 else Reaching(es[..|es| - 1], k) + (if k in CompaniesOf(es[|es| - 1]) then 1 else 0)
  }

  /** The share of an event's hours that goes to company `k`. */
  function ShareFor(e: Event, k: string): real {
    if k in CompaniesOf(e) then Hours(e) / |CompaniesOf(e)| as real else 0.0
  }

  /** The hours the events give company `k`. */
  function SharedHours(es: seq<Event>, k: string): real {
    if |es| == 0 then 0.0 else SharedHours(es[..|es| - 1], k) + ShareFor(es[|es| - 1], k)
  }

  /** `stats['by_company']` */
  function ByCompany(es: seq<Event>): map<string, Stat> {
    TallyOf(CompanyKeys(es), Shares(es))
  }

  lemma {:induction false} CompanyKeysCount(es: seq<Event>, k: string)
    ensures CountIn(CompanyKeys(es), k) == Reaching(es, k)
  {
    if |es| > 0 {
      var n := |es| - 1;
      CompanyKeysCount(es[..n], k);
      CountInAppend(CompanyKeys(es[..n]), CompaniesOf(es[n]), k);
      DistinctCount(CompaniesOf(es[n]), k);
    }
  }

  lemma ShareAt(e: Event, k: string)
    ensures SumReal(Filter(SharesOf(e), CompaniesOf(e), k)) == ShareFor(e, k)
  {
    var cs := CompaniesOf(e);
    DistinctCount(cs, k);
    if |cs| > 0 {
      FilterReplicate(Hours(e) / |cs| as real, cs, k);
      if k in cs {
        assert Replicate(Hours(e) / |cs| as real, 1)[..0] == [];
      }
    } else {
      assert Filter(SharesOf(e), cs, k) == [];
    }
  }

  lemma {:induction false} CompanySharesAt(es: seq<Event>, k: string)
    ensures SumReal(Filter(Shares(es), CompanyKeys(es), k)) == SharedHours(es, k)
  {
    if |es| > 0 {
      var n := |es| - 1;
      var hs, keys := Shares(es[..n]), CompanyKeys(es[..n]);
      var more, cs := SharesOf(es[n]), CompaniesOf(es[n]);
      assert Shares(es) == hs + more && CompanyKeys(es) == keys + cs;
      assert SharedHours(es, k) == SharedHours(es[..n], k) + ShareFor(es[n], k);
      CompanySharesAt(es[..n], k);
      FilterAppend(hs, keys, more, cs, k);
      SumRealAppend(Filter(hs, keys, k), Filter(more, cs, k));
      ShareAt(es[n], k);
    }
  }

  /** A company is listed exactly when some event has an attendee there;
      its count is the number of such events (an event with three attendees
      at one company counts once) and its hours are those events' shares. */
  lemma CompanyFacts(es: seq<Event>, k: string)
    ensures k in ByCompany(es) <==> Reaching(es, k) > 0
    ensures k in ByCompany(es) ==> ByCompany(es)[k] == Stat(Reaching(es, k), SharedHours(es, k))
  {
    TallyAtKey(CompanyKeys(es), Shares(es), k);
    CompanyKeysCount(es, k);
    CompanySharesAt(es, k);
    if k in CompanyKeys(es) {
      Present(CompanyKeys(es), k);
    } else {
      Absent(CompanyKeys(es), k);
    }
  }

  /** `n` equal shares of `h` add back up to `h`. */
  lemma EqualShares(n: nat, h: real)
    requires n > 0
    ensures SumReal(Replicate(h / n as real, n)) == h
  {
    SumConstant(Replicate(h / n as real, n), h / n as real);
    TimesIsProduct(n, h / n as real);
  }

  /** The equal shares of one event add back up to its hours. */
  lemma SharesSum(e: Event)
    requires |e.attendees| > 0
    ensures SumReal(SharesOf(e)) == Hours(e)
  {
    EqualShares(|CompaniesOf(e)|, Hours(e));
  }

  lemma {:induction false} SharesTotal(es: seq<Event>)
    requires forall i :: 0 <= i < |es| ==> |es[i].attendees| > 0
    ensures SumReal(Shares(es)) == SeqHours(es)
  {
    if |es| > 0 {
      var n := |es| - 1;
      assert forall i :: 0 <= i < n ==> es[..n][i] == es[i];
      SharesTotal(es[..n]);
      SharesStep(es);
      SeqHoursLast(es);
    }
  }

  lemma SharesStep(es: seq<Event>)
    requires |es| > 0 && |es[|es| - 1].attendees| > 0
    ensures SumReal(Shares(es)) == SumReal(Shares(es[..|es| - 1])) + Hours(es[|es| - 1])
  {
    var n := |es| - 1;
    var a, b := Shares(es[..n]), SharesOf(es[n]);
    assert Shares(es) == a + b;
    SumRealAppend(a, b);
    SharesSum(es[n]);
  }

  /** Splitting each event's hours over its companies loses nothing when
      every event has an attendee, as every work event does. */
  lemma CompanyHoursTotal(es: seq<Event>)
    requires forall i :: 0 <= i < |es| ==> |es[i].attendees| > 0
    ensures MapSum(ByCompany(es), HoursOf) == SeqHours(es)
  {
    TallyTotal(CompanyKeys(es), Shares(es));
    SharesTotal(es);
  }

  /** `stats['recurring_vs_adhoc']` */
  datatype Split = Split(recurring: nat, adhoc: nat, recurringHours: real, adhocHours: real)

  /** `stats['recurring_vs_adhoc']`, from each event's recurrence flag and
      hours in input order. */
  function SplitOf(flags: seq<bool>, hs: seq<real>): (r: Split)
    requires |flags| == |hs|
    ensures r.recurring + r.adhoc == |flags|
    ensures r.recurringHours + r.adhocHours == SumReal(hs)
  {
    if |flags| == 0 then Split(0, 0, 0.0, 0.0)
    else
      var n := |flags| - 1;
      var s := SplitOf(flags[..n], hs[..n]);
      assert hs == hs[..n] + [hs[n]];
      SumRealAppend(hs[..n], [hs[n]]);
      if flags[n] then Split(s.recurring + 1, s.adhoc, s.recurringHours + hs[n], s.adhocHours)
      else Split(s.recurring, s.adhoc + 1, s.recurringHours, s.adhocHours + hs[n])
  }

  function IsRecurring(e: Event): bool {
    e.isRecurring
  }

  /** The split of a list of events. */
  function SplitEvents(es: seq<Event>): (r: Split)
    ensures r.recurring + r.adhoc == |es|
    ensures r.recurringHours + r.adhocHours == SeqHours(es)
  {
    SplitOf(MapSeq(es, IsRecurring), HoursList(es))
  }

  /** The key of one side of the split. */
  function KindName(recurring: bool): string {
    if recurring then "recurring" else "adhoc"
  }

  function Recurrence(e: Event): string {
    KindName(e.isRecurring)
  }

  /** The count and the hours of one side of the split. */
  function CountSide(r: Split, recurring: bool): nat {
    if recurring then r.recurring else r.adhoc
  }

  function HoursSide(r: Split, recurring: bool): real {
    if recurring then r.recurringHours else r.adhocHours
  }

  /** The split of the events is a count-and-hours tally by recurrence,
      with both keys always present. */
  lemma SplitIsTally(es: seq<Event>)
    ensures var r, kinds := SplitEvents(es), MapSeq(es, Recurrence);
      && r.recurring == CountIn(kinds, "recurring") && r.adhoc == CountIn(kinds, "adhoc")
      && r.recurringHours == SumReal(Filter(HoursList(es), kinds, "recurring"))
      && r.adhocHours == SumReal(Filter(HoursList(es), kinds, "adhoc"))
  {
    var flags := MapSeq(es, IsRecurring);
    assert MapSeq(flags, KindName) == MapSeq(es, Recurrence);
    SplitCount(flags, HoursList(es), true);
    SplitCount(flags, HoursList(es), false);
    SplitHours(flags, HoursList(es), true);
    SplitHours(flags, HoursList(es), false);
  }

  lemma KindsDiffer(a: bool, b: bool)
    ensures KindName(a) == KindName(b) <==> a == b
  {
    assert "recurring"[0] != "adhoc"[0];
  }

  /** Either side's count is the number of flags naming that side. */
  lemma {:induction false} SplitCount(flags: seq<bool>, hs: seq<real>, recurring: bool)
    requires |flags| == |hs|
    ensures CountSide(SplitOf(flags, hs), recurring) == CountIn(MapSeq(flags, KindName), KindName(recurring))
  {
    if |flags| > 0 {
      var n := |flags| - 1;
      SplitCount(flags[..n], hs[..n], recurring);
      var kinds := MapSeq(flags[..n], KindName);
      assert MapSeq(flags, KindName) == kinds + [KindName(flags[n])];
      CountInLast(kinds, KindName(flags[n]), KindName(recurring));
      KindsDiffer(flags[n], recurring);
    }
  }

  /** Either side's hours are the sum of the hours whose flag names that side. */
  lemma {:induction false} SplitHours(flags: seq<bool>, hs: seq<real>, recurring: bool)
    requires |flags| == |hs|
    ensures HoursSide(SplitOf(flags, hs), recurring) == SumReal(Filter(hs, MapSeq(flags, KindName), KindName(recurring)))
  {
    if |flags| > 0 {
      var n := |flags| - 1;
      SplitHours(flags[..n], hs[..n], recurring);
      SplitLast(flags, hs, recurring);
      var kinds := MapSeq(flags[..n], KindName);
      assert MapSeq(flags, KindName) == kinds + [KindName(flags[n])];
      assert hs == hs[..n] + [hs[n]];
      FilterSumLast(hs[..n], kinds, hs[n], KindName(flags[n]), KindName(recurring));
      KindsDiffer(flags[n], recurring);
    }
  }

  /** One more event adds its hours to its own side only. */
  lemma SplitLast(flags: seq<bool>, hs: seq<real>, recurring: bool)
    requires |flags| == |hs| && |flags| > 0
    ensures var n := |flags| - 1;
      HoursSide(SplitOf(flags, hs), recurring)
      == HoursSide(SplitOf(flags[..n], hs[..n]), recurring) + (if flags[n] == recurring then hs[n] else 0.0)
  {
  }

  datatype Patterns = Patterns(
    byMonth: map<string, Stat>, byDay: map<string, Stat>, byTime: map<string, Stat>,
    byType: map<string, Stat>, byCompany: map<string, Stat>, byLocation: map<string, Stat>,
    sizes: map<string, nat>, recurrence: Split)

  /** `analyze_time_patterns` */
  function Analyze(es: seq<Event>): (r: Patterns)
    ensures r.recurrence.recurring + r.recurrence.adhoc == |WorkEvents(es)|
  {
    var work := WorkEvents(es);
    var dated := Dated(work);
    Patterns(
      Tabulate(dated, MonthOf), Tabulate(work, WeekdayOf), Tabulate(work, TimeOfDay),
      Tabulate(work, TypeOf), ByCompany(work), Tabulate(work, LocationOf),
      Counts(MapSeq(work, SizeOf)), SplitEvents(work))
  }

  /** Every work event is counted once by weekday, by time of day, by
      meeting type, by location and by size, and its hours once in each
      tally including the company split; the month tally counts the events
      that have a date. */
  lemma PatternTotals(es: seq<Event>)
    ensures var r, work := Analyze(es), WorkEvents(es);
      && MapSum(r.byDay, CountOf) == |work| as real && MapSum(r.byDay, HoursOf) == SeqHours(work)
      && MapSum(r.byTime, CountOf) == |work| as real && MapSum(r.byTime, HoursOf) == SeqHours(work)
      && MapSum(r.byType, CountOf) == |work| as real && MapSum(r.byType, HoursOf) == SeqHours(work)
      && MapSum(r.byLocation, CountOf) == |work| as real && MapSum(r.byLocation, HoursOf) == SeqHours(work)
      && MapSum(r.sizes, NatOf) == |work| as real
      && MapSum(r.byCompany, HoursOf) == SeqHours(work)
      && MapSum(r.byMonth, CountOf) == |Dated(work)| as real
  {
    var work := WorkEvents(es);
    TabulateFacts(work, WeekdayOf, "");
    TabulateFacts(work, TimeOfDay, "");
    TabulateFacts(work, TypeOf, "");
    TabulateFacts(work, LocationOf, "");
    TabulateFacts(Dated(work), MonthOf, "");
    CountsTotal(MapSeq(work, SizeOf));
    forall i | 0 <= i < |work|
      ensures |work[i].attendees| > 0
    {
      assert work[i] in work;
      WorkHasAttendees(work[i]);
    }
    CompanyHoursTotal(work);
  }

  /** The keys of each tally are drawn from its fixed list of names. */
  lemma PatternKeys(es: seq<Event>)
    ensures var r := Analyze(es);
      && (forall k :: k in r.byType ==> k in MeetingTypes)
      && (forall k :: k in r.byLocation ==> k in LocationNames)
      && (forall k :: k in r.sizes ==> k in SizeNames)
      && (forall k :: k in r.byMonth ==> |k| == 7)
  {
    var work := WorkEvents(es);
    TypesNamed(work);
    LocationsNamed(work);
    SizesNamed(work);
    MonthsNamed(Dated(work));
    NoEmptyMonth(work);
  }

  lemma TypesNamed(es: seq<Event>)
    ensures forall k :: k in Tabulate(es, TypeOf) ==> k in MeetingTypes
  {
    forall k | k in Tabulate(es, TypeOf)
      ensures k in MeetingTypes
    {
      TabulateFacts(es, TypeOf, k);
    }
  }

  lemma LocationsNamed(es: seq<Event>)
    ensures forall k :: k in Tabulate(es, LocationOf) ==> k in LocationNames
  {
    forall k | k in Tabulate(es, LocationOf)
      ensures k in LocationNames
    {
      TabulateFacts(es, LocationOf, k);
    }
  }

  lemma SizesNamed(es: seq<Event>)
    ensures forall k :: k in Counts(MapSeq(es, SizeOf)) ==> k in SizeNames
  {
    CountsAt(MapSeq(es, SizeOf));
    forall k | k in Counts(MapSeq(es, SizeOf))
      ensures k in SizeNames
    {
      var i :| 0 <= i < |es| && MapSeq(es, SizeOf)[i] == k;
    }
  }

  lemma MonthsNamed(es: seq<Event>)
    ensures forall k :: k in Tabulate(es, MonthOf) ==> k == "" || |k| == 7
  {
    forall k | k in Tabulate(es, MonthOf)
      ensures k == "" || |k| == 7
    {
      TabulateFacts(es, MonthOf, k);
    }
  }

  /** The month tally skips undated events: no key is empty. */
  lemma {:induction false} NoEmptyMonth(es: seq<Event>)
    ensures "" !in Tabulate(Dated(es), MonthOf)
  {
    var d := Dated(es);
    TabulateFacts(d, MonthOf, "");
    forall i | 0 <= i < |d|
      ensures MonthOf(d[i]) != ""
    {
      assert d[i] in d;
    }
  }
}
