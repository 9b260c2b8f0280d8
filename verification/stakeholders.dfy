/** `analyze_stakeholders`: over the work events (the stakeholder
    analysis' `is_work_relevant`), every attendee other than the viewer is
    a contact, keyed by display name or else address, with how often and
    how long they met, in which role the viewer was, the companies of their
    addresses, the meeting types and the months. Organizers other than the
    viewer are tallied apart. The viewer is a parameter: their address, the
    local part of which marks their own attendee entries. */
module Stakeholders {
  import opened Wrappers
  import opened Text
  import opened Events
  import opened Rules
  import opened Relevance
  import opened Meetings
  import opened Organisation
  import opened Tally
  import opened Folds

  predicate IsWork(e: Event) {
    StakeholderWork(FactsOf(e))
  }

  /** `[e for e in events if is_work_relevant(e)]` */
  function WorkEvents(es: seq<Event>): seq<Event> {
    Keep(es, IsWork)
  }

  /** Every work event has an attendee. */
  lemma WorkHasAttendees(e: Event)
    requires IsWork(e)
    ensures |e.attendees| > 0
  {
    assert !Holds(StakeholderExclusions[0], FactsOf(e));
  }

  function TypeOf(e: Event): string {
    MeetingType(FactsOf(e))
  }

  /** `'daniel.moreira' in email.lower()`: the viewer's own entry. */
  predicate IsSelf(viewer: string, a: Attendee) {
    Contains(Lower(a.email), Before(viewer, '@'))
  }

  /** `name if name else email` */
  function KeyOf(a: Attendee): string {
    match a.name
    case Some(n) => if n != "" then n else a.email
    case None => a.email
  }

  /** One attendee of one work event. */
  datatype Visit = Visit(event: Event, attendee: Attendee)

  /** The attendees of `e` among `as_` other than the viewer, in order. */
  function Guests(viewer: string, e: Event, as_: seq<Attendee>): (r: seq<Visit>)
    ensures forall i :: 0 <= i < |r| ==> r[i].event == e && r[i].attendee in as_ && !IsSelf(viewer, r[i].attendee)
    ensures forall a :: a in as_ && !IsSelf(viewer, a) ==> Visit(e, a) in r
  {
    if |as_| == 0 then []
    else
      var n := |as_| - 1;
      var front := Guests(viewer, e, as_[..n]);
      assert forall a :: a in as_ ==> a in as_[..n] || a == as_[n] by {
        assert as_ == as_[..n] + [as_[n]];
      }
      if IsSelf(viewer, as_[n]) then front else front + [Visit(e, as_[n])]
  }

  /** The visits the attendee loop makes, event after event. */
  function Visits(viewer: string, es: seq<Event>): (r: seq<Visit>)
    ensures forall i :: 0 <= i < |r| ==>
      r[i].event in es && r[i].attendee in r[i].event.attendees && !IsSelf(viewer, r[i].attendee)
    ensures forall e, a :: e in es && a in e.attendees && !IsSelf(viewer, a) ==> Visit(e, a) in r
  {
    if |es| == 0 then []
    else
      var n := |es| - 1;
      var front := Visits(viewer, es[..n]);
      var more := Guests(viewer, es[n], es[n].attendees);
      assert forall e :: e in es ==> e in es[..n] || e == es[n] by {
        assert es == es[..n] + [es[n]];
      }
      var r := front + more;
      forall i | 0 <= i < |r|
        ensures r[i].event in es && r[i].attendee in r[i].event.attendees && !IsSelf(viewer, r[i].attendee)
      {
        if i >= |front| {
          assert r[i] == more[i - |front|];
        }
      }
      r
  }

  /** What the attendee loop reads of one visit: the contact's key and
      company, and the event's hours, meeting type and month, and whether
      the viewer organised it. */
  datatype Sighting = Sighting(key: string, company: string, hours: real, kind: string, month: string, mine: bool)

  function Sight(viewer: string, v: Visit): Sighting {
    Sighting(KeyOf(v.attendee), Company(v.attendee.email), Hours(v.event), TypeOf(v.event),
             MonthOf(v.event), v.event.organizer == viewer)
  }

  function Sightings(viewer: string, vs: seq<Visit>): (r: seq<Sighting>)
    ensures |r| == |vs| && forall i :: 0 <= i < |vs| ==> r[i] == Sight(viewer, vs[i])
  {
    MapSeq(vs, v => Sight(viewer, v))
  }

  function KeyOfSighting(s: Sighting): string {
    s.key
  }

  function HoursOfSighting(s: Sighting): real {
    s.hours
  }

  function KindOf(s: Sighting): string {
    s.kind
  }

  /** What `stakeholder_meetings[key]` holds. */
  datatype Contact = Contact(
    count: nat, hours: real, asOrganizer: nat, asAttendee: nat,
    companies: set<string>, types: map<string, nat>, months: set<string>)

  const NoContact := Contact(0, 0.0, 0, 0, {}, map[], {})

  /** The body of the attendee loop for one visit. */
  function Meet(c: Contact, s: Sighting): Contact {
    Contact(
      c.count + 1, c.hours + s.hours,
      if s.mine then c.asOrganizer + 1 else c.asOrganizer,
      if s.mine then c.asAttendee else c.asAttendee + 1,
      c.companies + {s.company},
      c.types[s.kind := (if s.kind in c.types then c.types[s.kind] else 0) + 1],
      if s.month != "" then c.months + {s.month} else c.months)
  }

  /** `stakeholder_meetings` after the given visits. */
  function Contacts(ss: seq<Sighting>): map<string, Contact> {
    if |ss| == 0 then map[]
    else
      var m := Contacts(ss[..|ss| - 1]);
      var s := ss[|ss| - 1];
      m[s.key := Meet(if s.key in m then m[s.key] else NoContact, s)]
  }

  /** How many of the visits are to events the viewer organised. */
  function Organised(ss: seq<Sighting>): (r: nat)
    ensures r <= |ss|
  {
    if |ss| == 0 then 0
    else Organised(ss[..|ss| - 1]) + (if ss[|ss| - 1].mine then 1 else 0)
  }

  /** One contact's record built from its visits alone. */
  function Replay(ss: seq<Sighting>): (r: Contact)
    ensures r.count == |ss| && r.asOrganizer + r.asAttendee == |ss|
    ensures r.asOrganizer == Organised(ss)
    ensures r.hours == SumReal(MapSeq(ss, HoursOfSighting))
  {
    if |ss| == 0 then NoContact
    else
      var n := |ss| - 1;
      assert MapSeq(ss, HoursOfSighting)[..n] == MapSeq(ss[..n], HoursOfSighting);
      Meet(Replay(ss[..n]), ss[n])
  }

  /** The companies and months a replay collects. */
  lemma ReplaySets(ss: seq<Sighting>)
    ensures var r := Replay(ss);
      && (forall c :: c in r.companies <==> exists i :: 0 <= i < |ss| && ss[i].company == c)
      && (forall m :: m in r.months <==> m != "" && exists i :: 0 <= i < |ss| && ss[i].month == m)
  {
    forall c {
      ReplayCompanies(ss, c);
    }
    forall m {
      ReplayMonths(ss, m);
    }
  }

  lemma {:induction false} ReplayCompanies(ss: seq<Sighting>, c: string)
    ensures c in Replay(ss).companies <==> exists i :: 0 <= i < |ss| && ss[i].company == c
  {
    if |ss| > 0 {
      var n := |ss| - 1;
      var front := ss[..n];
      ReplayCompanies(front, c);
      assert Replay(ss).companies == Replay(front).companies + {ss[n].company};
      if exists i :: 0 <= i < |ss| && ss[i].company == c {
        var i :| 0 <= i < |ss| && ss[i].company == c;
        if i < n {
          assert front[i] == ss[i];
        }
      }
      if c in Replay(front).companies {
        var i :| 0 <= i < n && front[i].company == c;
        assert ss[i] == front[i];
      }
    }
  }

  lemma {:induction false} ReplayMonths(ss: seq<Sighting>, m: string)
    ensures m in Replay(ss).months <==> m != "" && exists i :: 0 <= i < |ss| && ss[i].month == m
  {
    if |ss| > 0 {
      var n := |ss| - 1;
      var front := ss[..n];
      ReplayMonths(front, m);
      var month := ss[n].month;
      assert Replay(ss).months == if month != "" then Replay(front).months + {month} else Replay(front).months;
      if m != "" && exists i :: 0 <= i < |ss| && ss[i].month == m {
        var i :| 0 <= i < |ss| && ss[i].month == m;
        if i < n {
          assert front[i] == ss[i];
        }
      }
      if m in Replay(front).months {
        var i :| 0 <= i < n && front[i].month == m;
        assert ss[i] == front[i];
      }
    }
  }

  /** The meeting types a replay tallies are a plain count of the types. */
  lemma {:induction false} ReplayTypes(ss: seq<Sighting>)
    ensures Replay(ss).types == Counts(MapSeq(ss, KindOf))
  {
    if |ss| > 0 {
      var n := |ss| - 1;
      ReplayTypes(ss[..n]);
      assert MapSeq(ss, KindOf)[..n] == MapSeq(ss[..n], KindOf);
    }
  }

  /** Each contact's record is the replay of that contact's visits alone:
      the fold keeps keys apart. */
  lemma {:induction false} ContactsAtKey(ss: seq<Sighting>, k: string)
    ensures k in Contacts(ss) <==> k in MapSeq(ss, KeyOfSighting)
    ensures k in Contacts(ss) ==> Contacts(ss)[k] == Replay(Filter(ss, MapSeq(ss, KeyOfSighting), k))
  {
    if |ss| > 0 {
      ContactsAtKey(ss[..|ss| - 1], k);
      ContactsStep(ss, k);
    }
  }

  /** One more visit keeps every contact's record the replay of its visits. */
  lemma ContactsStep(ss: seq<Sighting>, k: string)
    requires |ss| > 0
    requires var front := ss[..|ss| - 1];
      && (k in Contacts(front) <==> k in MapSeq(front, KeyOfSighting))
      && (k in Contacts(front) ==> Contacts(front)[k] == Replay(Filter(front, MapSeq(front, KeyOfSighting), k)))
    ensures k in Contacts(ss) <==> k in MapSeq(ss, KeyOfSighting)
    ensures k in Contacts(ss) ==> Contacts(ss)[k] == Replay(Filter(ss, MapSeq(ss, KeyOfSighting), k))
  {
    var n := |ss| - 1;
    var keys := MapSeq(ss, KeyOfSighting);
    assert keys[..n] == MapSeq(ss[..n], KeyOfSighting);
    KeysStep(keys, k);
    var front := Filter(ss[..n], keys[..n], k);
    var m := Contacts(ss[..n]);
    if k == keys[n] {
      if k !in keys[..n] {
        Absent(keys[..n], k);
      }
      assert Filter(ss, keys, k) == front + [ss[n]];
      ReplayLast(front, ss[n]);
    } else {
      assert Filter(ss, keys, k) == front;
    }
  }

  lemma ReplayLast(ss: seq<Sighting>, s: Sighting)
    ensures Replay(ss + [s]) == Meet(Replay(ss), s)
  {
    assert (ss + [s])[..|ss|] == ss;
  }

  /** What is known of every contact: one entry per visit, each visit
      counted once as organised by the viewer or as attended, the companies
      and months of those visits, and the meeting types tallied to the same
      total. */
  lemma ContactFacts(ss: seq<Sighting>, k: string)
    requires k in Contacts(ss)
    ensures var keys := MapSeq(ss, KeyOfSighting);
      var c, mine := Contacts(ss)[k], Filter(ss, keys, k);
      && c.count == CountIn(keys, k) && c.count >= 1
      && c.asOrganizer + c.asAttendee == c.count && c.asOrganizer == Organised(mine)
      && c.hours == SumReal(Filter(MapSeq(ss, HoursOfSighting), keys, k))
      && (forall x :: x in c.companies <==> exists i :: 0 <= i < |mine| && mine[i].company == x)
      && (forall m :: m in c.months <==> m != "" && exists i :: 0 <= i < |mine| && mine[i].month == m)
      && c.types == Counts(MapSeq(mine, KindOf))
      && MapSum(c.types, NatOf) == c.count as real
  {
    var keys := MapSeq(ss, KeyOfSighting);
    var mine := Filter(ss, keys, k);
    ContactsAtKey(ss, k);
    Present(keys, k);
    ReplaySets(mine);
    ReplayTypes(mine);
    FilterMapSeq(ss, keys, k, HoursOfSighting);
    CountsTotal(MapSeq(mine, KindOf));
  }

  /** Every meeting type a contact records is one of the seven. */
  lemma TypesKnown(ss: seq<Sighting>, k: string)
    requires k in Contacts(ss) && forall s :: s in ss ==> s.kind in MeetingTypes
    ensures forall t :: t in Contacts(ss)[k].types ==> t in MeetingTypes
  {
    var keys := MapSeq(ss, KeyOfSighting);
    var mine := Filter(ss, keys, k);
    ContactsAtKey(ss, k);
    ReplayTypes(mine);
    var kinds := MapSeq(mine, KindOf);
    CountsAt(kinds);
    FilterIn(ss, keys, k);
    forall t | t in Counts(kinds)
      ensures t in MeetingTypes
    {
      var i :| 0 <= i < |kinds| && kinds[i] == t;
      assert mine[i] in mine;
    }
  }

  /** What `organizer_stats[key]` holds. */
  datatype Organizer = Organizer(count: nat, hours: real, company: string, months: set<string>)

  /** `event.organizer and event.organizer != viewer` */
  predicate LedByOther(viewer: string, e: Event) {
    e.organizer != "" && e.organizer != viewer
  }

  /** What the organizer branch reads of one event: the organizer's key
      (`organizer_name` if set, else the address) and company, and the
      event's hours and month. */
  datatype Lead = Lead(key: string, hours: real, company: string, month: string)

  function LeadOf(e: Event): (r: Lead)
    ensures r.key == (if e.organizerName != "" then e.organizerName else e.organizer)
    ensures r.hours == Hours(e) && r.company == Company(e.organizer) && r.month == MonthOf(e)
  {
    Lead(if e.organizerName != "" then e.organizerName else e.organizer, Hours(e), Company(e.organizer), MonthOf(e))
  }

  /** The organizer branch for one event: the company is overwritten. */
  function Enter(m: map<string, Organizer>, l: Lead): map<string, Organizer> {
    var o := if l.key in m then m[l.key] else Organizer(0, 0.0, "", {});
    m[l.key := Organizer(o.count + 1, o.hours + l.hours, l.company,
                         if l.month != "" then o.months + {l.month} else o.months)]
  }

  /** `organizer_stats` after the given events. */
  function Organizers(viewer: string, es: seq<Event>): map<string, Organizer> {
    if |es| == 0 then map[]
    else
      var m := Organizers(viewer, es[..|es| - 1]);
      var e := es[|es| - 1];
      if LedByOther(viewer, e) then Enter(m, LeadOf(e)) else m
  }

  /** The leads of the events organised by someone else, in order. */
  function Leads(viewer: string, es: seq<Event>): (r: seq<Lead>)
    ensures forall l :: l in r <==> exists e :: e in es && LedByOther(viewer, e) && LeadOf(e) == l
  {
    if |es| == 0 then []
    else
      var n := |es| - 1;
      assert forall e :: e in es <==> e in es[..n] || e == es[n] by {
        assert es == es[..n] + [es[n]];
      }
      var front := Leads(viewer, es[..n]);
      if LedByOther(viewer, es[n]) then front + [LeadOf(es[n])] else front
  }

  /** The same table entered lead by lead. */
  function Enrol(ls: seq<Lead>): map<string, Organizer> {
    if |ls| == 0 then map[] else Enter(Enrol(ls[..|ls| - 1]), ls[|ls| - 1])
  }

  /** Skipping the viewer's own events is entering only the others' leads. */
  lemma {:induction false} OrganizersEnrol(viewer: string, es: seq<Event>)
    ensures Organizers(viewer, es) == Enrol(Leads(viewer, es))
  {
    if |es| > 0 {
      var n := |es| - 1;
      OrganizersEnrol(viewer, es[..n]);
      var front := Leads(viewer, es[..n]);
      if LedByOther(viewer, es[n]) {
        assert (front + [LeadOf(es[n])])[..|front|] == front;
      }
    }
  }

  function KeyOfLead(l: Lead): string {
    l.key
  }

  function HoursOfLead(l: Lead): real {
    l.hours
  }

  /** `ls[i]` is the last lead under key `k`. */
  predicate LastWith(ls: seq<Lead>, k: string, i: int) {
    0 <= i < |ls| && ls[i].key == k && forall j :: i < j < |ls| ==> ls[j].key != k
  }

  /** The table counts and times exactly what a count-and-hours tally of
      the leads by key gives, and each key's company is that of its last
      lead. */
  lemma {:induction false} EnrolTally(ls: seq<Lead>, k: string)
    ensures var r, t := Enrol(ls), TallyOf(MapSeq(ls, KeyOfLead), MapSeq(ls, HoursOfLead));
      && (k in r <==> k in t)
      && (k in r ==> r[k].count == t[k].count && r[k].hours == t[k].hours)
      && (k in r ==> exists i :: LastWith(ls, k, i) && r[k].company == ls[i].company)
  {
    if |ls| > 0 {
      EnrolTally(ls[..|ls| - 1], k);
      EnrolStep(ls, k);
    }
  }

  /** The table and the tally agree on key `k`. */
  ghost predicate EnrolAgrees(ls: seq<Lead>, k: string) {
    var r, t := Enrol(ls), TallyOf(MapSeq(ls, KeyOfLead), MapSeq(ls, HoursOfLead));
    && (k in r <==> k in t)
    && (k in r ==> r[k].count == t[k].count && r[k].hours == t[k].hours)
    && (k in r ==> exists i :: LastWith(ls, k, i) && r[k].company == ls[i].company)
  }

  lemma EnrolStep(ls: seq<Lead>, k: string)
    requires |ls| > 0 && EnrolAgrees(ls[..|ls| - 1], k)
    ensures EnrolAgrees(ls, k)
  {
    var n := |ls| - 1;
    var front := ls[..n];
    var m := Enrol(front);
    assert MapSeq(ls, KeyOfLead) == MapSeq(front, KeyOfLead) + [ls[n].key];
    assert MapSeq(ls, HoursOfLead) == MapSeq(front, HoursOfLead) + [ls[n].hours];
    assert (MapSeq(front, KeyOfLead) + [ls[n].key])[..n] == MapSeq(front, KeyOfLead);
    assert (MapSeq(front, HoursOfLead) + [ls[n].hours])[..n] == MapSeq(front, HoursOfLead);
    if k == ls[n].key {
      assert LastWith(ls, k, n);
    } else if k in m {
      var i :| LastWith(front, k, i) && m[k].company == front[i].company;
      assert ls[i] == front[i];
      assert LastWith(ls, k, i);
    }
  }

  /** The months an organizer was active are the months of their leads. */
  lemma {:induction false} EnrolMonths(ls: seq<Lead>, k: string)
    requires k in Enrol(ls)
    ensures forall m :: m in Enrol(ls)[k].months <==> m != "" && exists i :: 0 <= i < |ls| && ls[i].key == k && ls[i].month == m
  {
    var n := |ls| - 1;
    var front := ls[..n];
    if k in Enrol(front) {
      EnrolMonths(front, k);
    } else {
      EnrolTally(front, k);
      TallyAtKey(MapSeq(front, KeyOfLead), MapSeq(front, HoursOfLead), k);
      assert forall i :: 0 <= i < n ==> MapSeq(front, KeyOfLead)[i] == front[i].key;
    }
    forall m
      ensures m in Enrol(ls)[k].months <==> m != "" && exists i :: 0 <= i < |ls| && ls[i].key == k && ls[i].month == m
    {
      if exists i :: 0 <= i < |ls| && ls[i].key == k && ls[i].month == m {
        var i :| 0 <= i < |ls| && ls[i].key == k && ls[i].month == m;
        if i < n {
          assert front[i] == ls[i];
        }
      }
      if m in Enrol(ls)[k].months && !(ls[n].key == k && ls[n].month == m) {
        var i :| 0 <= i < n && front[i].key == k && front[i].month == m;
        assert ls[i] == front[i];
      }
    }
  }

  /** The viewer's own events never enter the organizer table. */
  lemma OwnEventsSkipped(viewer: string, es: seq<Event>, e: Event)
    requires e.organizer == viewer || e.organizer == ""
    ensures Organizers(viewer, es + [e]) == Organizers(viewer, es)
  {
    assert (es + [e])[..|es|] == es;
  }

  datatype Result = Result(stakeholders: map<string, Contact>, organizers: map<string, Organizer>, work: seq<Event>)

  /** `analyze_stakeholders` */
  function Analyze(viewer: string, es: seq<Event>): (r: Result)
    ensures r.work == WorkEvents(es)
    ensures forall k :: k in r.stakeholders ==> r.stakeholders[k].count >= 1
  {
    var work := WorkEvents(es);
    var ss := Sightings(viewer, Visits(viewer, work));
    forall k | k in Contacts(ss)
      ensures Contacts(ss)[k].count >= 1
    {
      ContactFacts(ss, k);
    }
    Result(Contacts(ss), Organizers(viewer, work), work)
  }

  /** A key is visited exactly when some event has an attendee, other
      than the viewer, under that key. */
  lemma KeyVisited(viewer: string, es: seq<Event>, k: string)
    ensures var ss := Sightings(viewer, Visits(viewer, es));
      k in MapSeq(ss, KeyOfSighting) <==>
      exists e, a :: e in es && a in e.attendees && !IsSelf(viewer, a) && KeyOf(a) == k
  {
    var vs := Visits(viewer, es);
    SightKeys(viewer, vs);
    var keys := MapSeq(Sightings(viewer, vs), KeyOfSighting);
    if k in keys {
      VisitedOnly(viewer, es, vs, keys, k);
    }
    if exists e, a :: e in es && a in e.attendees && !IsSelf(viewer, a) && KeyOf(a) == k {
      var e, a :| e in es && a in e.attendees && !IsSelf(viewer, a) && KeyOf(a) == k;
      VisitFound(viewer, es, vs, keys, e, a);
    }
  }

  lemma VisitFound(viewer: string, es: seq<Event>, vs: seq<Visit>, keys: seq<string>, e: Event, a: Attendee)
    requires vs == Visits(viewer, es) && e in es && a in e.attendees && !IsSelf(viewer, a)
    requires |keys| == |vs| && forall i :: 0 <= i < |vs| ==> keys[i] == KeyOf(vs[i].attendee)
    ensures KeyOf(a) in keys
  {
    assert Visit(e, a) in vs;
    var i :| 0 <= i < |vs| && vs[i] == Visit(e, a);
    assert keys[i] == KeyOf(a);
  }

  lemma SightKeys(viewer: string, vs: seq<Visit>)
    ensures var keys := MapSeq(Sightings(viewer, vs), KeyOfSighting);
      |keys| == |vs| && forall i :: 0 <= i < |vs| ==> keys[i] == KeyOf(vs[i].attendee)
  {
  }

  lemma VisitedOnly(viewer: string, es: seq<Event>, vs: seq<Visit>, keys: seq<string>, k: string)
    requires vs == Visits(viewer, es) && k in keys
    requires |keys| == |vs| && forall i :: 0 <= i < |vs| ==> keys[i] == KeyOf(vs[i].attendee)
    ensures exists e, a :: e in es && a in e.attendees && !IsSelf(viewer, a) && KeyOf(a) == k
  {
    var i :| 0 <= i < |keys| && keys[i] == k;
    var v := vs[i];
    assert v.event in es && v.attendee in v.event.attendees && !IsSelf(viewer, v.attendee);
  }

  /** A contact is present exactly when some work event has an attendee,
      other than the viewer, under that key. */
  lemma ContactIff(viewer: string, es: seq<Event>, k: string)
    ensures k in Analyze(viewer, es).stakeholders <==>
      exists e, a :: e in es && IsWork(e) && a in e.attendees && !IsSelf(viewer, a) && KeyOf(a) == k
  {
    var work := WorkEvents(es);
    ContactsAtKey(Sightings(viewer, Visits(viewer, work)), k);
    KeyVisited(viewer, work, k);
  }

  /** Every contact's meeting types are among the seven, and tally to the
      contact's count. */
  lemma ContactTypes(viewer: string, es: seq<Event>, k: string)
    requires k in Analyze(viewer, es).stakeholders
    ensures var c := Analyze(viewer, es).stakeholders[k];
      (forall t :: t in c.types ==> t in MeetingTypes) && MapSum(c.types, NatOf) == c.count as real
  {
    var ss := Sightings(viewer, Visits(viewer, WorkEvents(es)));
    KindsKnown(viewer, Visits(viewer, WorkEvents(es)));
    TypesKnown(ss, k);
    TypesTotal(ss, k);
  }

  /** Every visit's meeting type is one of the seven. */
  lemma KindsKnown(viewer: string, vs: seq<Visit>)
    ensures forall s :: s in Sightings(viewer, vs) ==> s.kind in MeetingTypes
  {
    var ss := Sightings(viewer, vs);
    forall s | s in ss
      ensures s.kind in MeetingTypes
    {
      var i :| 0 <= i < |ss| && ss[i] == s;
      assert s == Sight(viewer, vs[i]);
    }
  }

  /** A contact's meeting types tally to the contact's count. */
  lemma TypesTotal(ss: seq<Sighting>, k: string)
    requires k in Contacts(ss)
    ensures MapSum(Contacts(ss)[k].types, NatOf) == Contacts(ss)[k].count as real
  {
    ContactFacts(ss, k);
  }

  /** The viewer's own attendee entries never become contacts. */
  lemma SelfNotContact(viewer: string, es: seq<Event>, k: string)
    requires forall e, a :: e in es && a in e.attendees && KeyOf(a) == k ==> IsSelf(viewer, a)
    ensures k !in Analyze(viewer, es).stakeholders
  {
    ContactIff(viewer, es, k);
  }
}
