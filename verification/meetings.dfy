/** `categorize_meeting_type` of the stakeholder analysis: the meeting
    type of a work event, by title and description keywords only. */
module Meetings {
  import opened Text
  import opened Rules
  import opened Keywords

  const MeetingTypes: seq<string> := [
    "1:1 & Syncs", "Customer/External", "Team Meetings", "Training/Learning",
    "Planning/Strategy", "Focus Time", "General Meetings"]

  const Table: seq<Rule> := [
    Rule(InTitle(SyncWords), "1:1 & Syncs"),
    Rule(InTitleOrDesc(CustomerWordsShort), "Customer/External"),
    Rule(InTitle(TeamWords), "Team Meetings"),
    Rule(InTitle(TrainingWordsShort), "Training/Learning"),
    Rule(InTitle(PlanningWordsShort), "Planning/Strategy"),
    Rule(InTitle(FocusWordsShort), "Focus Time")]

  /** `categorize_meeting_type`: always one of the seven types. */
  function MeetingType(f: Facts): (r: string)
    ensures r in MeetingTypes
  {
    LabelsListed();
    Classify(Table, "General Meetings", f)
  }

  lemma LabelsListed()
    ensures forall k :: 0 <= k < |Table| ==> Table[k].outcome in MeetingTypes
    ensures "General Meetings" in MeetingTypes
  {
  }

  /** `categorize_meeting_type` as the script writes it. */
  function MeetingTypeChain(f: Facts): string {
    if AnyIn(SyncWords, f.title) then "1:1 & Syncs"
    else if AnyIn(CustomerWordsShort, f.title) || AnyIn(CustomerWordsShort, f.desc) then "Customer/External"
    else if AnyIn(TeamWords, f.title) then "Team Meetings"
    else if AnyIn(TrainingWordsShort, f.title) then "Training/Learning"
    else if AnyIn(PlanningWordsShort, f.title) then "Planning/Strategy"
    else if AnyIn(FocusWordsShort, f.title) then "Focus Time"
    else "General Meetings"
  }

  /** What rules 0 to 5 of the table test and yield. */
  lemma TableRules0(f: Facts)
    ensures |Table| == 6
    ensures Holds(Table[0].test, f) == (AnyIn(SyncWords, f.title)) && Table[0].outcome == "1:1 & Syncs"
    ensures Holds(Table[1].test, f) == (AnyIn(CustomerWordsShort, f.title) || AnyIn(CustomerWordsShort, f.desc)) && Table[1].outcome == "Customer/External"
    ensures Holds(Table[2].test, f) == (AnyIn(TeamWords, f.title)) && Table[2].outcome == "Team Meetings"
    ensures Holds(Table[3].test, f) == (AnyIn(TrainingWordsShort, f.title)) && Table[3].outcome == "Training/Learning"
    ensures Holds(Table[4].test, f) == (AnyIn(PlanningWordsShort, f.title)) && Table[4].outcome == "Planning/Strategy"
    ensures Holds(Table[5].test, f) == (AnyIn(FocusWordsShort, f.title)) && Table[5].outcome == "Focus Time"
  {
  }

  /** The table and the chain of `if`s give the same label on every event. */
  lemma MeetingTypeAgrees(f: Facts)
    ensures MeetingType(f) == MeetingTypeChain(f)
  {
    var t, u := Table, "General Meetings";
    TableRules0(f);
    assert FirstFrom(t, 0, u, f) == if Holds(t[0].test, f) then t[0].outcome else FirstFrom(t, 1, u, f);
    if Holds(t[0].test, f) {
      return;
    }
    assert FirstFrom(t, 1, u, f) == if Holds(t[1].test, f) then t[1].outcome else FirstFrom(t, 2, u, f);
    if Holds(t[1].test, f) {
      return;
    }
    assert FirstFrom(t, 2, u, f) == if Holds(t[2].test, f) then t[2].outcome else FirstFrom(t, 3, u, f);
    if Holds(t[2].test, f) {
      return;
    }
    assert FirstFrom(t, 3, u, f) == if Holds(t[3].test, f) then t[3].outcome else FirstFrom(t, 4, u, f);
    if Holds(t[3].test, f) {
      return;
    }
    assert FirstFrom(t, 4, u, f) == if Holds(t[4].test, f) then t[4].outcome else FirstFrom(t, 5, u, f);
    if Holds(t[4].test, f) {
      return;
    }
    assert FirstFrom(t, 5, u, f) == if Holds(t[5].test, f) then t[5].outcome else FirstFrom(t, 6, u, f);
    if Holds(t[5].test, f) {
      return;
    }
    assert FirstFrom(t, 6, u, f) == u;
  }

  /** The type reads only the title and description. */
  lemma TypeReadsText(f: Facts, g: Facts)
    requires f.title == g.title && f.desc == g.desc
    ensures MeetingType(f) == MeetingType(g)
  {
    MeetingTypeAgrees(f);
    MeetingTypeAgrees(g);
  }

  /** A sync keyword wins over every other keyword: a "customer sync" is a 1:1 or sync. */
  lemma SyncFirst(f: Facts)
    requires Contains(f.title, "sync")
    ensures MeetingType(f) == "1:1 & Syncs"
  {
    assert SyncWords[3] == "sync";
    Found(SyncWords, 3, f.title);
    MeetingTypeAgrees(f);
  }

  /** "General Meetings" is exactly the absence of every keyword. */
  lemma GeneralIff(f: Facts)
    ensures MeetingType(f) == "General Meetings" <==>
      && !AnyIn(SyncWords, f.title) && !AnyIn(CustomerWordsShort, f.title) && !AnyIn(CustomerWordsShort, f.desc)
      && !AnyIn(TeamWords, f.title) && !AnyIn(TrainingWordsShort, f.title)
      && !AnyIn(PlanningWordsShort, f.title) && !AnyIn(FocusWordsShort, f.title)
  {
    MeetingTypeAgrees(f);
  }
}
