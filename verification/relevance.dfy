/** The two `is_work_relevant` predicates: the stakeholder analysis drops
    non-meetings, declined, out-of-office, personal, Focus Friday, break
    and free events; the tag analysis drops only the first three kinds and
    free time. Each is a list of exclusion tests, the event passing when
    none holds. */
module Relevance {
  import opened Text
  import opened Rules
  import opened Keywords

  predicate Passes(exclusions: seq<Test>, f: Facts) {
    forall k :: 0 <= k < |exclusions| ==> !Holds(exclusions[k], f)
  }

  const StakeholderExclusions: seq<Test> := [
    NoAttendees, StatusIs("DECLINED"), StatusIs("TENTATIVE"), BusyIs("OOF"),
    InTitle(AwayWords), InTitle(FocusFridayWords),
    InTitleUnless(MealOrGymWords, BusinessGuardWords),
    TranspOrBusy("TRANSPARENT", "FREE")]

  const TagExclusions: seq<Test> := [
    NoAttendees, StatusIs("DECLINED"), StatusIs("TENTATIVE"), BusyIs("OOF"),
    TranspOrBusy("TRANSPARENT", "FREE")]

  /** `is_work_relevant` of the stakeholder analysis. */
  predicate StakeholderWork(f: Facts) {
    Passes(StakeholderExclusions, f)
  }

  /** `is_work_relevant` of the tag analysis. */
  predicate TagWork(f: Facts) {
    Passes(TagExclusions, f)
  }

  /** The stakeholder predicate as the script writes it. */
  predicate StakeholderWorkChain(f: Facts) {
    if f.attendees == 0 then false
    else if f.status in ["DECLINED", "TENTATIVE"] then false
    else if f.busy == "OOF" then false
    else if AnyIn(AwayWords, f.title) then false
    else if Contains(f.title, "focus friday") || Contains(f.title, "focus fridays") then false
    else if AnyIn(MealOrGymWords, f.title) && !AnyIn(BusinessGuardWords, f.title) then false
    else if f.transp == "TRANSPARENT" || f.busy == "FREE" then false
    else true
  }

  /** The tag predicate as the script writes it. */
  predicate TagWorkChain(f: Facts) {
    if f.attendees == 0 then false
    else if f.status in ["DECLINED", "TENTATIVE"] then false
    else if f.busy == "OOF" then false
    else if f.transp == "TRANSPARENT" || f.busy == "FREE" then false
    else true
  }

  lemma StakeholderAgrees(f: Facts)
    ensures StakeholderWork(f) == StakeholderWorkChain(f)
  {
    var x := StakeholderExclusions;
    FocusFridayTest(f.title);
    assert Holds(x[0], f) == (f.attendees == 0);
    assert Holds(x[1], f) == (f.status == "DECLINED");
    assert Holds(x[2], f) == (f.status == "TENTATIVE");
    assert Holds(x[3], f) == (f.busy == "OOF");
    assert Holds(x[4], f) == AnyIn(AwayWords, f.title);
    assert Holds(x[5], f) == AnyIn(FocusFridayWords, f.title);
    assert Holds(x[6], f) == (AnyIn(MealOrGymWords, f.title) && !AnyIn(BusinessGuardWords, f.title));
    assert Holds(x[7], f) == (f.transp == "TRANSPARENT" || f.busy == "FREE");
  }

  lemma TagAgrees(f: Facts)
    ensures TagWork(f) == TagWorkChain(f)
  {
    var x := TagExclusions;
    assert Holds(x[0], f) == (f.attendees == 0);
    assert Holds(x[1], f) == (f.status == "DECLINED");
    assert Holds(x[2], f) == (f.status == "TENTATIVE");
    assert Holds(x[3], f) == (f.busy == "OOF");
    assert Holds(x[4], f) == (f.transp == "TRANSPARENT" || f.busy == "FREE");
  }

  /** Fewer exclusions let more events through. */
  lemma PassesFewer(a: seq<Test>, b: seq<Test>, f: Facts)
    requires forall k :: 0 <= k < |a| ==> a[k] in b
    requires Passes(b, f)
    ensures Passes(a, f)
  {
    forall k | 0 <= k < |a|
      ensures !Holds(a[k], f)
    {
      var j :| 0 <= j < |b| && b[j] == a[k];
    }
  }

  /** Every stakeholder work event is a tag work event. */
  lemma StakeholderStricter(f: Facts)
    ensures StakeholderWork(f) ==> TagWork(f)
  {
    var a, b := TagExclusions, StakeholderExclusions;
    assert a[0] == b[0] && a[1] == b[1] && a[2] == b[2] && a[3] == b[3] && a[4] == b[7];
    if StakeholderWork(f) {
      PassesFewer(a, b, f);
    }
  }

  /** The tag analysis drops an event exactly when it has no attendees, is
      declined or tentative, is out of office, or is transparent or free. */
  lemma TagWorkIff(f: Facts)
    ensures !TagWork(f) <==>
      f.attendees == 0 || f.status == "DECLINED" || f.status == "TENTATIVE" || f.busy == "OOF"
      || f.transp == "TRANSPARENT" || f.busy == "FREE"
  {
    TagAgrees(f);
  }
}
