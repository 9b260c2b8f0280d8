/** `categorize_event_improved` of the investigation script: the calendar
    rules refined with Focus Fridays, IT admin, personal appointments and
    business meals, still blind to the number of attendees. */
module Improved {
  import opened Text
  import opened Rules
  import opened Keywords

  /** Every label `categorize_event_improved` can give. */
  const ImprovedLabels: seq<string> := [
    "declined_tentative_declined", "declined_tentative_tentative", "out_of_office",
    "personal_time_off", "focus_fridays_excluded", "work_admin_it", "personal_appointments",
    "business_meals_networking", "breaks_personal_care", "free_time_transparent",
    "internal_meetings_1on1_sync", "customer_external", "training_learning",
    "planning_strategy", "recruiting_hiring", "focus_time_blocked",
    "general_work_meetings", "uncategorized"]

  /** The rules in order, in three blocks: time set aside, personal and
      administrative time, then the work categories. */
  const Table: seq<Rule> := SetAside + (Personal + Work)

  const SetAside: seq<Rule> := [
    Rule(StatusIs("DECLINED"), "declined_tentative_declined"),
    Rule(StatusIs("TENTATIVE"), "declined_tentative_tentative"),
    Rule(BusyIs("OOF"), "out_of_office"),
    Rule(InTitle(PtoWords), "personal_time_off"),
    Rule(InTitle(FocusFridayWords), "focus_fridays_excluded")]

  const Personal: seq<Rule> := [
    Rule(InTitle(AdminWords), "work_admin_it"),
    Rule(InTitleUnless(AppointmentWords, BusinessGuardWords), "personal_appointments"),
    Rule(InTitleAlso(MealOrGymWords, BusinessMealWords), "business_meals_networking"),
    Rule(InTitle(MealOrGymWords), "breaks_personal_care"),
    Rule(TranspOrBusy("TRANSPARENT", "FREE"), "free_time_transparent")]

  const Work: seq<Rule> := [
    Rule(InTitle(SyncWords), "internal_meetings_1on1_sync"),
    Rule(InTitleOrDesc(CustomerWords), "customer_external"),
    Rule(InTitle(TrainingWords), "training_learning"),
    Rule(InTitle(PlanningWords), "planning_strategy"),
    Rule(InTitle(RecruitingWords), "recruiting_hiring"),
    Rule(InTitle(FocusWords), "focus_time_blocked"),
    Rule(TranspOrBusy("OPAQUE", "BUSY"), "general_work_meetings")]

  /** `categorize_event_improved`: always one of the eighteen labels. */
  function Improved(f: Facts): (r: string)
    ensures r in ImprovedLabels
  {
    LabelsListed();
    Classify(Table, "uncategorized", f)
  }

  lemma LabelsListed()
    ensures forall k :: 0 <= k < |Table| ==> Table[k].outcome in ImprovedLabels
    ensures "uncategorized" in ImprovedLabels
  {
  }

  /** `categorize_event_improved` as the script writes it, one `if` after
      another; the chain is cut where the table's blocks meet. */
  function ImprovedChain(f: Facts): string {
    // `f"declined_tentative_{event.status.lower()}"` on the two statuses
    if f.status == "DECLINED" then "declined_tentative_declined"
    else if f.status == "TENTATIVE" then "declined_tentative_tentative"
    else if f.busy == "OOF" then "out_of_office"
    else if AnyIn(PtoWords, f.title) then "personal_time_off"
    else if Contains(f.title, "focus friday") || Contains(f.title, "focus fridays") then "focus_fridays_excluded"
    else PersonalChain(f)
  }

  function PersonalChain(f: Facts): string {
    if AnyIn(AdminWords, f.title) then "work_admin_it"
    else if AnyIn(AppointmentWords, f.title) && !AnyIn(BusinessGuardWords, f.title) then "personal_appointments"
    else if AnyIn(MealOrGymWords, f.title) then
      if AnyIn(BusinessMealWords, f.title) || AnyIn(BusinessMealWords, f.desc) then "business_meals_networking"
      else "breaks_personal_care"
    else if f.transp == "TRANSPARENT" || f.busy == "FREE" then "free_time_transparent"
    else WorkChain(f)
  }

  function WorkChain(f: Facts): string {
    if AnyIn(SyncWords, f.title) then "internal_meetings_1on1_sync"
    else if AnyIn(CustomerWords, f.title) || AnyIn(CustomerWords, f.desc) then "customer_external"
    else if AnyIn(TrainingWords, f.title) then "training_learning"
    else if AnyIn(PlanningWords, f.title) then "planning_strategy"
    else if AnyIn(RecruitingWords, f.title) then "recruiting_hiring"
    else if AnyIn(FocusWords, f.title) then "focus_time_blocked"
    else if f.busy == "BUSY" || f.transp == "OPAQUE" then "general_work_meetings"
    else "uncategorized"
  }

  /** What the set-aside rules test and yield. */
  lemma SetAsideRules(f: Facts)
    ensures |SetAside| == 5
    ensures Holds(SetAside[0].test, f) == (f.status == "DECLINED") && SetAside[0].outcome == "declined_tentative_declined"
    ensures Holds(SetAside[1].test, f) == (f.status == "TENTATIVE") && SetAside[1].outcome == "declined_tentative_tentative"
    ensures Holds(SetAside[2].test, f) == (f.busy == "OOF") && SetAside[2].outcome == "out_of_office"
    ensures Holds(SetAside[3].test, f) == (AnyIn(PtoWords, f.title)) && SetAside[3].outcome == "personal_time_off"
    ensures Holds(SetAside[4].test, f) == (Contains(f.title, "focus friday") || Contains(f.title, "focus fridays")) && SetAside[4].outcome == "focus_fridays_excluded"
  {
    FocusFridayTest(f.title);
  }

  /** What the personal and administrative rules test and yield. */
  lemma PersonalRules(f: Facts)
    ensures |Personal| == 5
    ensures Holds(Personal[0].test, f) == (AnyIn(AdminWords, f.title)) && Personal[0].outcome == "work_admin_it"
    ensures Holds(Personal[1].test, f) == (AnyIn(AppointmentWords, f.title) && !AnyIn(BusinessGuardWords, f.title)) && Personal[1].outcome == "personal_appointments"
    ensures Holds(Personal[2].test, f) == (AnyIn(MealOrGymWords, f.title) && (AnyIn(BusinessMealWords, f.title) || AnyIn(BusinessMealWords, f.desc))) && Personal[2].outcome == "business_meals_networking"
    ensures Holds(Personal[3].test, f) == (AnyIn(MealOrGymWords, f.title)) && Personal[3].outcome == "breaks_personal_care"
    ensures Holds(Personal[4].test, f) == (f.transp == "TRANSPARENT" || f.busy == "FREE") && Personal[4].outcome == "free_time_transparent"
  {
  }

  /** What the work rules test and yield. */
  lemma WorkRules(f: Facts)
    ensures |Work| == 7
    ensures Holds(Work[0].test, f) == (AnyIn(SyncWords, f.title)) && Work[0].outcome == "internal_meetings_1on1_sync"
    ensures Holds(Work[1].test, f) == (AnyIn(CustomerWords, f.title) || AnyIn(CustomerWords, f.desc)) && Work[1].outcome == "customer_external"
    ensures Holds(Work[2].test, f) == (AnyIn(TrainingWords, f.title)) && Work[2].outcome == "training_learning"
    ensures Holds(Work[3].test, f) == (AnyIn(PlanningWords, f.title)) && Work[3].outcome == "planning_strategy"
    ensures Holds(Work[4].test, f) == (AnyIn(RecruitingWords, f.title)) && Work[4].outcome == "recruiting_hiring"
    ensures Holds(Work[5].test, f) == (AnyIn(FocusWords, f.title)) && Work[5].outcome == "focus_time_blocked"
    ensures Holds(Work[6].test, f) == (f.busy == "BUSY" || f.transp == "OPAQUE") && Work[6].outcome == "general_work_meetings"
  {
  }

  /** The set-aside block with the rest of the chain as its fallback is the whole chain. */
  lemma SetAsideAgrees(f: Facts)
    ensures FirstFrom(SetAside, 0, PersonalChain(f), f) == ImprovedChain(f)
  {
    var t, u := SetAside, PersonalChain(f);
    SetAsideRules(f);
    assert FirstFrom(t, 0, u, f) == if Holds(t[0].test, f) then t[0].outcome else FirstFrom(t, 1, u, f);
    if Holds(t[0].test, f) {
      return;
    }
    assert FirstFrom(t, 1, u, f) == if Holds(t[1].test, f) then t[1].outcome else FirstFrom(t, 2, u, f);
    if Holds(t[1].test, f) {
      return;
    }
    assert FirstFrom(t, 2, u, f) == if Holds(t[2].test, f) then t[2].outcome else FirstFrom(t, 3, u, f);
    if Holds(t[2].test, f) {
      return;
    }
    assert FirstFrom(t, 3, u, f) == if Holds(t[3].test, f) then t[3].outcome else FirstFrom(t, 4, u, f);
    if Holds(t[3].test, f) {
      return;
    }
    assert FirstFrom(t, 4, u, f) == if Holds(t[4].test, f) then t[4].outcome else FirstFrom(t, 5, u, f);
    if Holds(t[4].test, f) {
      return;
    }
    assert FirstFrom(t, 5, u, f) == u;
  }

  /** The personal block with the work chain as its fallback. */
  lemma PersonalAgrees(f: Facts)
    ensures FirstFrom(Personal, 0, WorkChain(f), f) == PersonalChain(f)
  {
    var t, u := Personal, WorkChain(f);
    PersonalRules(f);
    assert FirstFrom(t, 0, u, f) == if Holds(t[0].test, f) then t[0].outcome else FirstFrom(t, 1, u, f);
    if Holds(t[0].test, f) {
      return;
    }
    assert FirstFrom(t, 1, u, f) == if Holds(t[1].test, f) then t[1].outcome else FirstFrom(t, 2, u, f);
    if Holds(t[1].test, f) {
      return;
    }
    assert FirstFrom(t, 2, u, f) == if Holds(t[2].test, f) then t[2].outcome else FirstFrom(t, 3, u, f);
    if Holds(t[2].test, f) {
      return;
    }
    assert FirstFrom(t, 3, u, f) == if Holds(t[3].test, f) then t[3].outcome else FirstFrom(t, 4, u, f);
    if Holds(t[3].test, f) {
      return;
    }
    assert FirstFrom(t, 4, u, f) == if Holds(t[4].test, f) then t[4].outcome else FirstFrom(t, 5, u, f);
    if Holds(t[4].test, f) {
      return;
    }
    assert FirstFrom(t, 5, u, f) == u;
  }

  /** The table and the chain of `if`s give the same label on every event. */
  lemma ImprovedAgrees(f: Facts)
    ensures Improved(f) == ImprovedChain(f)
  {
    var u := "uncategorized";
    FirstFromAppend(SetAside, Personal + Work, 0, u, f);
    FirstFromAppend(Personal, Work, 0, u, f);
    WorkRules(f);
    Unroll7(Work, u, f);
    PersonalAgrees(f);
    SetAsideAgrees(f);
  }

  /** The improved rules never look at the attendees: adding or removing
      attendees never changes the label. */
  lemma BlindToAttendees(f: Facts, n: nat)
    ensures Improved(f) == Improved(f.(attendees := n))
  {
    NoAttendeeTest();
    BlindTable(Table, 0, "uncategorized", f, n);
  }

  lemma NoAttendeeTest()
    ensures forall k :: 0 <= k < |Table| ==> !Table[k].test.NoAttendees?
  {
  }

  /** The first three rules in order: declined or tentative, then out of
      office, then the time-off keywords. */
  lemma DeclinedFirst(f: Facts)
    requires f.status == "DECLINED" || f.status == "TENTATIVE"
    ensures Improved(f) == if f.status == "DECLINED" then "declined_tentative_declined" else "declined_tentative_tentative"
  {
    ImprovedAgrees(f);
  }

  lemma OutOfOfficeSecond(f: Facts)
    requires f.status != "DECLINED" && f.status != "TENTATIVE" && f.busy == "OOF"
    ensures Improved(f) == "out_of_office"
  {
    ImprovedAgrees(f);
  }

  lemma TimeOffThird(f: Facts)
    requires f.status != "DECLINED" && f.status != "TENTATIVE" && f.busy != "OOF"
    requires AnyIn(PtoWords, f.title)
    ensures Improved(f) == "personal_time_off"
  {
    ImprovedAgrees(f);
  }

  /** A title containing "focus friday" never yields `focus_time_blocked`. */
  lemma FocusFridayNeverFocus(f: Facts)
    requires Contains(f.title, "focus friday")
    ensures Improved(f) != "focus_time_blocked"
  {
    ImprovedAgrees(f);
  }

  /** No rule before the personal-appointment rule fires. */
  predicate BeforeAppointments(f: Facts) {
    && f.status != "DECLINED" && f.status != "TENTATIVE" && f.busy != "OOF"
    && !AnyIn(PtoWords, f.title) && !AnyIn(FocusFridayWords, f.title) && !AnyIn(AdminWords, f.title)
  }

  /** A personal appointment needs dentist, doctor, appointment or personal
      in the title and none of customer, client or meeting. */
  lemma AppointmentIff(f: Facts)
    requires BeforeAppointments(f)
    ensures Improved(f) == "personal_appointments" <==>
      AnyIn(AppointmentWords, f.title) && !AnyIn(BusinessGuardWords, f.title)
  {
    ImprovedAgrees(f);
    FocusFridayTest(f.title);
  }

  /** A lunch, breakfast, gym or workout title is a business meal exactly
      when a business keyword occurs in the title or description, and a
      break otherwise. */
  lemma MealsIff(f: Facts)
    requires BeforeAppointments(f) && !(AnyIn(AppointmentWords, f.title) && !AnyIn(BusinessGuardWords, f.title))
    requires AnyIn(MealOrGymWords, f.title)
    ensures Improved(f) == "business_meals_networking" <==>
      AnyIn(BusinessMealWords, f.title) || AnyIn(BusinessMealWords, f.desc)
    ensures Improved(f) != "business_meals_networking" ==> Improved(f) == "breaks_personal_care"
  {
    ImprovedAgrees(f);
    FocusFridayTest(f.title);
  }
}
