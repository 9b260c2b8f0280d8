/** `categorize_event_final` and `is_work_relevant_final` of the rerun
    script: nineteen labels, of which nine are excluded from the work
    statistics. Events without attendees are set aside first. */
module Final {
  import opened Text
  import opened Rules
  import opened Keywords

  /** Every label `categorize_event_final` can give. */
  const FinalLabels: seq<string> := [
    "non_meetings_excluded", "declined_tentative_declined", "declined_tentative_tentative",
    "out_of_office", "personal_time_off", "focus_fridays_excluded", "work_admin_it",
    "personal_appointments_excluded", "business_meals_networking", "breaks_personal_excluded",
    "free_time_transparent_excluded", "customer_external", "internal_meetings_1on1_sync",
    "training_learning", "planning_strategy", "recruiting_hiring", "focus_time_blocked",
    "general_work_meetings", "uncategorized"]

  /** `excluded_categories` of `is_work_relevant_final`. */
  const Excluded: seq<string> := [
    "declined_tentative_declined", "declined_tentative_tentative", "out_of_office",
    "personal_time_off", "breaks_personal_excluded", "free_time_transparent_excluded",
    "focus_fridays_excluded", "personal_appointments_excluded", "non_meetings_excluded"]

  /** The rules in order, in three blocks: time set aside, personal and
      administrative time, then the work categories. */
  const Table: seq<Rule> := SetAside + (Personal + Work)

  const SetAside: seq<Rule> := [
    Rule(NoAttendees, "non_meetings_excluded"),
    Rule(StatusIs("DECLINED"), "declined_tentative_declined"),
    Rule(StatusIs("TENTATIVE"), "declined_tentative_tentative"),
    Rule(BusyIs("OOF"), "out_of_office"),
    Rule(InTitle(PtoWords), "personal_time_off"),
    Rule(InTitle(FocusFridayWords), "focus_fridays_excluded")]

  const Personal: seq<Rule> := [
    Rule(InTitle(AdminWordsFinal), "work_admin_it"),
    Rule(InTitleUnless(AppointmentWordsFinal, ClientWords), "personal_appointments_excluded"),
    Rule(InTitleAlso(MealWords, BusinessMealWordsFinal), "business_meals_networking"),
    Rule(InTitle(MealWords), "breaks_personal_excluded"),
    Rule(InTitle(GymWords), "breaks_personal_excluded"),
    Rule(TranspOrBusy("TRANSPARENT", "FREE"), "free_time_transparent_excluded")]

  const Work: seq<Rule> := [
    Rule(InTitleOrDesc(CustomerWordsFinal), "customer_external"),
    Rule(InTitle(SyncWords), "internal_meetings_1on1_sync"),
    Rule(InTitle(TrainingWords), "training_learning"),
    Rule(InTitle(PlanningWordsFinal), "planning_strategy"),
    Rule(InTitle(RecruitingWords), "recruiting_hiring"),
    Rule(InTitleUnless(FocusWordsFinal, ["friday"]), "focus_time_blocked"),
    Rule(TranspOrBusy("OPAQUE", "BUSY"), "general_work_meetings")]

  /** `categorize_event_final`: always one of the nineteen labels. */
  function Final(f: Facts): (r: string)
    ensures r in FinalLabels
  {
    LabelsListed();
    Classify(Table, "uncategorized", f)
  }

  lemma LabelsListed()
    ensures forall k :: 0 <= k < |Table| ==> Table[k].outcome in FinalLabels
    ensures "uncategorized" in FinalLabels
  {
  }

  /** `is_actual_meeting` */
  predicate IsActualMeeting(f: Facts) {
    f.attendees > 0
  }

  /** `categorize_event_final` as the script writes it, one `if` after
      another; the chain is cut where the table's blocks meet. */
  function FinalChain(f: Facts): string {
    if !IsActualMeeting(f) then "non_meetings_excluded"
    // `f"declined_tentative_{event.status.lower()}"` on the two statuses
    else if f.status == "DECLINED" then "declined_tentative_declined"
    else if f.status == "TENTATIVE" then "declined_tentative_tentative"
    else if f.busy == "OOF" then "out_of_office"
    else if AnyIn(PtoWords, f.title) then "personal_time_off"
    else if Contains(f.title, "focus friday") || Contains(f.title, "focus fridays") then "focus_fridays_excluded"
    else PersonalChain(f)
  }

  function PersonalChain(f: Facts): string {
    if AnyIn(AdminWordsFinal, f.title) then "work_admin_it"
    else if AnyIn(AppointmentWordsFinal, f.title) && !AnyIn(ClientWords, f.title) then "personal_appointments_excluded"
    else if AnyIn(MealWords, f.title) then
      if AnyIn(BusinessMealWordsFinal, f.title) || AnyIn(BusinessMealWordsFinal, f.desc) then "business_meals_networking"
      else "breaks_personal_excluded"
    else if AnyIn(GymWords, f.title) then "breaks_personal_excluded"
    else if f.transp == "TRANSPARENT" || f.busy == "FREE" then "free_time_transparent_excluded"
    else WorkChain(f)
  }

  function WorkChain(f: Facts): string {
    if AnyIn(CustomerWordsFinal, f.title) || AnyIn(CustomerWordsFinal, f.desc) then "customer_external"
    else if AnyIn(SyncWords, f.title) then "internal_meetings_1on1_sync"
    else if AnyIn(TrainingWords, f.title) then "training_learning"
    else if AnyIn(PlanningWordsFinal, f.title) then "planning_strategy"
    else if AnyIn(RecruitingWords, f.title) then "recruiting_hiring"
    else if AnyIn(FocusWordsFinal, f.title) && !Contains(f.title, "friday") then "focus_time_blocked"
    else if f.busy == "BUSY" || f.transp == "OPAQUE" then "general_work_meetings"
    else "uncategorized"
  }

  /** What the set-aside rules test and yield. */
  lemma SetAsideRules(f: Facts)
    ensures |SetAside| == 6
    ensures Holds(SetAside[0].test, f) == (f.attendees == 0) && SetAside[0].outcome == "non_meetings_excluded"
    ensures Holds(SetAside[1].test, f) == (f.status == "DECLINED") && SetAside[1].outcome == "declined_tentative_declined"
    ensures Holds(SetAside[2].test, f) == (f.status == "TENTATIVE") && SetAside[2].outcome == "declined_tentative_tentative"
    ensures Holds(SetAside[3].test, f) == (f.busy == "OOF") && SetAside[3].outcome == "out_of_office"
    ensures Holds(SetAside[4].test, f) == (AnyIn(PtoWords, f.title)) && SetAside[4].outcome == "personal_time_off"
    ensures Holds(SetAside[5].test, f) == (Contains(f.title, "focus friday") || Contains(f.title, "focus fridays")) && SetAside[5].outcome == "focus_fridays_excluded"
  {
    FocusFridayTest(f.title);
  }

  /** What the personal and administrative rules test and yield. */
  lemma PersonalRules(f: Facts)
    ensures |Personal| == 6
    ensures Holds(Personal[0].test, f) == (AnyIn(AdminWordsFinal, f.title)) && Personal[0].outcome == "work_admin_it"
    ensures Holds(Personal[1].test, f) == (AnyIn(AppointmentWordsFinal, f.title) && !AnyIn(ClientWords, f.title)) && Personal[1].outcome == "personal_appointments_excluded"
    ensures Holds(Personal[2].test, f) == (AnyIn(MealWords, f.title) && (AnyIn(BusinessMealWordsFinal, f.title) || AnyIn(BusinessMealWordsFinal, f.desc))) && Personal[2].outcome == "business_meals_networking"
    ensures Holds(Personal[3].test, f) == (AnyIn(MealWords, f.title)) && Personal[3].outcome == "breaks_personal_excluded"
    ensures Holds(Personal[4].test, f) == (AnyIn(GymWords, f.title)) && Personal[4].outcome == "breaks_personal_excluded"
    ensures Holds(Personal[5].test, f) == (f.transp == "TRANSPARENT" || f.busy == "FREE") && Personal[5].outcome == "free_time_transparent_excluded"
  {
  }

  /** What the work rules test and yield. */
  lemma WorkRules(f: Facts)
    ensures |Work| == 7
    ensures Holds(Work[0].test, f) == (AnyIn(CustomerWordsFinal, f.title) || AnyIn(CustomerWordsFinal, f.desc)) && Work[0].outcome == "customer_external"
    ensures Holds(Work[1].test, f) == (AnyIn(SyncWords, f.title)) && Work[1].outcome == "internal_meetings_1on1_sync"
    ensures Holds(Work[2].test, f) == (AnyIn(TrainingWords, f.title)) && Work[2].outcome == "training_learning"
    ensures Holds(Work[3].test, f) == (AnyIn(PlanningWordsFinal, f.title)) && Work[3].outcome == "planning_strategy"
    ensures Holds(Work[4].test, f) == (AnyIn(RecruitingWords, f.title)) && Work[4].outcome == "recruiting_hiring"
    ensures Holds(Work[5].test, f) == (AnyIn(FocusWordsFinal, f.title) && !Contains(f.title, "friday")) && Work[5].outcome == "focus_time_blocked"
    ensures Holds(Work[6].test, f) == (f.busy == "BUSY" || f.transp == "OPAQUE") && Work[6].outcome == "general_work_meetings"
  {
    OneWord("friday", f.title);
  }

  /** The set-aside block with the rest of the chain as its fallback is the whole chain. */
  lemma SetAsideAgrees(f: Facts)
    ensures FirstFrom(SetAside, 0, PersonalChain(f), f) == FinalChain(f)
  {
    var t, u := SetAside, PersonalChain(f);
    SetAsideRules(f);
    assert FirstFrom(t, 0, u, f) == if Holds(t[0].test, f) then t[0].outcome else FirstFrom(t, 1, u, f);
    if Holds(t[0].test, f) {
      return;
    }
    assert FirstFrom(t, 1, u, f) == if Holds(t[1].test, f) then t[1].outcome else FirstFrom(t, 2, u, f);
    if Holds(t[1].test, f) {
      return;
    }
    assert FirstFrom(t, 2, u, f) == if Holds(t[2].test, f) then t[2].outcome else FirstFrom(t, 3, u, f);
    if Holds(t[2].test, f) {
      return;
    }
    assert FirstFrom(t, 3, u, f) == if Holds(t[3].test, f) then t[3].outcome else FirstFrom(t, 4, u, f);
    if Holds(t[3].test, f) {
      return;
    }
    assert FirstFrom(t, 4, u, f) == if Holds(t[4].test, f) then t[4].outcome else FirstFrom(t, 5, u, f);
    if Holds(t[4].test, f) {
      return;
    }
    assert FirstFrom(t, 5, u, f) == if Holds(t[5].test, f) then t[5].outcome else FirstFrom(t, 6, u, f);
    if Holds(t[5].test, f) {
      return;
    }
    assert FirstFrom(t, 6, u, f) == u;
  }

  /** The personal block with the work chain as its fallback. */
  lemma PersonalAgrees(f: Facts)
    ensures FirstFrom(Personal, 0, WorkChain(f), f) == PersonalChain(f)
  {
    var t, u := Personal, WorkChain(f);
    PersonalRules(f);
    assert FirstFrom(t, 0, u, f) == if Holds(t[0].test, f) then t[0].outcome else FirstFrom(t, 1, u, f);
    if Holds(t[0].test, f) {
      return;
    }
    assert FirstFrom(t, 1, u, f) == if Holds(t[1].test, f) then t[1].outcome else FirstFrom(t, 2, u, f);
    if Holds(t[1].test, f) {
      return;
    }
    assert FirstFrom(t, 2, u, f) == if Holds(t[2].test, f) then t[2].outcome else FirstFrom(t, 3, u, f);
    if Holds(t[2].test, f) {
      return;
    }
    assert FirstFrom(t, 3, u, f) == if Holds(t[3].test, f) then t[3].outcome else FirstFrom(t, 4, u, f);
    if Holds(t[3].test, f) {
      return;
    }
    assert FirstFrom(t, 4, u, f) == if Holds(t[4].test, f) then t[4].outcome else FirstFrom(t, 5, u, f);
    if Holds(t[4].test, f) {
      return;
    }
    assert FirstFrom(t, 5, u, f) == if Holds(t[5].test, f) then t[5].outcome else FirstFrom(t, 6, u, f);
    if Holds(t[5].test, f) {
      return;
    }
    assert FirstFrom(t, 6, u, f) == u;
  }

  /** The table and the chain of `if`s give the same label on every event. */
  lemma FinalAgrees(f: Facts)
    ensures Final(f) == FinalChain(f)
  {
    var u := "uncategorized";
    FirstFromAppend(SetAside, Personal + Work, 0, u, f);
    FirstFromAppend(Personal, Work, 0, u, f);
    WorkRules(f);
    Unroll7(Work, u, f);
    PersonalAgrees(f);
    SetAsideAgrees(f);
  }

  /** `is_work_relevant_final` */
  predicate WorkRelevant(category: string) {
    category !in Excluded
  }

  /** The ten labels that count as work; `uncategorized` is one of them. */
  const WorkLabels: seq<string> := [
    "work_admin_it", "business_meals_networking", "customer_external",
    "internal_meetings_1on1_sync", "training_learning", "planning_strategy",
    "recruiting_hiring", "focus_time_blocked", "general_work_meetings", "uncategorized"]

  /** Of the nineteen labels, `is_work_relevant_final` rejects exactly the
      nine excluded ones and keeps the other ten. */
  lemma ExcludedExactly()
    ensures forall c :: c in Excluded ==> c in FinalLabels && !WorkRelevant(c)
    ensures forall c :: c in FinalLabels ==> (WorkRelevant(c) <==> c in WorkLabels)
    ensures |Excluded| == 9 && |WorkLabels| == 10 && |FinalLabels| == 19
  {
  }

  /** Zero attendees always gives `non_meetings_excluded`, whatever the
      other fields say. */
  lemma ZeroAttendees(f: Facts)
    requires f.attendees == 0
    ensures Final(f) == "non_meetings_excluded"
  {
    FinalAgrees(f);
  }

  /** A declined or tentative event never gets a work-relevant label. */
  lemma DeclinedNeverWork(f: Facts)
    requires f.status == "DECLINED" || f.status == "TENTATIVE"
    ensures !WorkRelevant(Final(f))
  {
    FinalAgrees(f);
  }

  /** A title containing "friday" never yields `focus_time_blocked`. */
  lemma FridayNeverFocus(f: Facts)
    requires Contains(f.title, "friday")
    ensures Final(f) != "focus_time_blocked"
  {
    FinalAgrees(f);
  }

  /** Once rules 0 to 2 fail, "focus friday" in the title excludes the event. */
  lemma FocusFridayExcluded(f: Facts)
    requires f.attendees > 0 && f.status != "DECLINED" && f.status != "TENTATIVE"
    requires f.busy != "OOF" && !AnyIn(PtoWords, f.title)
    requires Contains(f.title, "focus friday")
    ensures Final(f) == "focus_fridays_excluded"
  {
    FinalAgrees(f);
  }

  /** No rule before the meal rule fires. */
  predicate BeforeMeals(f: Facts) {
    && f.attendees > 0 && f.status != "DECLINED" && f.status != "TENTATIVE" && f.busy != "OOF"
    && !AnyIn(PtoWords, f.title) && !AnyIn(FocusFridayWords, f.title) && !AnyIn(AdminWordsFinal, f.title)
    && !(AnyIn(AppointmentWordsFinal, f.title) && !AnyIn(ClientWords, f.title))
  }

  /** A lunch or breakfast is a business meal exactly when a business
      keyword occurs in its title or description, and a personal break
      otherwise. */
  lemma MealsIff(f: Facts)
    requires BeforeMeals(f) && AnyIn(MealWords, f.title)
    ensures Final(f) == "business_meals_networking" <==>
      AnyIn(BusinessMealWordsFinal, f.title) || AnyIn(BusinessMealWordsFinal, f.desc)
    ensures Final(f) != "business_meals_networking" ==> Final(f) == "breaks_personal_excluded"
  {
    FinalAgrees(f);
    FocusFridayTest(f.title);
  }

  /** "customer" or "client" in the title suppresses the personal-appointment rule. */
  lemma ClientSuppressesPersonal(f: Facts)
    requires AnyIn(ClientWords, f.title)
    ensures Final(f) != "personal_appointments_excluded"
  {
    FinalAgrees(f);
  }
}
