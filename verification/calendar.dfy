/** `categorize_event` of the calendar analysis script: fourteen labels,
    personal and declined time first, then work categories, with a busy
    fallback. */
module Calendar {
  import opened Text
  import opened Rules
  import opened Keywords

  /** The report's `category_order`: every label `categorize_event` can give. */
  const CategoryOrder: seq<string> := [
    "declined_tentative_declined", "declined_tentative_tentative", "out_of_office",
    "personal_time_off", "breaks_personal_care", "free_time_transparent",
    "focus_time_blocked", "customer_external", "planning_strategy",
    "internal_meetings_1on1_sync", "recruiting_hiring", "training_learning",
    "general_work_meetings", "uncategorized"]

  /** The rules in order, in two blocks: time set aside, then the work
      categories. */
  const Table: seq<Rule> := SetAside + Work

  const SetAside: seq<Rule> := [
    Rule(StatusIs("DECLINED"), "declined_tentative_declined"),
    Rule(StatusIs("TENTATIVE"), "declined_tentative_tentative"),
    Rule(BusyIs("OOF"), "out_of_office"),
    Rule(InTitle(AwayOrAppointmentWords), "personal_time_off"),
    Rule(InTitle(BreakWords), "breaks_personal_care"),
    Rule(TranspOrBusy("TRANSPARENT", "FREE"), "free_time_transparent")]

  const Work: seq<Rule> := [
    Rule(InTitle(InternalWords), "internal_meetings_1on1_sync"),
    Rule(InTitleOrDesc(CustomerWords), "customer_external"),
    Rule(InTitle(TrainingWords), "training_learning"),
    Rule(InTitle(PlanningWords), "planning_strategy"),
    Rule(InTitle(RecruitingWords), "recruiting_hiring"),
    Rule(InTitle(FocusWords), "focus_time_blocked"),
    Rule(TranspOrBusy("OPAQUE", "BUSY"), "general_work_meetings")]

  /** `categorize_event`: the label is always one of `category_order`. */
  function Categorize(f: Facts): (r: string)
    ensures r in CategoryOrder
  {
    LabelsListed();
    Classify(Table, "uncategorized", f)
  }

  lemma LabelsListed()
    ensures forall k :: 0 <= k < |Table| ==> Table[k].outcome in CategoryOrder
    ensures "uncategorized" in CategoryOrder
  {
  }

  /** The function as the script writes it, one `if` after another; the
      chain is cut where the table's blocks meet. */
  function CategorizeChain(f: Facts): string {
    // `f"declined_tentative_{event.status.lower()}"` on the two statuses
    if f.status == "DECLINED" then "declined_tentative_declined"
    else if f.status == "TENTATIVE" then "declined_tentative_tentative"
    else if f.busy == "OOF" then "out_of_office"
    else if AnyIn(AwayOrAppointmentWords, f.title) then "personal_time_off"
    else if AnyIn(BreakWords, f.title) then "breaks_personal_care"
    else if f.transp == "TRANSPARENT" || f.busy == "FREE" then "free_time_transparent"
    else WorkChain(f)
  }

  function WorkChain(f: Facts): string {
    if AnyIn(InternalWords, f.title) then "internal_meetings_1on1_sync"
    else if AnyIn(CustomerWords, f.title) || AnyIn(CustomerWords, f.desc) then "customer_external"
    else if AnyIn(TrainingWords, f.title) then "training_learning"
    else if AnyIn(PlanningWords, f.title) then "planning_strategy"
    else if AnyIn(RecruitingWords, f.title) then "recruiting_hiring"
    else if AnyIn(FocusWords, f.title) then "focus_time_blocked"
    else if f.busy == "BUSY" || f.transp == "OPAQUE" then "general_work_meetings"
    else "uncategorized"
  }

  /** What the set-aside rules test and yield. */
  lemma SetAsideRules(f: Facts)
    ensures |SetAside| == 6
    ensures Holds(SetAside[0].test, f) == (f.status == "DECLINED") && SetAside[0].outcome == "declined_tentative_declined"
    ensures Holds(SetAside[1].test, f) == (f.status == "TENTATIVE") && SetAside[1].outcome == "declined_tentative_tentative"
    ensures Holds(SetAside[2].test, f) == (f.busy == "OOF") && SetAside[2].outcome == "out_of_office"
    ensures Holds(SetAside[3].test, f) == (AnyIn(AwayOrAppointmentWords, f.title)) && SetAside[3].outcome == "personal_time_off"
    ensures Holds(SetAside[4].test, f) == (AnyIn(BreakWords, f.title)) && SetAside[4].outcome == "breaks_personal_care"
    ensures Holds(SetAside[5].test, f) == (f.transp == "TRANSPARENT" || f.busy == "FREE") && SetAside[5].outcome == "free_time_transparent"
  {
  }

  /** What the work rules test and yield. */
  lemma WorkRules(f: Facts)
    ensures |Work| == 7
    ensures Holds(Work[0].test, f) == (AnyIn(InternalWords, f.title)) && Work[0].outcome == "internal_meetings_1on1_sync"
    ensures Holds(Work[1].test, f) == (AnyIn(CustomerWords, f.title) || AnyIn(CustomerWords, f.desc)) && Work[1].outcome == "customer_external"
    ensures Holds(Work[2].test, f) == (AnyIn(TrainingWords, f.title)) && Work[2].outcome == "training_learning"
    ensures Holds(Work[3].test, f) == (AnyIn(PlanningWords, f.title)) && Work[3].outcome == "planning_strategy"
    ensures Holds(Work[4].test, f) == (AnyIn(RecruitingWords, f.title)) && Work[4].outcome == "recruiting_hiring"
    ensures Holds(Work[5].test, f) == (AnyIn(FocusWords, f.title)) && Work[5].outcome == "focus_time_blocked"
    ensures Holds(Work[6].test, f) == (f.busy == "BUSY" || f.transp == "OPAQUE") && Work[6].outcome == "general_work_meetings"
  {
  }

  /** The set-aside block with the work chain as its fallback is the whole chain. */
  lemma SetAsideAgrees(f: Facts)
    ensures FirstFrom(SetAside, 0, WorkChain(f), f) == CategorizeChain(f)
  {
    var t, u := SetAside, WorkChain(f);
    SetAsideRules(f);
    assert FirstFrom(t, 0, u, f) == if Holds(t[0].test, f) then t[0].outcome else FirstFrom(t, 1, u, f);
    if Holds(t[0].test, f) {
      return;
    }
    assert FirstFrom(t, 1, u, f) == if Holds(t[1].test, f) then t[1].outcome else FirstFrom(t, 2, u, f);
    if Holds(t[1].test, f) {
      return;
    }
    assert FirstFrom(t, 2, u, f) == if Holds(t[2].test, f) then t[2].outcome else FirstFrom(t, 3, u, f);
    if Holds(t[2].test, f) {
      return;
    }
    assert FirstFrom(t, 3, u, f) == if Holds(t[3].test, f) then t[3].outcome else FirstFrom(t, 4, u, f);
    if Holds(t[3].test, f) {
      return;
    }
    assert FirstFrom(t, 4, u, f) == if Holds(t[4].test, f) then t[4].outcome else FirstFrom(t, 5, u, f);
    if Holds(t[4].test, f) {
      return;
    }
    assert FirstFrom(t, 5, u, f) == if Holds(t[5].test, f) then t[5].outcome else FirstFrom(t, 6, u, f);
    if Holds(t[5].test, f) {
      return;
    }
    assert FirstFrom(t, 6, u, f) == u;
  }

  /** The table and the chain of `if`s give the same label on every event. */
  lemma CategorizeAgrees(f: Facts)
    ensures Categorize(f) == CategorizeChain(f)
  {
    FirstFromAppend(SetAside, Work, 0, "uncategorized", f);
    WorkRules(f);
    Unroll7(Work, "uncategorized", f);
    SetAsideAgrees(f);
  }

  /** The viewer's own DECLINED or TENTATIVE status beats every other rule. */
  lemma DeclinedFirst(f: Facts)
    requires f.status == "DECLINED" || f.status == "TENTATIVE"
    ensures Categorize(f) == if f.status == "DECLINED" then "declined_tentative_declined" else "declined_tentative_tentative"
  {
    CategorizeAgrees(f);
  }

  /** Out-of-office busy status comes next and beats all the rest. */
  lemma OutOfOfficeNext(f: Facts)
    requires f.status != "DECLINED" && f.status != "TENTATIVE" && f.busy == "OOF"
    ensures Categorize(f) == "out_of_office"
  {
    CategorizeAgrees(f);
  }

  /** None of the personal, break or free-time rules applies. */
  predicate WorkTime(f: Facts) {
    && f.status != "DECLINED" && f.status != "TENTATIVE" && f.busy != "OOF"
    && !AnyIn(AwayOrAppointmentWords, f.title) && !AnyIn(BreakWords, f.title)
    && f.transp != "TRANSPARENT" && f.busy != "FREE"
  }

  /** 1:1 and sync keywords are tested before the customer keywords: a
      "customer sync" is an internal meeting. */
  lemma SyncBeforeCustomer(f: Facts)
    requires WorkTime(f) && Contains(f.title, "sync")
    ensures Categorize(f) == "internal_meetings_1on1_sync"
  {
    assert InternalWords[3] == "sync";
    Found(InternalWords, 3, f.title);
    CategorizeAgrees(f);
  }

  lemma CustomerSync(f: Facts)
    requires WorkTime(f) && Contains(f.title, "customer sync")
    ensures Categorize(f) == "internal_meetings_1on1_sync"
  {
    assert OccursAt("customer sync", "sync", 9);
    ContainsTransitive(f.title, "customer sync", "sync");
    SyncBeforeCustomer(f);
  }

  /** Any title containing "break", "breakfast" included, is a break unless
      an earlier rule fired. */
  lemma BreakWins(f: Facts)
    requires f.status != "DECLINED" && f.status != "TENTATIVE" && f.busy != "OOF"
    requires !AnyIn(AwayOrAppointmentWords, f.title) && Contains(f.title, "break")
    ensures Categorize(f) == "breaks_personal_care"
  {
    assert BreakWords[4] == "break";
    Found(BreakWords, 4, f.title);
    CategorizeAgrees(f);
  }

  lemma BreakfastIsBreak(f: Facts)
    requires Contains(f.title, "breakfast")
    ensures Contains(f.title, "break")
  {
    assert OccursAt("breakfast", "break", 0);
    ContainsTransitive(f.title, "breakfast", "break");
  }

  /** An event is uncategorized exactly when no rule fires: no personal,
      break or work keyword, and neither busy nor opaque. */
  lemma UncategorizedIff(f: Facts)
    ensures Categorize(f) == "uncategorized" <==>
      && WorkTime(f)
      && !AnyIn(InternalWords, f.title) && !AnyIn(CustomerWords, f.title) && !AnyIn(CustomerWords, f.desc)
      && !AnyIn(TrainingWords, f.title) && !AnyIn(PlanningWords, f.title)
      && !AnyIn(RecruitingWords, f.title) && !AnyIn(FocusWords, f.title)
      && f.busy != "BUSY" && f.transp != "OPAQUE"
  {
    CategorizeAgrees(f);
  }
}
