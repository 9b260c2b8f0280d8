/** The keyword lists of the classifiers, in the order the scripts write
    them. Where two scripts use the same list it is defined once; where a
    script extends or trims a list, the variant gets its own name. */
module Keywords {
  /** Time away: the first five are shared by every classifier. */
  const PtoWords: seq<string> := ["out of office", "ooo", "pto", "vacation", "holiday"]
  /** `is_work_relevant` (stakeholder analysis) adds personal reasons. */
  const AwayWords: seq<string> := PtoWords + ["personal", "dentist", "doctor"]
  /** `categorize_event` adds appointments as well. */
  const AwayOrAppointmentWords: seq<string> := AwayWords + ["appointment"]

  const FocusFridayWords: seq<string> := ["focus friday", "focus fridays"]

  /** `categorize_event`: any break, meal or exercise. */
  const BreakWords: seq<string> := ["lunch", "breakfast", "dinner", "coffee break", "break", "gym", "workout", "exercise"]
  /** Meals and exercise as the stakeholder and improved rules see them. */
  const MealOrGymWords: seq<string> := ["lunch", "breakfast", "gym", "workout"]
  const MealWords: seq<string> := ["lunch", "breakfast"]
  const GymWords: seq<string> := ["gym", "workout", "exercise"]
  /** What keeps a meal or an appointment business (stakeholder and improved rules). */
  const BusinessGuardWords: seq<string> := ["customer", "client", "meeting"]
  /** What keeps a personal appointment business (final rules). */
  const ClientWords: seq<string> := ["customer", "client"]
  /** What makes a meal a business meal (improved rules). */
  const BusinessMealWords: seq<string> := ["customer", "client", "dinner", "reception", "networking", "team", "cs dinner"]
  /** The final rules also know two internal event names. */
  const BusinessMealWordsFinal: seq<string> := BusinessMealWords + ["ebcs", "awi"]

  const AdminWords: seq<string> := ["laptop", "new laptop", "it support", "setup", "onboarding setup"]
  const AdminWordsFinal: seq<string> := ["laptop", "new laptop", "it support", "setup", "infoworks icm cloud"]
  const AppointmentWords: seq<string> := ["dentist", "doctor", "appointment", "personal"]
  const AppointmentWordsFinal: seq<string> := ["dentist", "doctor", "personal bookings"]

  /** 1:1s and syncs. */
  const SyncWords: seq<string> := ["1:1", "one on one", "1-1", "sync", "catch up", "check in"]
  /** Team meetings, as the meeting-type rules list them. */
  const TeamWords: seq<string> := ["team meeting", "standup", "stand-up", "all hands", "town hall"]
  /** `categorize_event`: 1:1s, syncs and team meetings in one list. */
  const InternalWords: seq<string> := ["1:1", "one on one", "1-1", "sync", "standup", "stand-up",
    "team meeting", "all hands", "town hall", "skip level"]

  const CustomerWordsShort: seq<string> := ["customer", "client", "external", "demo", "presentation"]
  const CustomerWords: seq<string> := CustomerWordsShort + ["sales", "prospect"]
  const CustomerWordsFinal: seq<string> := CustomerWords + ["dinner", "reception"]

  const TrainingWordsShort: seq<string> := ["training", "workshop", "learning", "course", "webinar"]
  const TrainingWords: seq<string> := TrainingWordsShort + ["certification", "onboarding"]

  const PlanningWordsShort: seq<string> := ["planning", "roadmap", "strategy", "review", "retrospective", "sprint"]
  const PlanningWords: seq<string> := PlanningWordsShort + ["scrum", "project", "initiative"]
  const PlanningWordsFinal: seq<string> := PlanningWords + ["backlog", "refinement"]

  const RecruitingWords: seq<string> := ["interview", "candidate", "hiring", "recruiting", "screening"]

  const FocusWordsShort: seq<string> := ["focus", "blocked", "do not book", "heads down"]
  const FocusWords: seq<string> := ["focus", "focus time", "blocked", "do not book", "dnb", "heads down", "deep work", "no meetings"]
  /** The final rules drop the bare word "focus". */
  const FocusWordsFinal: seq<string> := FocusWords[1..]
}
