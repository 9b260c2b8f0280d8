/** The classifiers of the scripts are ordered lists of tests over a few
    event fields, the first test that holds deciding the label. This module
    gives those lists a common shape: a `Rule` pairs a `Test` with the label
    it yields, and `Classify` walks a table of rules first-match-wins. */
module Rules {
  import opened Text
  import opened Events
  import opened Keywords

  /** What the classifiers read of an event: the lowercased title and
      description, the viewer's own status, busy status, transparency and
      the number of attendees. */
  datatype Facts = Facts(title: string, desc: string, status: string, busy: string, transp: string, attendees: nat)

  function FactsOf(e: Event): (f: Facts)
    ensures f.title == Lower(e.summary) && f.desc == Lower(e.description)
    ensures f.attendees == |e.attendees|
  {
    Facts(Lower(e.summary), Lower(e.description), e.status, e.busyStatus, e.transp, |e.attendees|)
  }

  /** `any(keyword in s for keyword in words)`, walked in list order. */
  predicate AnyIn(words: seq<string>, s: string) {
    |words| > 0 && (Contains(s, words[0]) || AnyIn(words[1..], s))
  }

  /** The walk finds a keyword exactly when some keyword of the list occurs. */
  lemma {:induction false} AnyInIff(words: seq<string>, s: string)
    ensures AnyIn(words, s) <==> exists i :: 0 <= i < |words| && Contains(s, words[i])
  {
    if |words| > 0 {
      AnyInIff(words[1..], s);
      assert forall i :: 1 <= i < |words| ==> words[i] == words[1..][i - 1];
    }
  }

  /** Extending a keyword list adds the new keywords' occurrences. */
  lemma {:induction false} AnyInAppend(a: seq<string>, b: seq<string>, s: string)
    ensures AnyIn(a + b, s) <==> AnyIn(a, s) || AnyIn(b, s)
  {
    if |a| > 0 {
      assert (a + b)[0] == a[0] && (a + b)[1..] == a[1..] + b;
      AnyInAppend(a[1..], b, s);
    } else {
      assert a + b == b;
    }
  }

  /** A test of one rule. */
  datatype Test =
    | NoAttendees
    | StatusIs(value: string)
    | BusyIs(value: string)
    /** `transp == t or busy_status == b` */
    | TranspOrBusy(transp: string, busy: string)
    /** `any(k in summary_lower for k in words)` */
    | InTitle(words: seq<string>)
    /** `any(k in summary_lower or k in desc_lower for k in words)` */
    | InTitleOrDesc(words: seq<string>)
    /** a title keyword, and none of the `unless` keywords in the title */
    | InTitleUnless(words: seq<string>, unless: seq<string>)
    /** a title keyword, and one of `also` in the title or description */
    | InTitleAlso(words: seq<string>, also: seq<string>)

  predicate Holds(t: Test, f: Facts) {
    match t
    case NoAttendees => f.attendees == 0
    case StatusIs(v) => f.status == v
    case BusyIs(v) => f.busy == v
    case TranspOrBusy(tr, b) => f.transp == tr || f.busy == b
    case InTitle(ws) => AnyIn(ws, f.title)
    case InTitleOrDesc(ws) => AnyIn(ws, f.title) || AnyIn(ws, f.desc)
    case InTitleUnless(ws, us) => AnyIn(ws, f.title) && !AnyIn(us, f.title)
    case InTitleAlso(ws, as_) => AnyIn(ws, f.title) && (AnyIn(as_, f.title) || AnyIn(as_, f.desc))
  }

  datatype Rule = Rule(test: Test, outcome: string)

  /** Rule `k` is the first rule at or after `i` whose test holds. */
  predicate FirstHolding(rules: seq<Rule>, i: nat, k: nat, f: Facts) {
    i <= k < |rules| && Holds(rules[k].test, f)
    && forall j :: i <= j < k ==> !Holds(rules[j].test, f)
  }

  /** The label of the first rule from `i` on whose test holds, else `otherwise`. */
  function FirstFrom(rules: seq<Rule>, i: nat, otherwise: string, f: Facts): string
    requires i <= |rules|
    decreases |rules| - i
  {
    if i == |rules| then otherwise
    else if Holds(rules[i].test, f) then rules[i].outcome
    else FirstFrom(rules, i + 1, otherwise, f)
  }

  /** The walk is first-match-wins: its label is that of the first rule
      whose test holds, or the fallback when none holds. */
  lemma {:induction false} FirstFromCases(rules: seq<Rule>, i: nat, otherwise: string, f: Facts)
    requires i <= |rules|
    ensures var r := FirstFrom(rules, i, otherwise, f);
      || (exists k: nat :: FirstHolding(rules, i, k, f) && r == rules[k].outcome)
      || ((forall k :: i <= k < |rules| ==> !Holds(rules[k].test, f)) && r == otherwise)
    decreases |rules| - i
  {
    if i < |rules| && !Holds(rules[i].test, f) {
      FirstFromCases(rules, i + 1, otherwise, f);
    }
  }

  /** Walking past the end of one table walks the next. */
  lemma {:induction false} FirstFromShift(a: seq<Rule>, b: seq<Rule>, j: nat, otherwise: string, f: Facts)
    requires j <= |b|
    ensures FirstFrom(a + b, |a| + j, otherwise, f) == FirstFrom(b, j, otherwise, f)
    decreases |b| - j
  {
    if j < |b| {
      assert (a + b)[|a| + j] == b[j];
      FirstFromShift(a, b, j + 1, otherwise, f);
    }
  }

  /** Two tables one after the other: the second table's label is the
      first table's fallback. */
  lemma {:induction false} FirstFromAppend(a: seq<Rule>, b: seq<Rule>, i: nat, otherwise: string, f: Facts)
    requires i <= |a|
    ensures FirstFrom(a + b, i, otherwise, f) == FirstFrom(a, i, FirstFrom(b, 0, otherwise, f), f)
    decreases |a| - i
  {
    if i < |a| {
      assert (a + b)[i] == a[i];
      FirstFromAppend(a, b, i + 1, otherwise, f);
    } else {
      FirstFromShift(a, b, 0, otherwise, f);
    }
  }

  /** A table of seven rules, the size of every classifier's work block,
      read as the chain of `if`s it stands for. */
  lemma Unroll7(t: seq<Rule>, u: string, f: Facts)
    requires |t| == 7
    ensures FirstFrom(t, 0, u, f) ==
      if Holds(t[0].test, f) then t[0].outcome
      else if Holds(t[1].test, f) then t[1].outcome
      else if Holds(t[2].test, f) then t[2].outcome
      else if Holds(t[3].test, f) then t[3].outcome
      else if Holds(t[4].test, f) then t[4].outcome
      else if Holds(t[5].test, f) then t[5].outcome
      else if Holds(t[6].test, f) then t[6].outcome
      else u
  {
    assert FirstFrom(t, 0, u, f) == if Holds(t[0].test, f) then t[0].outcome else FirstFrom(t, 1, u, f);
    if Holds(t[0].test, f) {
      return;
    }
    assert FirstFrom(t, 1, u, f) == if Holds(t[1].test, f) then t[1].outcome else FirstFrom(t, 2, u, f);
    if Holds(t[1].test, f) {
      return;
    }
    assert FirstFrom(t, 2, u, f) == if Holds(t[2].test, f) then t[2].outcome else FirstFrom(t, 3, u, f);
    if Holds(t[2].test, f) {
      return;
    }
    assert FirstFrom(t, 3, u, f) == if Holds(t[3].test, f) then t[3].outcome else FirstFrom(t, 4, u, f);
    if Holds(t[3].test, f) {
      return;
    }
    assert FirstFrom(t, 4, u, f) == if Holds(t[4].test, f) then t[4].outcome else FirstFrom(t, 5, u, f);
    if Holds(t[4].test, f) {
      return;
    }
    assert FirstFrom(t, 5, u, f) == if Holds(t[5].test, f) then t[5].outcome else FirstFrom(t, 6, u, f);
    if Holds(t[5].test, f) {
      return;
    }
    assert FirstFrom(t, 6, u, f) == if Holds(t[6].test, f) then t[6].outcome else FirstFrom(t, 7, u, f);
    if Holds(t[6].test, f) {
      return;
    }
    assert FirstFrom(t, 7, u, f) == u;
  }

  /** A first-match-wins classifier. */
  function Classify(rules: seq<Rule>, otherwise: string, f: Facts): (r: string)
    ensures r == otherwise || exists k :: 0 <= k < |rules| && r == rules[k].outcome
  {
    FirstFromCases(rules, 0, otherwise, f);
    FirstFrom(rules, 0, otherwise, f)
  }

  /** The labels a table can produce. */
  function Labels(rules: seq<Rule>, otherwise: string): (r: set<string>)
    ensures otherwise in r && forall k :: 0 <= k < |rules| ==> rules[k].outcome in r
  {
    {otherwise} + set k | 0 <= k < |rules| :: rules[k].outcome
  }

  /** A classifier is total over the labels of its table. */
  lemma ClassifyInLabels(rules: seq<Rule>, otherwise: string, f: Facts)
    ensures Classify(rules, otherwise, f) in Labels(rules, otherwise)
  {
  }

  /** Whichever rule holds first decides, whatever the later rules say. */
  lemma {:induction false} FirstDecides(rules: seq<Rule>, i: nat, otherwise: string, f: Facts, k: nat)
    requires FirstHolding(rules, i, k, f)
    ensures FirstFrom(rules, i, otherwise, f) == rules[k].outcome
    decreases k - i
  {
    if i < k {
      FirstDecides(rules, i + 1, otherwise, f, k);
    }
  }

  /** When no rule holds, the fallback label is the answer. */
  lemma {:induction false} NoneHolds(rules: seq<Rule>, i: nat, otherwise: string, f: Facts)
    requires i <= |rules| && forall k :: i <= k < |rules| ==> !Holds(rules[k].test, f)
    ensures FirstFrom(rules, i, otherwise, f) == otherwise
    decreases |rules| - i
  {
    if i < |rules| {
      NoneHolds(rules, i + 1, otherwise, f);
    }
  }

  /** A label that no rule yields is produced only as the fallback, when no
      rule holds. */
  lemma OnlyAsFallback(rules: seq<Rule>, otherwise: string, f: Facts, lbl: string)
    requires forall k :: 0 <= k < |rules| ==> rules[k].outcome != lbl
    ensures Classify(rules, otherwise, f) == lbl ==>
      lbl == otherwise && forall k :: 0 <= k < |rules| ==> !Holds(rules[k].test, f)
  {
    FirstFromCases(rules, 0, otherwise, f);
  }

  /** Only the `NoAttendees` test reads the number of attendees. */
  lemma BlindTest(t: Test, f: Facts, n: nat)
    requires !t.NoAttendees?
    ensures Holds(t, f) == Holds(t, f.(attendees := n))
  {
  }

  /** A table without a `NoAttendees` test gives the same label whatever
      the number of attendees. */
  lemma {:induction false} BlindTable(rules: seq<Rule>, i: nat, otherwise: string, f: Facts, n: nat)
    requires i <= |rules| && forall k :: i <= k < |rules| ==> !rules[k].test.NoAttendees?
    ensures FirstFrom(rules, i, otherwise, f) == FirstFrom(rules, i, otherwise, f.(attendees := n))
    decreases |rules| - i
  {
    if i < |rules| {
      BlindTest(rules[i].test, f, n);
      BlindTable(rules, i + 1, otherwise, f, n);
    }
  }

  /** A keyword found in the text makes the keyword list match. */
  lemma Found(words: seq<string>, k: nat, s: string)
    requires k < |words| && Contains(s, words[k])
    ensures AnyIn(words, s)
  {
    AnyInIff(words, s);
  }

  /** The Focus Friday list is the two tests the scripts spell out. */
  lemma FocusFridayTest(s: string)
    ensures AnyIn(FocusFridayWords, s) <==> Contains(s, "focus friday") || Contains(s, "focus fridays")
  {
    AnyInIff(FocusFridayWords, s);
    assert FocusFridayWords[0] == "focus friday" && FocusFridayWords[1] == "focus fridays";
  }

  lemma OneWord(w: string, s: string)
    ensures AnyIn([w], s) <==> Contains(s, w)
  {
    assert [w][1..] == [];
  }
}
