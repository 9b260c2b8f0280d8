/** The categorisation pass of `analyze_uncategorized`: every event is
    labelled by `categorize_event_improved`, the events are grouped by label,
    and the `uncategorized` group is examined for blank titles and broken
    down by busy status and transparency. */
module UncategorizedReport {
  import opened Text
  import opened Events
  import opened Rules
  import Improved
  import opened Tally

  function ImprovedOf(e: Event): string {
    Improved.Improved(FactsOf(e))
  }

  function ImprovedKeys(es: seq<Event>): (r: seq<string>)
    ensures |r| == |es| && forall i :: 0 <= i < |es| ==> r[i] == ImprovedOf(es[i]) && r[i] in Improved.ImprovedLabels
  {
    MapSeq(es, ImprovedOf)
  }

  function Categorized(es: seq<Event>): map<string, seq<Event>> {
    Group(es, ImprovedKeys(es))
  }

  /** Every event lands in exactly one label's list, and each list holds
      the events with that label in input order. */
  lemma EachEventOnce(es: seq<Event>)
    ensures var g, keys := Categorized(es), ImprovedKeys(es);
      && MapSum(g, LengthOf) == |es| as real
      && (forall c :: c in g <==> c in keys)
      && (forall c :: c in g ==> g[c] == Filter(es, keys, c))
  {
    GroupAt(es, ImprovedKeys(es));
    GroupTotal(es, ImprovedKeys(es));
  }

  /** `categorized['uncategorized']`, empty when no event has the label. */
  function Uncategorized(es: seq<Event>): seq<Event> {
    var g := Categorized(es);
    if "uncategorized" in g then g["uncategorized"] else []
  }

  /** The uncategorized list is exactly the events with that label, in input
      order, whether or not any event has it. */
  lemma UncategorizedAre(es: seq<Event>)
    ensures Uncategorized(es) == Filter(es, ImprovedKeys(es), "uncategorized")
  {
    var keys := ImprovedKeys(es);
    GroupAtKey(es, keys, "uncategorized");
    if "uncategorized" !in keys {
      Absent(keys, "uncategorized");
    }
  }

  /** `[e for e in es if not e.summary.strip()]` */
  function BlankTitles(es: seq<Event>): (r: seq<Event>)
    ensures |r| <= |es|
    ensures forall e :: e in r ==> e in es && IsBlank(e.summary)
    ensures forall e :: e in es && IsBlank(e.summary) ==> e in r
  {
    if |es| == 0 then []
    else
      var n := |es| - 1;
      var front := BlankTitles(es[..n]);
      MemberLast(es);
      if IsBlank(es[n].summary) then front + [es[n]] else front
  }

  lemma MemberLast(es: seq<Event>)
    requires |es| > 0
    ensures forall e :: e in es <==> e in es[..|es| - 1] || e == es[|es| - 1]
  {
    assert es == es[..|es| - 1] + [es[|es| - 1]];
  }

  /** A title is blank exactly when every character is white space. */
  lemma BlankMeansSpaces(es: seq<Event>)
    ensures forall e :: e in BlankTitles(es) <==>
      e in es && forall k :: 0 <= k < |e.summary| ==> IsSpace(e.summary[k])
  {
    forall e: Event {
      BlankIffAllSpace(e.summary);
    }
  }

  /** `e.busy_status or 'None'` */
  function BusyOrNone(e: Event): (r: string)
    ensures r != ""
  {
    if e.busyStatus != "" then e.busyStatus else "None"
  }

  /** `e.transp or 'None'` */
  function TranspOrNone(e: Event): (r: string)
    ensures r != ""
  {
    if e.transp != "" then e.transp else "None"
  }

  /** The busy-status and transparency breakdowns of the uncategorized events. */
  function ByBusy(es: seq<Event>): map<string, nat> {
    Counts(MapSeq(Uncategorized(es), BusyOrNone))
  }

  function ByTransp(es: seq<Event>): map<string, nat> {
    Counts(MapSeq(Uncategorized(es), TranspOrNone))
  }

  /** Each breakdown counts every uncategorized event exactly once, an empty
      value under "None"; no key is empty. */
  lemma BreakdownsAddUp(es: seq<Event>)
    ensures MapSum(ByBusy(es), NatOf) == |Uncategorized(es)| as real
    ensures MapSum(ByTransp(es), NatOf) == |Uncategorized(es)| as real
    ensures "" !in ByBusy(es) && "" !in ByTransp(es)
    ensures forall s :: s in ByBusy(es) ==> ByBusy(es)[s] == CountIn(MapSeq(Uncategorized(es), BusyOrNone), s)
  {
    var u := Uncategorized(es);
    CountsTotal(MapSeq(u, BusyOrNone));
    CountsTotal(MapSeq(u, TranspOrNone));
    CountsAt(MapSeq(u, BusyOrNone));
    CountsAt(MapSeq(u, TranspOrNone));
  }
}
