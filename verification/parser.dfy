/** `parse_ics_file`: a state machine over the lines of a calendar export.
    Events are opened by `BEGIN:VEVENT` and emitted by `END:VEVENT`; inside
    an event each `NAME;PARAMS:value` line goes to the decoder. A line
    ending in `=` is held back as pending, and following lines that start
    with a space or tab are stripped and glued onto it; the pending property
    is decoded at the next line that is not such a continuation. */
module Parser {
  import opened Wrappers
  import opened Text
  import opened Events
  import opened Decoder

  /** The loop's variables: the events emitted so far, the event being
      built, the pending property's name (`""` stands for Python's `None`,
      which the code treats alike) and its accumulated value. */
  datatype State = State(events: seq<Event>, current: Option<Event>, field: string, pending: string)

  const Start := State([], None, "", "")

  predicate IsEol(c: char) {
    c == '\n' || c == '\r'
  }

  /** `line.rstrip('\n\r')` */
  function TrimEol(s: string): (r: string)
    ensures IsPrefix(r, s)
    ensures r == [] || !IsEol(r[|r| - 1])
    ensures forall k :: |r| <= k < |s| ==> IsEol(s[k])
  {
    if |s| > 0 && IsEol(s[|s| - 1]) then TrimEol(s[..|s| - 1]) else s
  }

  /** `line.startswith((' ', '\t'))` */
  predicate Indented(line: string) {
    |line| > 0 && (line[0] == ' ' || line[0] == '\t')
  }

  /** Decodes the pending property into the current event, if one is pending. */
  function Flush(d: Dialect, viewer: string, st: State): (r: State)
    ensures r.events == st.events && r.current.Some? == st.current.Some?
    ensures st.field != "" && st.pending != "" ==> r.field == "" && r.pending == ""
    ensures !(st.field != "" && st.pending != "") ==> r == st
  {
    if st.field != "" && st.pending != "" then
      // `current` is always open while a property is pending (`KeepsInvariant`)
      var current := match st.current
        case Some(e) => Some(Decode(d, viewer, e, st.field, st.pending))
        case None => None;
      State(st.events, current, "", "")
    else st
  }

  /** What a line that is not a continuation does once the pending property
      has been flushed. */
  function Handle(d: Dialect, viewer: string, st: State, line: string): State {
    if line == "BEGIN:VEVENT" then st.(current := Some(Blank))
    else if line == "END:VEVENT" && st.current.Some? then st.(events := st.events + [st.current.value], current := None)
    else if st.current.Some? && ':' in line then
      var field := Before(line, ':');
      var value := After(line, ':');
      if !EndsWith(line, '=') then st.(current := Some(Decode(d, viewer, st.current.value, field, value)), field := "")
      else st.(field := field, pending := value)
    else st
  }

  /** One iteration of the loop. */
  function Step(d: Dialect, viewer: string, st: State, raw: string): State {
    var line := TrimEol(raw);
    if Indented(line) && st.field != "" then st.(pending := st.pending + Strip(line))
    else Handle(d, viewer, Flush(d, viewer, st), line)
  }

  function Run(d: Dialect, viewer: string, st: State, lines: seq<string>): State
    decreases |lines|
  {
    if |lines| == 0 then st else Run(d, viewer, Step(d, viewer, st, lines[0]), lines[1..])
  }

  /** `parse_ics_file` on the file's lines: what is pending or open at the
      end is dropped. */
  function Parse(d: Dialect, viewer: string, lines: seq<string>): seq<Event> {
    Run(d, viewer, Start, lines).events
  }

  /** While a property is pending, an event is open and the pending value is
      not empty (a line ending in `=` after its first `:` has a non-empty value). */
  predicate Invariant(st: State) {
    st.field != "" ==> st.current.Some? && st.pending != ""
  }

  lemma KeepsInvariant(d: Dialect, viewer: string, st: State, raw: string)
    requires Invariant(st)
    ensures Invariant(Step(d, viewer, st, raw))
  {
    var line := TrimEol(raw);
    if !(Indented(line) && st.field != "") && EndsWith(line, '=') && ':' in line {
      var value := After(line, ':');
      assert line == Before(line, ':') + [':'] + value;
      assert value != "";
    }
  }

  lemma {:induction false} RunKeepsInvariant(d: Dialect, viewer: string, st: State, lines: seq<string>)
    requires Invariant(st)
    ensures Invariant(Run(d, viewer, st, lines))
    decreases |lines|
  {
    if |lines| > 0 {
      KeepsInvariant(d, viewer, st, lines[0]);
      RunKeepsInvariant(d, viewer, Step(d, viewer, st, lines[0]), lines[1..]);
    }
  }

  /** Running two stretches of input is running their concatenation. */
  lemma {:induction false} RunAppend(d: Dialect, viewer: string, st: State, a: seq<string>, b: seq<string>)
    ensures Run(d, viewer, st, a + b) == Run(d, viewer, Run(d, viewer, st, a), b)
    decreases |a|
  {
    if |a| > 0 {
      var st1 := Step(d, viewer, st, a[0]);
      assert (a + b)[0] == a[0] && (a + b)[1..] == a[1..] + b;
      calc {
        Run(d, viewer, st, a + b);
        Run(d, viewer, st1, a[1..] + b);
        { RunAppend(d, viewer, st1, a[1..], b); }
        Run(d, viewer, Run(d, viewer, st1, a[1..]), b);
      }
    } else {
      assert a + b == b;
    }
  }

  /** An event is emitted only by an `END:VEVENT` line while an event is
      open, and it is that event with its pending property decoded. */
  lemma StepEmits(d: Dialect, viewer: string, st: State, raw: string)
    ensures Step(d, viewer, st, raw).events ==
      if TrimEol(raw) == "END:VEVENT" && st.current.Some?
      then st.events + [Flush(d, viewer, st).current.value]
      else st.events
  {
    var line := TrimEol(raw);
    if Indented(line) && st.field != "" {
      assert line != "END:VEVENT" by {
        assert "END:VEVENT"[0] == 'E';
      }
    } else {
      HandleEmits(d, viewer, Flush(d, viewer, st), line);
    }
  }

  lemma HandleEmits(d: Dialect, viewer: string, st: State, line: string)
    ensures Handle(d, viewer, st, line).events ==
      if line == "END:VEVENT" && st.current.Some? then st.events + [st.current.value] else st.events
  {
    assert "BEGIN:VEVENT"[0] != "END:VEVENT"[0];
  }

  /** The number of lines that read `END:VEVENT` once line ends are removed. */
  function CountEnds(lines: seq<string>): nat {
    if |lines| == 0 then 0 else (if TrimEol(lines[0]) == "END:VEVENT" then 1 else 0) + CountEnds(lines[1..])
  }

  /** Emitted events are never retracted, and each `END:VEVENT` adds at most one. */
  lemma {:induction false} EventsGrow(d: Dialect, viewer: string, st: State, lines: seq<string>)
    ensures var r := Run(d, viewer, st, lines).events;
      |st.events| <= |r| <= |st.events| + CountEnds(lines) && r[..|st.events|] == st.events
    decreases |lines|
  {
    if |lines| > 0 {
      var st1 := Step(d, viewer, st, lines[0]);
      StepEmits(d, viewer, st, lines[0]);
      EventsGrow(d, viewer, st1, lines[1..]);
      var r := Run(d, viewer, st1, lines[1..]).events;
      assert r[..|st.events|] == r[..|st1.events|][..|st.events|];
    }
  }

  /** There are never more events than `END:VEVENT` lines. */
  lemma AtMostOnePerEnd(d: Dialect, viewer: string, lines: seq<string>)
    ensures |Parse(d, viewer, lines)| <= CountEnds(lines)
  {
    EventsGrow(d, viewer, Start, lines);
  }

  /** Without another `END:VEVENT`, nothing more is emitted: an event still
      open at the end of the input is lost. */
  lemma {:induction false} OpenEventDropped(d: Dialect, viewer: string, st: State, tail: seq<string>)
    requires forall i :: 0 <= i < |tail| ==> TrimEol(tail[i]) != "END:VEVENT"
    ensures Run(d, viewer, st, tail).events == st.events
    decreases |tail|
  {
    if |tail| > 0 {
      StepEmits(d, viewer, st, tail[0]);
      OpenEventDropped(d, viewer, Step(d, viewer, st, tail[0]), tail[1..]);
    }
  }

  /** Outside an event, every line but `BEGIN:VEVENT` is ignored. */
  lemma OutsideIgnored(d: Dialect, viewer: string, st: State, raw: string)
    requires st.current.None? && st.field == "" && TrimEol(raw) != "BEGIN:VEVENT"
    ensures Step(d, viewer, st, raw) == st
  {
  }

  /** A `BEGIN:VEVENT` while an event is open throws the open one away. */
  lemma BeginRestarts(d: Dialect, viewer: string, st: State, raw: string)
    requires TrimEol(raw) == "BEGIN:VEVENT"
    ensures Step(d, viewer, st, raw).current == Some(Blank)
    ensures Step(d, viewer, st, raw).events == st.events
    ensures Invariant(st) ==> Step(d, viewer, st, raw).field == ""
  {
  }

  /** A line the decoder takes at once, with nothing pending. */
  lemma StepPlain(d: Dialect, viewer: string, st: State, line: string)
    requires st.field == "" && st.current.Some? && TrimEol(line) == line
    requires !Indented(line) && ':' in line && !EndsWith(line, '=')
    requires line != "BEGIN:VEVENT" && line != "END:VEVENT"
    ensures Step(d, viewer, st, line)
      == st.(current := Some(Decode(d, viewer, st.current.value, Before(line, ':'), After(line, ':'))))
  {
    assert Flush(d, viewer, st) == st;
  }

  lemma RunOne(d: Dialect, viewer: string, st: State, raw: string)
    ensures Run(d, viewer, st, [raw]) == Step(d, viewer, st, raw)
  {
  }

  /** A line the decoder takes at once: a property line with a `:`, not
      ending in `=`, neither indented nor an event boundary. */
  predicate Plain(raw: string) {
    var line := TrimEol(raw);
    !Indented(line) && ':' in line && !EndsWith(line, '=')
    && line != "BEGIN:VEVENT" && line != "END:VEVENT"
  }

  /** Decoding plain lines one after another into `e`. */
  function Apply(d: Dialect, viewer: string, e: Event, lines: seq<string>): Event
    decreases |lines|
  {
    if |lines| == 0 then e
    else
      var line := TrimEol(lines[0]);
      Apply(d, viewer, Decode(d, viewer, e, Before(line, ':'), After(line, ':')), lines[1..])
  }

  lemma {:induction false} PlainRun(d: Dialect, viewer: string, evs: seq<Event>, e: Event, p: string, body: seq<string>)
    requires forall i :: 0 <= i < |body| ==> Plain(body[i])
    ensures Run(d, viewer, State(evs, Some(e), "", p), body) == State(evs, Some(Apply(d, viewer, e, body)), "", p)
    decreases |body|
  {
    if |body| > 0 {
      var line := TrimEol(body[0]);
      var e1 := Decode(d, viewer, e, Before(line, ':'), After(line, ':'));
      assert Step(d, viewer, State(evs, Some(e), "", p), body[0]) == State(evs, Some(e1), "", p);
      PlainRun(d, viewer, evs, e1, p, body[1..]);
    }
  }

  /** A well-formed block `BEGIN:VEVENT`, plain lines, `END:VEVENT` emits
      exactly one event: the plain lines decoded in order into a blank event. */
  lemma BlockEmitsOne(d: Dialect, viewer: string, st: State, body: seq<string>)
    requires Invariant(st)
    requires forall i :: 0 <= i < |body| ==> Plain(body[i])
    ensures Run(d, viewer, st, ["BEGIN:VEVENT"] + body + ["END:VEVENT"]).events
      == st.events + [Apply(d, viewer, Blank, body)]
  {
    assert TrimEol("BEGIN:VEVENT") == "BEGIN:VEVENT";
    assert TrimEol("END:VEVENT") == "END:VEVENT";
    BeginRestarts(d, viewer, st, "BEGIN:VEVENT");
    var st1 := Step(d, viewer, st, "BEGIN:VEVENT");
    assert st1 == State(st.events, Some(Blank), "", st1.pending);
    RunOne(d, viewer, st, "BEGIN:VEVENT");
    PlainRun(d, viewer, st.events, Blank, st1.pending, body);
    var st2 := Run(d, viewer, st1, body);
    StepEmits(d, viewer, st2, "END:VEVENT");
    RunOne(d, viewer, st2, "END:VEVENT");
    RunAppend(d, viewer, st, ["BEGIN:VEVENT"], body);
    RunAppend(d, viewer, st, ["BEGIN:VEVENT"] + body, ["END:VEVENT"]);
  }

  /** The pending value only matters while a property is pending. */
  function Normalize(st: State): State {
    if st.field == "" then st.(pending := "") else st
  }

  lemma StepNormalize(d: Dialect, viewer: string, st: State, raw: string)
    ensures Normalize(Step(d, viewer, Normalize(st), raw)) == Normalize(Step(d, viewer, st, raw))
  {
  }

  lemma {:induction false} RunNormalize(d: Dialect, viewer: string, a: State, b: State, lines: seq<string>)
    requires Normalize(a) == Normalize(b)
    ensures Normalize(Run(d, viewer, a, lines)) == Normalize(Run(d, viewer, b, lines))
    decreases |lines|
  {
    if |lines| > 0 {
      StepNormalize(d, viewer, a, lines[0]);
      StepNormalize(d, viewer, b, lines[0]);
      RunNormalize(d, viewer, Step(d, viewer, a, lines[0]), Step(d, viewer, b, lines[0]), lines[1..]);
    }
  }

  /** The stripped continuation lines, glued together without a separator. */
  function Joined(cs: seq<string>): string {
    if |cs| == 0 then "" else Strip(TrimEol(cs[0])) + Joined(cs[1..])
  }

  lemma StepContinues(d: Dialect, viewer: string, st: State, raw: string)
    requires st.field != "" && Indented(TrimEol(raw))
    ensures Step(d, viewer, st, raw) == st.(pending := st.pending + Strip(TrimEol(raw)))
  {
  }

  lemma {:induction false} ContinuationsAppend(d: Dialect, viewer: string, st: State, cs: seq<string>)
    requires st.field != ""
    requires forall i :: 0 <= i < |cs| ==> Indented(TrimEol(cs[i]))
    ensures Run(d, viewer, st, cs) == st.(pending := st.pending + Joined(cs))
    decreases |cs|
  {
    if |cs| > 0 {
      StepContinues(d, viewer, st, cs[0]);
      var st1 := Step(d, viewer, st, cs[0]);
      ContinuationsAppend(d, viewer, st1, cs[1..]);
      var a, rest := Strip(TrimEol(cs[0])), Joined(cs[1..]);
      assert Joined(cs) == a + rest;
      Assoc(st.pending, a, rest);
    }
  }

  lemma Assoc(a: string, b: string, c: string)
    ensures (a + b) + c == a + (b + c)
  {
  }

  /** `s` is empty or ends in a character other than whitespace. */
  predicate EndsClean(s: string) {
    s == [] || !IsSpace(s[|s| - 1])
  }

  /** The glued text never ends in whitespace. */
  lemma {:induction false} JoinedEnd(cs: seq<string>)
    ensures EndsClean(Joined(cs))
    decreases |cs|
  {
    if |cs| > 0 {
      var head := Strip(TrimEol(cs[0]));
      JoinedEnd(cs[1..]);
      assert EndsClean(head);
      EndAppend(head, Joined(cs[1..]));
    }
  }

  /** Two texts that do not end in whitespace glue into one that does not. */
  lemma EndAppend(a: string, b: string)
    requires EndsClean(a) && EndsClean(b)
    ensures EndsClean(a + b)
  {
    if b == [] {
      assert a + b == a;
    }
  }

  /** A head line ending in `=` opens the pending property, and the
      continuations extend its value. */
  lemma Folded(d: Dialect, viewer: string, st: State, head: string, cs: seq<string>)
    requires st.current.Some? && st.field == ""
    requires var h := TrimEol(head);
      !Indented(h) && ':' in h && Before(h, ':') != "" && EndsWith(h, '=')
    requires forall i :: 0 <= i < |cs| ==> Indented(TrimEol(cs[i]))
    ensures var h := TrimEol(head);
      Run(d, viewer, st, [head] + cs) == st.(field := Before(h, ':'), pending := After(h, ':') + Joined(cs))
  {
    var h := TrimEol(head);
    var field, value := Before(h, ':'), After(h, ':');
    assert h == field + [':'] + value;
    assert h != "BEGIN:VEVENT" && h != "END:VEVENT" by {
      assert h[|h| - 1] == '=';
    }
    var a1 := Step(d, viewer, st, head);
    assert a1 == st.(field := field, pending := value);
    assert Run(d, viewer, st, [head]) == a1;
    ContinuationsAppend(d, viewer, a1, cs);
    RunAppend(d, viewer, st, [head], cs);
  }

  /** Neither boundary line contains `=`. */
  lemma BoundaryHasNoEquals(u: string, i: nat)
    requires i < |u| && u[i] == '='
    ensures u != "BEGIN:VEVENT" && u != "END:VEVENT"
  {
    var b, e := "BEGIN:VEVENT", "END:VEVENT";
    assert forall k :: 0 <= k < |b| ==> b[k] != '=';
    assert forall k :: 0 <= k < |e| ==> e[k] != '=';
  }

  /** The same property on one line is decoded at once. */
  lemma Unfolded(d: Dialect, viewer: string, st: State, h: string, j: string)
    requires st.current.Some? && st.field == ""
    requires !Indented(h) && ':' in h && Before(h, ':') != "" && EndsWith(h, '=')
    requires !EndsWith(h + j, '=') && (j == [] || !IsSpace(j[|j| - 1]))
    ensures Step(d, viewer, st, h + j)
      == st.(current := Some(Decode(d, viewer, st.current.value, Before(h, ':'), After(h, ':') + j)))
  {
    var u := h + j;
    var field, value := Before(h, ':'), After(h, ':');
    assert h == field + [':'] + value;
    assert u == field + [':'] + (value + j);
    assert Before(u, ':') == field by {
      assert u[..|field|] == field && u[|field|] == ':';
    }
    assert After(u, ':') == value + j;
    assert j != [];
    assert u[|u| - 1] == j[|j| - 1];
    assert TrimEol(u) == u;
    assert u[0] == h[0];
    assert !Indented(u);
    assert ':' in u by {
      assert u[|field|] == ':';
    }
    assert u[|h| - 1] == '=';
    BoundaryHasNoEquals(u, |h| - 1);
    StepPlain(d, viewer, st, u);
  }

  /** The same property on one line that still ends in `=` is held pending
      with the same name and value. */
  lemma Refolded(d: Dialect, viewer: string, st: State, h: string, j: string)
    requires st.current.Some? && st.field == ""
    requires !Indented(h) && ':' in h && Before(h, ':') != "" && EndsWith(h, '=')
    requires EndsWith(h + j, '=')
    ensures Step(d, viewer, st, h + j) == st.(field := Before(h, ':'), pending := After(h, ':') + j)
  {
    var u := h + j;
    var field, value := Before(h, ':'), After(h, ':');
    assert h == field + [':'] + value;
    assert u == field + [':'] + (value + j);
    assert Before(u, ':') == field by {
      assert u[..|field|] == field && u[|field|] == ':';
    }
    assert After(u, ':') == value + j;
    assert TrimEol(u) == u;
    assert u[0] == h[0];
    assert !Indented(u);
    assert ':' in u by {
      assert u[|field|] == ':';
    }
    BoundaryHasNoEquals(u, |u| - 1);
  }

  /** A property folded over continuation lines reads as the same property
      written on one line, provided the next line is not a continuation. */
  lemma FoldRoundTrip(d: Dialect, viewer: string, st: State, head: string, cs: seq<string>, rest: seq<string>)
    requires st.current.Some? && st.field == ""
    requires var h := TrimEol(head);
      !Indented(h) && ':' in h && Before(h, ':') != "" && EndsWith(h, '=')
    requires forall i :: 0 <= i < |cs| ==> Indented(TrimEol(cs[i]))
    requires |rest| > 0 && !Indented(TrimEol(rest[0]))
    ensures Normalize(Run(d, viewer, st, [head] + cs + rest))
         == Normalize(Run(d, viewer, st, [TrimEol(head) + Joined(cs)] + rest))
  {
    var h := TrimEol(head);
    var u := h + Joined(cs);
    Folded(d, viewer, st, head, cs);
    RunAppend(d, viewer, st, [head] + cs, rest);
    assert ([u] + rest)[0] == u && ([u] + rest)[1..] == rest;
    if EndsWith(u, '=') {
      // the one line is still open: it leaves the same property pending
      Refolded(d, viewer, st, h, Joined(cs));
    } else {
      FoldDecoded(d, viewer, st, head, cs, rest);
    }
  }

  /** The case of `FoldRoundTrip` where the one line is decoded at once. */
  lemma FoldDecoded(d: Dialect, viewer: string, st: State, head: string, cs: seq<string>, rest: seq<string>)
    requires st.current.Some? && st.field == ""
    requires var h := TrimEol(head);
      !Indented(h) && ':' in h && Before(h, ':') != "" && EndsWith(h, '=')
    requires forall i :: 0 <= i < |cs| ==> Indented(TrimEol(cs[i]))
    requires |rest| > 0 && !Indented(TrimEol(rest[0]))
    requires !EndsWith(TrimEol(head) + Joined(cs), '=')
    ensures Normalize(Run(d, viewer, st, [head] + cs + rest))
         == Normalize(Run(d, viewer, st, [TrimEol(head) + Joined(cs)] + rest))
  {
    var h := TrimEol(head);
    var u := h + Joined(cs);
    JoinedEnd(cs);
    Folded(d, viewer, st, head, cs);
    Unfolded(d, viewer, st, h, Joined(cs));
    var a2 := Run(d, viewer, st, [head] + cs);
    var b1 := Step(d, viewer, st, u);
    assert Flush(d, viewer, a2) == Normalize(b1);
    var r0 := rest[0];
    assert Normalize(Step(d, viewer, a2, r0)) == Normalize(Step(d, viewer, b1, r0)) by {
      StepNormalize(d, viewer, b1, r0);
    }
    RunNormalize(d, viewer, Step(d, viewer, a2, r0), Step(d, viewer, b1, r0), rest[1..]);
    assert Run(d, viewer, a2, rest) == Run(d, viewer, Step(d, viewer, a2, r0), rest[1..]);
    RunAppend(d, viewer, st, [head] + cs, rest);
    assert ([u] + rest)[0] == u && ([u] + rest)[1..] == rest;
  }

  /** An indented line after a property that was decoded at once is not
      glued to it: it is read as a property of its own whose name starts
      with whitespace, which no dialect knows. */
  lemma NeverJoinedAfterPlain(d: Dialect, viewer: string, st: State, raw: string)
    requires st.field == "" && st.current.Some?
    requires Indented(TrimEol(raw)) && !EndsWith(TrimEol(raw), '=')
    ensures Normalize(Step(d, viewer, st, raw)) == Normalize(st)
  {
    var line := TrimEol(raw);
    assert Flush(d, viewer, st) == st;
    assert line != "BEGIN:VEVENT" && line != "END:VEVENT";
    if ':' in line {
      var field := Before(line, ':');
      assert field == [] || field[0] == line[0];
      var name := FieldName(field);
      assert name == [] || name[0] == line[0];
      assert name !in Recognised(d);
      var e := st.current.value;
      UnknownIgnored(d, viewer, e, field, After(line, ':'));
      assert Step(d, viewer, st, raw) == st.(current := Some(Decode(d, viewer, e, field, After(line, ':'))), field := "");
    } else {
      assert Step(d, viewer, st, raw) == st;
    }
  }

  /** The five scripts' parsers emit the same number of events, agreeing on
      timestamps, own status, busy status, transparency and attendee addresses. */
  lemma {:induction false} ParsersAgree(d1: Dialect, d2: Dialect, viewer: string, a: State, b: State, lines: seq<string>)
    requires StatesAgree(a, b)
    ensures StatesAgree(Run(d1, viewer, a, lines), Run(d2, viewer, b, lines))
    decreases |lines|
  {
    if |lines| > 0 {
      StepAgree(d1, d2, viewer, a, b, lines[0]);
      ParsersAgree(d1, d2, viewer, Step(d1, viewer, a, lines[0]), Step(d2, viewer, b, lines[0]), lines[1..]);
    }
  }

  predicate StatesAgree(a: State, b: State) {
    && a.field == b.field && a.pending == b.pending && a.current.Some? == b.current.Some?
    && (a.current.Some? ==> Shared(a.current.value, b.current.value))
    && |a.events| == |b.events|
    && forall i :: 0 <= i < |a.events| ==> Shared(a.events[i], b.events[i])
  }

  lemma StepAgree(d1: Dialect, d2: Dialect, viewer: string, a: State, b: State, raw: string)
    requires StatesAgree(a, b)
    ensures StatesAgree(Step(d1, viewer, a, raw), Step(d2, viewer, b, raw))
  {
    var line := TrimEol(raw);
    if !(Indented(line) && a.field != "") {
      var fa, fb := Flush(d1, viewer, a), Flush(d2, viewer, b);
      if a.field != "" && a.pending != "" && a.current.Some? {
        DialectsAgree(d1, d2, viewer, a.current.value, b.current.value, a.field, a.pending);
      }
      assert StatesAgree(fa, fb);
      if line != "BEGIN:VEVENT" && !(line == "END:VEVENT" && fa.current.Some?) && fa.current.Some? && ':' in line && !EndsWith(line, '=') {
        DialectsAgree(d1, d2, viewer, fa.current.value, fb.current.value, Before(line, ':'), After(line, ':'));
      }
    }
  }

  /** Whatever script parses a file, the events line up. */
  lemma ParsesAgree(d1: Dialect, d2: Dialect, viewer: string, lines: seq<string>)
    ensures |Parse(d1, viewer, lines)| == |Parse(d2, viewer, lines)|
    ensures forall i :: 0 <= i < |Parse(d1, viewer, lines)| ==> Shared(Parse(d1, viewer, lines)[i], Parse(d2, viewer, lines)[i])
  {
    ParsersAgree(d1, d2, viewer, Start, Start, lines);
  }
}
