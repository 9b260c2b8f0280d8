/** `process_field`: one content line, already split into the part before the
    first `:` (the property name with its parameters) and the rest, updates
    the event being built. The five scripts carry five copies that differ in
    what they keep; a `Dialect` names those differences. */
module Decoder {
  import opened Wrappers
  import opened Text
  import opened Scan
  import opened Events

  /** What an `ATTENDEE` entry records. */
  datatype Shape =
    | AddressStatus      // address, and the PARTSTAT only when there is one
    | AddressName        // address and display name
    | AddressNameStatus  // address, display name and PARTSTAT (`UNKNOWN` when absent)

  /** The per-script variations of the decoder. */
  datatype Dialect = Dialect(
    asciiSummary: bool,       // SUMMARY is reduced to its ASCII characters
    descriptionLimit: nat,    // DESCRIPTION is cut to this many characters
    keepsLocation: bool,
    organizerAddress: bool,   // ORGANIZER's `mailto:` address is kept
    organizerName: bool,      // ORGANIZER's `CN=` name is kept
    shape: Shape,
    keepsCategories: bool,
    keepsMetadata: bool)      // CREATED, UID, RRULE and RECURRENCE-ID

  /** scripts/stakeholder_analysis.py */
  const Stakeholders := Dialect(true, 500, true, true, true, AddressNameStatus, true, true)
  /** scripts/analyze_calendar.py */
  const Calendar := Dialect(true, 500, true, true, false, AddressStatus, true, true)
  /** scripts/rerun_analysis_improved.py */
  const Rerun := Dialect(true, 500, true, true, true, AddressName, false, false)
  /** scripts/investigate_uncategorized.py */
  const Investigate := Dialect(false, 1000, true, true, true, AddressName, false, false)
  /** scripts/analyze_by_tags.py */
  const Tags := Dialect(true, 500, false, false, true, AddressName, true, false)

  /** `field.split(';')[0]`: the property name without its parameters. */
  function FieldName(field: string): (r: string)
    ensures ';' !in r && IsPrefix(r, field)
    ensures |r| < |field| ==> field[|r|] == ';'
  {
    Before(field, ';')
  }

  /** The property name is the first piece of splitting at `;`. */
  lemma FieldNameIsFirstPiece(field: string)
    ensures FieldName(field) == Split(field, ';')[0]
  {
  }

  /** The attendee record a script appends for an address, a `CN=` match and
      a `PARTSTAT=` match. */
  function Entry(shape: Shape, address: string, cn: Option<string>, partstat: Option<string>): (r: Attendee)
    ensures r.email == address
  {
    var name := Some(cn.GetOr(Before(address, '@')));
    match shape
    case AddressStatus => Attendee(address, None, partstat)
    case AddressName => Attendee(address, name, None)
    case AddressNameStatus => Attendee(address, name, Some(partstat.GetOr("UNKNOWN")))
  }

  /** `ORGANIZER`: each match found overwrites what the script keeps. */
  function DecodeOrganizer(d: Dialect, e: Event, field: string, value: string): (r: Event)
    ensures r.(organizer := e.organizer, organizerName := e.organizerName) == e
  {
    var address := Search(value, Mailto);
    var cn := Search(field, CommonName);
    var e1 := if d.organizerAddress && address.Some? then e.(organizer := address.value) else e;
    if d.organizerName && cn.Some? then e1.(organizerName := cn.value) else e1
  }

  /** `ATTENDEE`: the event's own status is taken from PARTSTAT when the
      viewer's address occurs in the lower-cased value; an entry is appended
      when the value has a `mailto:` address. */
  function DecodeAttendee(d: Dialect, viewer: string, e: Event, field: string, value: string): (r: Event)
    ensures r.(attendees := e.attendees, status := e.status) == e
  {
    var partstat := Search(field, PartStat);
    var address := Search(value, Mailto);
    var cn := Search(field, CommonName);
    var e1 := if Contains(Lower(value), viewer) && partstat.Some? then e.(status := partstat.value) else e;
    if address.Some? then e1.(attendees := e1.attendees + [Entry(d.shape, address.value, cn, partstat)])
    else e1
  }

  /** `[cat.strip() for cat in parts]` */
  function StripAll(parts: seq<string>): (r: seq<string>)
    ensures |r| == |parts|
    ensures forall i :: 0 <= i < |parts| ==> r[i] == Strip(parts[i])
  {
    if |parts| == 0 then [] else [Strip(parts[0])] + StripAll(parts[1..])
  }

  /** `process_field(event, field, value)` */
  function Decode(d: Dialect, viewer: string, e: Event, field: string, value: string): (r: Event)
  {
    var name := FieldName(field);
    if name == "SUMMARY" then e.(summary := if d.asciiSummary then AsciiOnly(value) else value)
    else if name == "DTSTART" then e.(dtstart := field + ":" + value)
    else if name == "DTEND" then e.(dtend := field + ":" + value)
    else if name == "DESCRIPTION" then e.(description := Take(value, d.descriptionLimit))
    else if name == "LOCATION" && d.keepsLocation then e.(location := value)
    else if name == "ORGANIZER" then DecodeOrganizer(d, e, field, value)
    else if name == "ATTENDEE" then DecodeAttendee(d, viewer, e, field, value)
    else if name == "CATEGORIES" && d.keepsCategories then e.(categories := StripAll(Split(value, ',')))
    else if name == "X-MICROSOFT-CDO-BUSYSTATUS" then e.(busyStatus := value)
    else if name == "TRANSP" then e.(transp := value)
    else if name == "CREATED" && d.keepsMetadata then e.(created := value)
    else if name == "UID" && d.keepsMetadata then e.(uid := value)
    else if name == "RRULE" && d.keepsMetadata then e.(isRecurring := true)
    else if name == "RECURRENCE-ID" && d.keepsMetadata then e.(recurrenceId := value)
    else e
  }

  /** The property names a dialect acts on. */
  function Recognised(d: Dialect): (r: set<string>)
    ensures "ATTENDEE" in r && "DTSTART" in r
    ensures forall n :: n in r ==> |n| > 0 && 'A' <= n[0] <= 'Z'
  {
    {"SUMMARY", "DTSTART", "DTEND", "DESCRIPTION", "ORGANIZER", "ATTENDEE",
     "X-MICROSOFT-CDO-BUSYSTATUS", "TRANSP"}
    + (if d.keepsLocation then {"LOCATION"} else {})
    + (if d.keepsCategories then {"CATEGORIES"} else {})
    + (if d.keepsMetadata then {"CREATED", "UID", "RRULE", "RECURRENCE-ID"} else {})
  }

  /** A property the dialect does not know changes nothing. */
  lemma UnknownIgnored(d: Dialect, viewer: string, e: Event, field: string, value: string)
    requires FieldName(field) !in Recognised(d)
    ensures Decode(d, viewer, e, field, value) == e
  {
  }

  /** Properties other than ORGANIZER and ATTENDEE simply overwrite: the
      second of two lines with the same property wins. */
  lemma LastWriteWins(d: Dialect, viewer: string, e: Event, field: string, v1: string, v2: string)
    requires FieldName(field) != "ORGANIZER" && FieldName(field) != "ATTENDEE"
    ensures Decode(d, viewer, Decode(d, viewer, e, field, v1), field, v2) == Decode(d, viewer, e, field, v2)
  {
    var name := FieldName(field);
    if name in {"SUMMARY", "DTSTART", "DTEND", "DESCRIPTION"} {
    } else if name in {"LOCATION", "CATEGORIES", "X-MICROSOFT-CDO-BUSYSTATUS", "TRANSP"} {
    } else {
    }
  }

  /** Only ATTENDEE touches the attendee list, and it appends at most one
      entry: exactly one when the value holds `mailto:` followed by a
      non-space character. */
  lemma AttendeesAccumulate(d: Dialect, viewer: string, e: Event, field: string, value: string)
    ensures var r := Decode(d, viewer, e, field, value);
      if FieldName(field) == "ATTENDEE" && Search(value, Mailto).Some?
      then |r.attendees| == |e.attendees| + 1 && r.attendees[..|e.attendees|] == e.attendees
           && r.attendees[|e.attendees|].email == Search(value, Mailto).value
      else r.attendees == e.attendees
  {
  }

  /** The event's own status changes only on an ATTENDEE line whose
      lower-cased value holds the viewer's address and whose parameters
      carry a PARTSTAT. */
  lemma OwnStatus(d: Dialect, viewer: string, e: Event, field: string, value: string)
    ensures Decode(d, viewer, e, field, value).status ==
      if FieldName(field) == "ATTENDEE" && Contains(Lower(value), viewer) && Search(field, PartStat).Some?
      then Search(field, PartStat).value else e.status
  {
    if FieldName(field) == "ATTENDEE" {
      AttendeeComesLate();
    }
  }

  /** ATTENDEE is none of the names the decoder tests before it. */
  lemma AttendeeComesLate()
    ensures "ATTENDEE" != "SUMMARY" && "ATTENDEE" != "DTSTART" && "ATTENDEE" != "DTEND"
    ensures "ATTENDEE" != "DESCRIPTION" && "ATTENDEE" != "LOCATION" && "ATTENDEE" != "ORGANIZER"
  {
    assert "ATTENDEE"[0] == 'A';
    assert "SUMMARY"[0] == 'S' && "DTSTART"[0] == 'D' && "DTEND"[0] == 'D';
    assert "DESCRIPTION"[0] == 'D' && "LOCATION"[0] == 'L' && "ORGANIZER"[0] == 'O';
  }

  /** The attendee's name falls back to the address's local part, and in the
      stakeholder script the status falls back to `UNKNOWN`. */
  lemma EntryFallbacks(shape: Shape, address: string, partstat: Option<string>)
    ensures shape != AddressStatus ==> Entry(shape, address, None, partstat).name == Some(Split(address, '@')[0])
    ensures Entry(AddressNameStatus, address, None, None).status == Some("UNKNOWN")
    ensures Entry(AddressStatus, address, None, partstat).status == partstat
  {
    FirstPiece(address, '@');
  }

  /** What the decoder stores for the plain-text properties. */
  lemma StoredText(d: Dialect, viewer: string, e: Event, field: string, value: string)
    ensures var r := Decode(d, viewer, e, field, value);
      && (FieldName(field) == "DTSTART" ==> r.dtstart == field + ":" + value)
      && (FieldName(field) == "DTEND" ==> r.dtend == field + ":" + value)
      && (FieldName(field) == "DESCRIPTION" ==> |r.description| <= d.descriptionLimit && IsPrefix(r.description, value))
      && (FieldName(field) == "DESCRIPTION" ==> r.description == Take(value, d.descriptionLimit))
      && (FieldName(field) == "SUMMARY" && d.asciiSummary ==> forall i :: 0 <= i < |r.summary| ==> r.summary[i] < '\U{80}')
      && (FieldName(field) == "SUMMARY" && d.asciiSummary ==> r.summary == AsciiOnly(value))
      && (FieldName(field) == "SUMMARY" && !d.asciiSummary ==> r.summary == value)
      && (FieldName(field) == "RRULE" && d.keepsMetadata ==> r.isRecurring)
  {
  }

  /** Trimmed comma-separated pieces: one per comma plus one, `[""]` for the
      empty text, and the text back when no piece has whitespace at its ends. */
  lemma TagsRoundTrip(value: string)
    ensures |StripAll(Split(value, ','))| == CountChar(value, ',') + 1
    ensures value == "" ==> StripAll(Split(value, ',')) == [""]
    ensures (forall i :: 0 <= i < |Split(value, ',')| ==> Strip(Split(value, ',')[i]) == Split(value, ',')[i])
            ==> Join(StripAll(Split(value, ',')), ',') == value
  {
    var parts := Split(value, ',');
    if value == "" {
      assert parts == [""];
      StripStable("");
    }
    if forall i :: 0 <= i < |parts| ==> Strip(parts[i]) == parts[i] {
      StripAllStable(parts);
      JoinSplit(value, ',');
    }
  }

  /** Pieces without whitespace at their ends come back unchanged. */
  lemma StripAllStable(parts: seq<string>)
    requires forall i :: 0 <= i < |parts| ==> Strip(parts[i]) == parts[i]
    ensures StripAll(parts) == parts
  {
  }

  /** CATEGORIES stores the trimmed comma-separated pieces of the value. */
  lemma CategoriesDecoded(d: Dialect, viewer: string, e: Event, field: string, value: string)
    requires d.keepsCategories && FieldName(field) == "CATEGORIES"
    ensures Decode(d, viewer, e, field, value).categories == StripAll(Split(value, ','))
    ensures |Decode(d, viewer, e, field, value).categories| == CountChar(value, ',') + 1
  {
    var name := FieldName(field);
    assert name != "SUMMARY" && name != "DTSTART" && name != "DTEND" && name != "DESCRIPTION";
    assert name != "LOCATION" && name != "ORGANIZER" && name != "ATTENDEE";
  }

  /** The fields every dialect records the same way. */
  predicate Shared(a: Event, b: Event) {
    && a.dtstart == b.dtstart && a.dtend == b.dtend
    && a.status == b.status && a.busyStatus == b.busyStatus && a.transp == b.transp
    && |a.attendees| == |b.attendees|
    && forall i :: 0 <= i < |a.attendees| ==> a.attendees[i].email == b.attendees[i].email
  }

  /** How the shared fields change, whatever the dialect. */
  lemma SharedFields(d: Dialect, viewer: string, e: Event, field: string, value: string)
    ensures var r := Decode(d, viewer, e, field, value); var name := FieldName(field);
      && r.dtstart == (if name == "DTSTART" then field + ":" + value else e.dtstart)
      && r.dtend == (if name == "DTEND" then field + ":" + value else e.dtend)
      && r.busyStatus == (if name == "X-MICROSOFT-CDO-BUSYSTATUS" then value else e.busyStatus)
      && r.transp == (if name == "TRANSP" then value else e.transp)
  {
    var name := FieldName(field);
    if name in {"SUMMARY", "DTSTART", "DTEND", "DESCRIPTION"} {
    } else if name in {"ORGANIZER", "ATTENDEE"} {
    } else {
    }
  }

  /** Any two dialects decode a line into events that agree on the shared
      fields, when they started out agreeing. */
  lemma DialectsAgree(d1: Dialect, d2: Dialect, viewer: string, a: Event, b: Event, field: string, value: string)
    requires Shared(a, b)
    ensures Shared(Decode(d1, viewer, a, field, value), Decode(d2, viewer, b, field, value))
  {
    SharedFields(d1, viewer, a, field, value);
    SharedFields(d2, viewer, b, field, value);
    OwnStatus(d1, viewer, a, field, value);
    OwnStatus(d2, viewer, b, field, value);
    AttendeesAccumulate(d1, viewer, a, field, value);
    AttendeesAccumulate(d2, viewer, b, field, value);
    var ra := Decode(d1, viewer, a, field, value);
    var rb := Decode(d2, viewer, b, field, value);
    SameEmails(a.attendees, b.attendees, ra.attendees, rb.attendees);
  }

  /** Two attendee lists with the same addresses keep the same addresses
      when both are left alone or both gain an entry of the same address. */
  lemma SameEmails(xs: seq<Attendee>, ys: seq<Attendee>, rx: seq<Attendee>, ry: seq<Attendee>)
    requires |xs| == |ys| && forall i :: 0 <= i < |xs| ==> xs[i].email == ys[i].email
    requires || (rx == xs && ry == ys)
             || (&& |rx| == |xs| + 1 && |ry| == |ys| + 1 && rx[..|xs|] == xs && ry[..|ys|] == ys
                 && rx[|xs|].email == ry[|ys|].email)
    ensures |rx| == |ry| && forall i :: 0 <= i < |rx| ==> rx[i].email == ry[i].email
  {
    forall i | 0 <= i < |rx|
      ensures rx[i].email == ry[i].email
    {
      if i < |xs| {
        assert rx[i] == rx[..|xs|][i];
        assert ry[i] == ry[..|ys|][i];
      }
    }
  }

  /** The investigation script keeps the title as written and up to 1000
      characters of description; every other script filters the title to
      ASCII and keeps 500. */
  lemma InvestigateDialect(viewer: string, e: Event, field: string, value: string)
    requires FieldName(field) == "SUMMARY" || FieldName(field) == "DESCRIPTION"
    ensures FieldName(field) == "SUMMARY" ==> Decode(Investigate, viewer, e, field, value).summary == value
    ensures FieldName(field) == "DESCRIPTION" ==>
      Decode(Investigate, viewer, e, field, value).description == Take(value, 1000)
      && Decode(Stakeholders, viewer, e, field, value).description == Take(value, 500)
  {
  }

  /** The tags script keeps only the organizer's name, the calendar script
      only the organizer's address. */
  lemma OrganizerDialects(viewer: string, e: Event, field: string, value: string)
    requires FieldName(field) == "ORGANIZER"
    ensures Decode(Tags, viewer, e, field, value).organizer == e.organizer
    ensures Decode(Calendar, viewer, e, field, value).organizerName == e.organizerName
    ensures Search(value, Mailto).Some? ==> Decode(Calendar, viewer, e, field, value).organizer == Search(value, Mailto).value
    ensures Search(field, CommonName).Some? ==> Decode(Tags, viewer, e, field, value).organizerName == Search(field, CommonName).value
  {
  }
}
