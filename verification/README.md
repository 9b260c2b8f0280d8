# Calendar analysis scripts, modelled in Dafny

The repository is a set of Python scripts. They read one person's calendar
export (an ICS file), turn it into event records, and report how the time
was spent: by category, by stakeholder, by time bucket and by tag. This
project models their core as pure Dafny functions and proves properties
of it. The core is:

- **The ICS parser** (`Parser`). `parse_ics_file` is a state machine over
  the lines of the export. `BEGIN:VEVENT` opens an event and
  `END:VEVENT` emits it. Every other line inside an event is split at its
  first `:` and handed to the decoder.
- **Folding** (`Parser`). A property line ending in `=` is held back as
  pending. Each following line that starts with a space or tab is
  stripped and appended with no separator. The pending property is decoded
  at the first line that is not such a continuation.
  - This is not the folding of section 3.1 of RFC 5545, where any line that
    starts with whitespace continues the previous one. It resembles the
    soft line breaks of section 6.7 of RFC 2045 instead, except that the `=`
    is kept in the value. The model follows the code: an indented line
    after a property that did not end in `=` is dropped
    (`Parser.NeverJoinedAfterPlain`).
- **The field decoder** (`Decoder`). `process_field` exists in five
  copies, one per script. They differ in:
  - whether SUMMARY is reduced to ASCII;
  - how long DESCRIPTION may be;
  - what ORGANIZER and ATTENDEE keep;
  - whether CATEGORIES and the metadata are kept.

  A `Dialect` value names one copy, and one decoder is parameterised by it.
  `Parser.ParsesAgree` and `Decoder.DialectsAgree` show that the five
  copies agree on everything they all keep.
- **The event accessors** (`Events`, with `Clock` for calendar
  arithmetic): duration in hours, date, month, weekday and time-of-day
  band. Each reads the raw DTSTART/DTEND texts, including any `TZID=`
  parameter.
- **The classifiers**: `categorize_event` (`Calendar`),
  `categorize_event_improved` (`Improved`), `categorize_event_final`
  (`Final`) and `categorize_meeting_type` (`Meetings`).
  - Each one is a first-match-wins table of keyword rules (`Rules`), using
    the keyword lists in `Keywords`.
  - Each table is proved equal, on every input, to the literal `if` chain
    of the script.
- **The work-relevance predicates** (`Relevance`, `Final.WorkRelevant`).
- **The aggregations**, all folds over the event sequence:
  - `analyze_calendar` (`CalendarReport`);
  - the summary and export of `rerun_analysis_improved.main` (`FinalReport`);
  - `analyze_uncategorized` (`UncategorizedReport`);
  - `analyze_by_tags` (`TagReport`);
  - `analyze_stakeholders` (`Stakeholders`);
  - `analyze_time_patterns` (`TimePatterns`).

  They are built on the generic tallies and groupings in `Tally` and `Folds`.
- **The helpers** (`Organisation`): `extract_company_from_email`, the
  meeting-size buckets and the location buckets.

The scripts hard-code the calendar owner in three self-tests. The model
takes that owner as a parameter `viewer`, an e-mail address, and keeps
each test as written:

- the decoder takes the PARTSTAT of an ATTENDEE line as the owner's own
  status when the lowercased value contains the owner's address;
- the stakeholder fold skips attendees whose lowercased address contains
  the local part of the owner's address;
- the organizer tally skips events whose organizer address equals the
  owner's address.

`Text` and `Scan` model the string operations and regular-expression
searches that the scripts use, and `Order` models `sorted` on strings.

## Model

| member | source | states |
|---|---|---|
| Parser.AtMostOnePerEnd | scripts/stakeholder_analysis.py:109-144 | The parser never returns more events than there are `END:VEVENT` lines in the input. |
| Parser.EventsGrow | scripts/stakeholder_analysis.py:109-144 | While the lines are read, the emitted events only grow as a prefix, by at most one event per `END:VEVENT` line. |
| Parser.StepEmits | scripts/stakeholder_analysis.py:131-133 | A line emits an event only when it is `END:VEVENT` and an event is open. The emitted event is the open one, with its pending property decoded. |
| Parser.OpenEventDropped | scripts/stakeholder_analysis.py:109-144 | An event still open when the lines run out (no `END:VEVENT` follows) is never emitted. |
| Parser.OutsideIgnored | scripts/stakeholder_analysis.py:129-142 | Outside an event, with nothing pending, every line except `BEGIN:VEVENT` leaves the parser state unchanged. |
| Parser.BeginRestarts | scripts/stakeholder_analysis.py:129-130 | `BEGIN:VEVENT` starts a fresh blank event, even over an open one, and keeps the events already emitted. |
| Parser.BlockEmitsOne | scripts/stakeholder_analysis.py:109-144 | A `BEGIN:VEVENT` … `END:VEVENT` block of plain property lines emits exactly one event: the blank event with each line decoded in order. |
| Parser.KeepsInvariant | scripts/stakeholder_analysis.py:118-142 | After every line, a property is pending only inside an event and only with a non-empty value. |
| Parser.RunKeepsInvariant | scripts/stakeholder_analysis.py:118-142 | The pending-property invariant holds after any number of lines. |
| Parser.RunAppend | scripts/stakeholder_analysis.py:118-142 | Reading `a + b` equals reading `a` and then reading `b` from where `a` left off. |
| Parser.ContinuationsAppend | scripts/stakeholder_analysis.py:120-122 | While a property is pending, continuation lines append their stripped text to its value, with no separator, and change nothing else. |
| Parser.Folded | scripts/stakeholder_analysis.py:118-142 | A line ending in `=` followed by continuation lines leaves the property pending, with the head's value followed by the continuations. |
| Parser.Unfolded | scripts/stakeholder_analysis.py:134-142 | The same property written on one line decodes at once into the event. |
| Parser.Refolded | scripts/stakeholder_analysis.py:134-142 | The same property on one line that still ends in `=` is held pending with the same name and value. |
| Parser.FoldRoundTrip | scripts/stakeholder_analysis.py:118-142 | A property folded across continuation lines, with or without continuations, leaves the parser in the same state as its unfolded single line once the next non-continuation line arrives: both decode the same event, or, when the single line still ends in `=`, both hold the same property pending. |
| Parser.NeverJoinedAfterPlain | scripts/stakeholder_analysis.py:118-142 | An indented line that follows a property not ending in `=` is dropped: it neither extends that property nor changes the event. |
| Parser.ParsesAgree | scripts/analyze_calendar.py:54-92 | Any two scripts' parsers return the same number of events from the same lines. The events agree pairwise on start, end, own status, busy status, transparency and the attendees' addresses. |
| Parser.TrimEol | scripts/stakeholder_analysis.py:118 | Trailing end-of-line characters are removed, and only those. |
| Decoder.FieldName | scripts/stakeholder_analysis.py:149 | The property name is the text before the first `;`: a prefix of the field, with no `;` in it. |
| Decoder.UnknownIgnored | scripts/stakeholder_analysis.py:147-197 | A property the script does not recognise leaves the event unchanged. |
| Decoder.LastWriteWins | scripts/stakeholder_analysis.py:151-197 | For every property other than ORGANIZER and ATTENDEE, decoding twice keeps only the second value. |
| Decoder.AttendeesAccumulate | scripts/stakeholder_analysis.py:168-183 | The attendee list grows by exactly one entry if the line is an ATTENDEE whose value has a `mailto:` address; otherwise it is unchanged. The earlier entries are kept, and the new entry carries that address. |
| Decoder.OwnStatus | scripts/stakeholder_analysis.py:168-175 | On an ATTENDEE line whose lowercased value contains the owner's address and whose parameters carry a PARTSTAT, the own status becomes that PARTSTAT. Every other line leaves it unchanged. |
| Decoder.EntryFallbacks | scripts/stakeholder_analysis.py:178-183 | An attendee without a CN is named by the local part of its address; one without a PARTSTAT gets status `UNKNOWN` in the stakeholder script, and no status in the calendar script. |
| Decoder.StoredText | scripts/stakeholder_analysis.py:151-197 | DTSTART and DTEND keep the whole `NAME;PARAMS:value` text. DESCRIPTION keeps `value[:n]` for the dialect's limit `n`: a prefix of at most `n` characters. SUMMARY is the ASCII filter of the value where the dialect says so (only characters below 128, see `Text.AsciiOnly`), and the raw value otherwise. RRULE marks the event recurring. |
| Decoder.TagsRoundTrip | scripts/analyze_by_tags.py:128-129 | CATEGORIES yields one tag more than there are commas. An empty value yields one empty tag. Joining tags that are already stripped with commas gives the value back. |
| Decoder.CategoriesDecoded | scripts/analyze_by_tags.py:128-129 | Where the script keeps CATEGORIES, the tags are the stripped comma-separated pieces, one per comma plus one. |
| Decoder.DialectsAgree | scripts/analyze_calendar.py:95-143 | Any two scripts' decoders keep events in agreement on the fields all of them record (start, end, own status, busy status, transparency and the attendees' addresses). |
| Decoder.SharedFields | scripts/stakeholder_analysis.py:147-197 | In every dialect, DTSTART and DTEND keep the whole `NAME;PARAMS:value` text, the busy status and transparency take the value, and no other property touches these four fields. |
| Decoder.InvestigateDialect | scripts/investigate_uncategorized.py:102-109 | The investigation script keeps SUMMARY unfiltered and DESCRIPTION up to 1000 characters. |
| Decoder.OrganizerDialects | scripts/analyze_by_tags.py:109-112 | The tag script keeps only the organizer's CN name. The calendar script keeps only the `mailto:` address. |
| Decoder.DecodeOrganizer | scripts/stakeholder_analysis.py:161-167 | An ORGANIZER line changes nothing but the organizer address and name. |
| Decoder.DecodeAttendee | scripts/stakeholder_analysis.py:168-183 | An ATTENDEE line changes nothing but the attendee list and the own status. |
| Events.StampOf | scripts/stakeholder_analysis.py:35-50 | A date-time found in DTSTART/DTEND is a valid calendar date-time. |
| Events.DurationRoundTrip | scripts/stakeholder_analysis.py:35-50 | For any valid start and end written as `YYYYMMDDTHHMMSS` after digit-free parameters (such as a `TZID=`), the duration is the exact number of seconds between them. |
| Events.DateOnlyNoDuration | scripts/stakeholder_analysis.py:35-50 | An all-day DTSTART (a date without a time) gives duration 0. |
| Events.DurationSwap | scripts/stakeholder_analysis.py:35-50 | Swapping start and end negates the duration: a negative duration is kept, not clamped. |
| Events.DateOf | scripts/stakeholder_analysis.py:52-63 | The date is `""` or a valid `YYYY-MM-DD` that reads back to the same date. |
| Events.DateRoundTrip | scripts/stakeholder_analysis.py:52-106 | A DTSTART carrying date `d` gives date `YYYY-MM-DD` of `d`, month `YYYY-MM` of `d`, and `d`'s weekday name. |
| Events.MonthOf | scripts/stakeholder_analysis.py:65-70 | The month is `""` exactly when the date is `""`; otherwise it is the date's first seven characters. |
| Events.MonthsAgree | scripts/analyze_by_tags.py:45-56 | The tag script's month, formatted straight from the parsed date, equals the stakeholder script's month on every event. |
| Events.WeekdayUnknownIff | scripts/stakeholder_analysis.py:97-106 | The weekday is `Unknown` exactly when there is no date. |
| Events.SlotMatchesBands | scripts/stakeholder_analysis.py:79-92 | Every hour falls in exactly one band of the time-of-day table. The bands are disjoint and ordered, and the slot is that band's name. |
| Events.UnknownSlotIff | scripts/stakeholder_analysis.py:72-95 | The time-of-day is `Unknown` exactly when DTSTART, after any TZID, has no `T` followed by six digits. |
| Events.SlotRoundTrip | scripts/stakeholder_analysis.py:72-95 | A DTSTART carrying a date-time at hour `h` has the slot of `h`. |
| Events.StampRoundTrip | scripts/stakeholder_analysis.py:35-50 | Writing a valid date-time as `YYYYMMDDTHHMMSS` after digit-free text and reading it back gives the same date-time. |
| Clock.OrdinalNextDay | scripts/stakeholder_analysis.py:35-50 | Day numbers are consecutive: the next calendar day has the next ordinal, across month and year ends and leap days. |
| Clock.WeekdayNextDay | scripts/stakeholder_analysis.py:97-106 | The weekday advances by one, modulo seven, from each day to the next. |
| Clock.NewYear2024IsMonday | scripts/stakeholder_analysis.py:97-106 | The weekday count is anchored to the real calendar: 1 January 2024 is a Monday. |
| Clock.IsoRoundTrip | scripts/stakeholder_analysis.py:52-63 | A date formatted as `YYYY-MM-DD` reads back to itself. |
| Clock.SameDaySeconds | scripts/stakeholder_analysis.py:35-50 | On one day, the seconds between two times are the difference of their clock readings. |
| Clock.NumberPad | scripts/stakeholder_analysis.py:52-63 | A number padded to `k` digits reads back to itself. |
| Organisation.Company | scripts/stakeholder_analysis.py:239-254 | An address without `@` is `Unknown`. A domain containing `autodesk` is internal. A webmail domain is `Personal Email`. Otherwise the company is the domain's first dot-separated label title-cased: each character is upper-cased when the one before it is not a letter, and lower-cased when it is. |
| Text.TitleCase | scripts/stakeholder_analysis.py:254 | `title()` upper-cases a character that does not follow a letter and lower-cases one that does, keeping the length. |
| Organisation.CompanyOfAddress | scripts/stakeholder_analysis.py:239-254 | For `local@host`, the company is the first dot-separated label of the lowercased host, title-cased, unless one of the earlier rules applies. |
| Organisation.CompanyIgnoresCase | scripts/stakeholder_analysis.py:239-254 | The company does not depend on the letter case of the host. |
| Organisation.DomainOf | scripts/stakeholder_analysis.py:244 | The domain is the lowercased text between the first and the second `@`. |
| Organisation.SizeByLimits | scripts/stakeholder_analysis.py:434-444 | The size bucket is the name at the position given by how many size limits the attendee count exceeds. |
| Organisation.SizeMonotone | scripts/stakeholder_analysis.py:434-444 | More attendees never give a smaller size bucket. |
| Organisation.SizeBucket | scripts/stakeholder_analysis.py:434-444 | The size bucket is always one of the five named sizes. |
| Organisation.LocationIff | scripts/stakeholder_analysis.py:424-428 | A location is virtual exactly when its lowercased text contains `teams.microsoft.com` or `zoom`. It is `No Location` exactly when it is empty or literally `No Location`. |
| Organisation.LocationBucket | scripts/stakeholder_analysis.py:424-428 | The location bucket is always one of the three named buckets. |
| Rules.FirstFromCases | scripts/analyze_calendar.py:146-223 | A rule table answers with the label of the first rule whose test holds, or with its fallback label when no rule holds. |
| Rules.Unroll7 | scripts/analyze_calendar.py:178-223 | A block of seven rules, the size of every classifier's work block, decides like seven `if`s in table order that each return their label, with the fallback after them. |
| Rules.FirstDecides | scripts/analyze_calendar.py:146-223 | Once a rule holds, the rules after it do not affect the label. |
| Rules.NoneHolds | scripts/analyze_calendar.py:220-223 | When no rule holds, the table answers with its fallback label. |
| Rules.OnlyAsFallback | scripts/analyze_calendar.py:220-223 | A label that no rule yields comes out only as the fallback, and only when no rule holds. |
| Rules.BlindTable | scripts/investigate_uncategorized.py:140-233 | A table with no attendee-count test gives the same label whatever the number of attendees. |
| Rules.AnyInIff | scripts/analyze_calendar.py:159-164 | `any(k in s for k in words)` holds exactly when some keyword of the list occurs in `s`. |
| Rules.Classify | scripts/analyze_calendar.py:146-223 | A classifier's label is its fallback or the label of one of its rules. |
| Calendar.Categorize | scripts/analyze_calendar.py:288-303 | Every label `categorize_event` produces is listed in the report's category order. |
| Calendar.CategorizeAgrees | scripts/analyze_calendar.py:146-223 | The rule table gives the same label as the script's `if` chain on every event. |
| Calendar.DeclinedFirst | scripts/analyze_calendar.py:152-153 | A declined or tentative event is labelled by its status, whatever its title says. |
| Calendar.OutOfOfficeNext | scripts/analyze_calendar.py:156-157 | An accepted event whose busy status is OOF is out of office. |
| Calendar.SyncBeforeCustomer | scripts/analyze_calendar.py:179-190 | A working event whose title mentions `sync` is an internal 1:1/sync, even if it also names a customer. |
| Calendar.CustomerSync | scripts/analyze_calendar.py:179-190 | A "customer sync" is filed as an internal sync, not as a customer meeting. |
| Calendar.BreakWins | scripts/analyze_calendar.py:159-170 | An accepted, non-OOF event that is not time off and whose title mentions `break` is a break. |
| Calendar.BreakfastIsBreak | scripts/analyze_calendar.py:166-170 | The `break` keyword also matches every `breakfast`. |
| Calendar.UncategorizedIff | scripts/analyze_calendar.py:173-223 | An event is uncategorized exactly when it reaches the working rules, matches no keyword list, and is neither BUSY nor OPAQUE. |
| Improved.Improved | scripts/investigate_uncategorized.py:140-233 | Every label `categorize_event_improved` produces is one of its 18 labels. |
| Improved.ImprovedAgrees | scripts/investigate_uncategorized.py:140-233 | The rule table gives the same label as the script's `if` chain on every event. |
| Improved.BlindToAttendees | scripts/investigate_uncategorized.py:140-233 | The improved rules never read the number of attendees. |
| Improved.DeclinedFirst | scripts/investigate_uncategorized.py:146-147 | A declined or tentative event is labelled by its status. |
| Improved.OutOfOfficeSecond | scripts/investigate_uncategorized.py:150-151 | Next, a busy status of OOF gives out of office. |
| Improved.TimeOffThird | scripts/investigate_uncategorized.py:153-156 | Next, a time-off keyword in the title gives personal time off. |
| Improved.FocusFridayNeverFocus | scripts/investigate_uncategorized.py:159-227 | A title mentioning `focus friday` is never labelled focus time. |
| Improved.AppointmentIff | scripts/investigate_uncategorized.py:169-172 | Once the earlier rules have passed, an event is a personal appointment exactly when its title has an appointment keyword and no business keyword. |
| Improved.MealsIff | scripts/investigate_uncategorized.py:175-182 | A meal or gym title is a business meal exactly when a business-meal keyword occurs in the title or description; otherwise it is a break. |
| Final.Final | scripts/rerun_analysis_improved.py:133-236 | Every label `categorize_event_final` produces is one of its 19 labels. |
| Final.FinalAgrees | scripts/rerun_analysis_improved.py:133-236 | The rule table gives the same label as the script's `if` chain on every event. |
| Final.ExcludedExactly | scripts/rerun_analysis_improved.py:239-252 | Of the 19 labels, exactly the 9 excluded ones are not work-relevant and the other 10 are. |
| Final.ZeroAttendees | scripts/rerun_analysis_improved.py:128-140 | An event without attendees is a non-meeting, before any other rule. |
| Final.DeclinedNeverWork | scripts/rerun_analysis_improved.py:143-144 | A declined or tentative event is never work-relevant. |
| Final.FridayNeverFocus | scripts/rerun_analysis_improved.py:226-230 | A title mentioning `friday` is never focus time. |
| Final.FocusFridayExcluded | scripts/rerun_analysis_improved.py:139-157 | An accepted, non-OOF meeting that is not time off and mentions `focus friday` is excluded as a Focus Friday. |
| Final.MealsIff | scripts/rerun_analysis_improved.py:172-180 | Once the earlier rules have passed, a lunch or breakfast is a business meal exactly when a business-meal keyword occurs in the title or description; otherwise it is an excluded break. |
| Final.ClientSuppressesPersonal | scripts/rerun_analysis_improved.py:166-169 | A title naming a customer or client is never an excluded personal appointment. |
| Meetings.MeetingType | scripts/stakeholder_analysis.py:257-298 | The meeting type is always one of the seven types. |
| Meetings.MeetingTypeAgrees | scripts/stakeholder_analysis.py:257-298 | The rule table gives the same type as the script's `if` chain on every event. |
| Meetings.TypeReadsText | scripts/stakeholder_analysis.py:257-298 | The type depends only on the title and the description. |
| Meetings.SyncFirst | scripts/stakeholder_analysis.py:263-266 | A title mentioning `sync` is always a 1:1 or sync, whatever else it mentions. |
| Meetings.GeneralIff | scripts/stakeholder_analysis.py:257-298 | "General Meetings" is given exactly when no keyword list matches. |
| Relevance.StakeholderAgrees | scripts/stakeholder_analysis.py:200-236 | The exclusion list gives the same verdict as the script's chain of early returns. |
| Relevance.TagAgrees | scripts/analyze_by_tags.py:136-154 | The same holds for the tag script's shorter chain. |
| Relevance.StakeholderStricter | scripts/analyze_by_tags.py:136-154 | Every event the stakeholder script counts as work, the tag script counts as work too. |
| Relevance.TagWorkIff | scripts/analyze_by_tags.py:136-154 | The tag script excludes an event exactly when it has no attendees, is declined or tentative, is OOF, or is transparent or free. |
| Relevance.PassesFewer | scripts/stakeholder_analysis.py:200-236 | Dropping exclusion tests can only let more events through. |
| CalendarReport.Analyze | scripts/analyze_calendar.py:226-266 | The total is the number of events, and every category keeps at most five samples. |
| CalendarReport.CategoryPresent | scripts/analyze_calendar.py:237-264 | A category has an entry exactly when some event has that label. Its key is in the category order and has an hours entry. |
| CalendarReport.CategoryTotals | scripts/analyze_calendar.py:237-264 | A category's count is the number of its events, at least one. Its hours are the hours of exactly those events, in both tables. |
| CalendarReport.CategorySamples | scripts/analyze_calendar.py:254-263 | A category's samples describe its first five events, in file order. |
| CalendarReport.CategoriesAddUp | scripts/analyze_calendar.py:226-266 | The category counts add up to the number of events, and their hours to the total hours. |
| CalendarReport.EntriesMatchGroups | scripts/analyze_calendar.py:237-264 | Each category entry agrees, in count and hours, with the group of events under that label. |
| CalendarReport.StatusCounts | scripts/analyze_calendar.py:244-247 | The status and busy-status tables count each non-empty value by the number of events that carry it, and hold nothing else. |
| CalendarReport.StartText | scripts/analyze_calendar.py:257 | A sample's start text has at most 15 characters and no `:`. |
| CalendarReport.StartOfField | scripts/analyze_calendar.py:257 | For a DTSTART field `head:value`, the sample start is the first 15 characters of the value. |
| FinalReport.SummaryIsKeySum | scripts/rerun_analysis_improved.py:274-289 | The work and excluded totals are the sums over the work-relevant and the other labels that occur. |
| FinalReport.SummaryAddsUp | scripts/rerun_analysis_improved.py:274-289 | Work and excluded events together are all events, and their hours together are all hours. |
| FinalReport.Select | scripts/rerun_analysis_improved.py:274-289 | The selected labels are exactly the listed labels whose relevance matches the request. |
| FinalReport.Touch | scripts/rerun_analysis_improved.py:330-337 | Reading a missing label from the grouping adds it with no events and changes no other label. |
| FinalReport.Exported | scripts/rerun_analysis_improved.py:359-371 | The export always holds the non-meetings and the uncategorized entries. |
| FinalReport.ExportedAt | scripts/rerun_analysis_improved.py:330-371 | A label is exported exactly when some event has it or it is one of those two. Its count, hours and work flag are those of its events. |
| FinalReport.EntryOf | scripts/rerun_analysis_improved.py:359-371 | An exported entry records its group's size and hours, its label's relevance, and its first five samples. |
| UncategorizedReport.EachEventOnce | scripts/investigate_uncategorized.py:240-244 | Grouping by improved label puts every event in exactly one group, under its own label. |
| UncategorizedReport.UncategorizedAre | scripts/investigate_uncategorized.py:240-244 | The uncategorized list is exactly the events labelled uncategorized, in order. |
| UncategorizedReport.BlankTitles | scripts/investigate_uncategorized.py:261 | The blank-title list holds exactly the events whose title strips to nothing. |
| UncategorizedReport.BlankMeansSpaces | scripts/investigate_uncategorized.py:261 | A title is blank exactly when it consists of whitespace only. |
| UncategorizedReport.BreakdownsAddUp | scripts/investigate_uncategorized.py:265-276 | The busy-status and transparency breakdowns each count every uncategorized event once, with an empty value counted as `None`. |
| UncategorizedReport.BusyOrNone | scripts/investigate_uncategorized.py:265-267 | A breakdown key is never empty. |
| UncategorizedReport.TranspOrNone | scripts/investigate_uncategorized.py:274-276 | A breakdown key is never empty. |
| TagReport.NoTag | scripts/analyze_by_tags.py:167-172 | The untagged list is exactly the work events without tags. |
| TagReport.TagItems | scripts/analyze_by_tags.py:167-172 | Each tag occurrence is paired with the event that lists it. |
| TagReport.TagTotals | scripts/analyze_by_tags.py:167-192 | A tag has an entry exactly when some work event lists it. Its count is the number of listings, so an event listing a tag twice counts twice, and its hours weigh each event by its listings. |
| TagReport.GroupsHoldTagged | scripts/analyze_by_tags.py:167-170 | Every event under a tag lists that tag. |
| TagReport.MonthsActive | scripts/analyze_by_tags.py:178-183 | The months active are ascending, exclude `""`, and are exactly the months of the events. |
| TagReport.MonthsOfTag | scripts/analyze_by_tags.py:178-183 | A tag's months are ascending, repeat nothing, exclude `""`, and are exactly the months of its events. |
| TagReport.SamplesOfTag | scripts/analyze_by_tags.py:184-191 | A tag's samples describe its first five listings in visiting order. |
| TagReport.EmptyTagIsATag | scripts/analyze_by_tags.py:128-172 | An empty CATEGORIES value tags the event with `""`, so the event is counted under `""` and is not untagged. |
| TagReport.StatsOf | scripts/analyze_by_tags.py:175-192 | A tag's statistics record its group's size, hours, months and first five samples. |
| TagReport.Analyze | scripts/analyze_by_tags.py:157-194 | The report's work list and untagged list are the work events and the untagged ones among them. |
| TagReport.KeysCountOccurrences | scripts/analyze_by_tags.py:167-172 | Tags are visited once per listing, duplicates included. |
| TagReport.FilterWeighted | scripts/analyze_by_tags.py:167-183 | The hours under a tag are each event's hours times the number of times it lists the tag. |
| Tally.Keep | scripts/stakeholder_analysis.py:305 | The work-event filter (here and in scripts/analyze_by_tags.py, each with its own work test) keeps exactly the events that pass the test, never more than it was given, and all of them when every event passes. |
| Stakeholders.WorkHasAttendees | scripts/stakeholder_analysis.py:203-205 | A work-relevant event always has attendees. |
| Stakeholders.Guests | scripts/stakeholder_analysis.py:340-346 | One event's visits are exactly its attendees other than the owner. |
| Stakeholders.Visits | scripts/stakeholder_analysis.py:340-346 | The visits are exactly the pairs (event, attendee) of the events in which the attendee is not the owner. |
| Stakeholders.Replay | scripts/stakeholder_analysis.py:352-364 | Folding one contact's visits counts them, splits the count into organizer and attendee roles, and sums their hours. |
| Stakeholders.ContactsAtKey | scripts/stakeholder_analysis.py:340-364 | The contact under a key is the fold of exactly the visits with that key, in order. A key has a contact exactly when some visit has it. |
| Stakeholders.ContactFacts | scripts/stakeholder_analysis.py:340-364 | Each contact has count at least one, and organizer plus attendee roles equal the count. Its hours, companies, active months and meeting types are those of its visits, and the type counts add up to the count. |
| Stakeholders.ContactIff | scripts/stakeholder_analysis.py:301-370 | A contact exists exactly when some work event has an attendee under that key who is not the owner. |
| Stakeholders.SelfNotContact | scripts/stakeholder_analysis.py:346 | A key that only the owner's own entries carry never becomes a contact. |
| Stakeholders.ContactTypes | scripts/stakeholder_analysis.py:355 | A contact's meeting types are among the seven and add up to its count. |
| Stakeholders.LeadOf | scripts/stakeholder_analysis.py:332-338 | An organizer is keyed by name, or by address when there is no name. The entry carries the event's hours, company and month. |
| Stakeholders.Leads | scripts/stakeholder_analysis.py:332-338 | The organizer entries are exactly those of work events organized by someone other than the owner. |
| Stakeholders.OrganizersEnrol | scripts/stakeholder_analysis.py:332-338 | The organizer fold over the events equals the fold over their organizer entries. |
| Stakeholders.EnrolTally | scripts/stakeholder_analysis.py:332-338 | Per organizer, the count and hours equal a plain tally of its entries. The company is that of its last entry. |
| Stakeholders.EnrolMonths | scripts/stakeholder_analysis.py:332-338 | An organizer's active months are exactly the non-empty months of its entries. |
| Stakeholders.OwnEventsSkipped | scripts/stakeholder_analysis.py:332 | An event organized by the owner does not change the organizer table. |
| Stakeholders.Analyze | scripts/stakeholder_analysis.py:301-370 | The work list is the work events, and every contact has count at least one. |
| TimePatterns.TabulateFacts | scripts/stakeholder_analysis.py:397-431 | A bucket table has a key exactly when some event falls in it. The entry counts those events and sums their hours, and the table's counts and hours add up to the totals. |
| TimePatterns.Dated | scripts/stakeholder_analysis.py:397-399 | The events counted by month are exactly those with a date. |
| TimePatterns.CompaniesOf | scripts/stakeholder_analysis.py:414-421 | An event's companies are exactly its attendees' companies, without repeats, and at least one when it has attendees. |
| TimePatterns.CompanyFacts | scripts/stakeholder_analysis.py:414-421 | A company has an entry exactly when some event reaches it. The entry counts those events and sums their shares of hours. |
| TimePatterns.EqualShares | scripts/stakeholder_analysis.py:414-421 | Splitting hours equally among `n` companies loses nothing. |
| TimePatterns.SharesSum | scripts/stakeholder_analysis.py:414-421 | An event's company shares add up to its hours. |
| TimePatterns.CompanyHoursTotal | scripts/stakeholder_analysis.py:414-421 | The company table's hours add up to the total hours of the events. |
| TimePatterns.SplitIsTally | scripts/stakeholder_analysis.py:449-454 | The recurring/ad-hoc split counts and sums exactly the events of each kind. |
| TimePatterns.SplitEvents | scripts/stakeholder_analysis.py:449-454 | Recurring and ad-hoc together cover all events and all hours. |
| TimePatterns.PatternTotals | scripts/stakeholder_analysis.py:373-456 | The weekday, time, type, location and size tables and the company hours each account for every work event and all its hours once. The month table accounts for every dated work event. |
| TimePatterns.PatternKeys | scripts/stakeholder_analysis.py:406-446 | Type, location and size keys are among their named buckets, and month keys are `YYYY-MM`. |
| TimePatterns.NoEmptyMonth | scripts/stakeholder_analysis.py:397-399 | No month bucket is keyed by `""`. |
| TimePatterns.Analyze | scripts/stakeholder_analysis.py:449-454 | Recurring plus ad-hoc events equal the number of work events. |
| Tally.TallyAtKey | scripts/stakeholder_analysis.py:397-412 | A count-and-hours tally has a key exactly when some item has it, with that key's count and hours. |
| Tally.TallyTotal | scripts/stakeholder_analysis.py:397-412 | A tally's counts add up to the number of items, and its hours to the sum of all hours. |
| Tally.GroupAtKey | scripts/analyze_calendar.py:237-239 | A grouping has a key exactly when some item has it, and holds that key's items in order. |
| Tally.GroupTotal | scripts/analyze_calendar.py:237-239 | Every item lands in exactly one group. |
| Tally.CountsAtKey | scripts/stakeholder_analysis.py:434-446 | A counter has a key exactly when some item has it, counting its occurrences. |
| Tally.CountsTotal | scripts/stakeholder_analysis.py:434-446 | A counter's counts add up to the number of items. |
| Tally.MapSumSplit | scripts/rerun_analysis_improved.py:274-289 | Summing the kept and the dropped keys separately gives the whole sum. |
| Tally.FilterAtPositions | scripts/analyze_calendar.py:254-263 | The items under a key are the items at that key's positions, in order. |
| Tally.NonEmpty | scripts/analyze_by_tags.py:178 | Dropping empty strings keeps exactly the non-empty ones. |
| Folds.GroupHoursTotal | scripts/analyze_calendar.py:237-242 | The hours of all groups add up to the hours of all events. |
| Folds.SeqHoursRepeat | scripts/analyze_by_tags.py:167-183 | An event listed `n` times contributes `n` times its hours. |
| Text.AsciiOnly | scripts/stakeholder_analysis.py:152 | Encoding to ASCII and ignoring errors leaves only characters below 128, keeps each of them as often as the input has it, and keeps an ASCII text unchanged. |
| Text.AsciiOnlyAppend | scripts/stakeholder_analysis.py:152 | The filter of a concatenation is the concatenation of the filters, so the kept characters stay in input order. |
| Text.Strip | scripts/stakeholder_analysis.py:121 | Stripping removes whitespace from both ends only, leaving no whitespace at either end. |
| Text.StripStable | scripts/analyze_by_tags.py:128-129 | Stripping a text without surrounding whitespace leaves it unchanged. |
| Text.BlankIffAllSpace | scripts/investigate_uncategorized.py:261 | A text strips to nothing exactly when all its characters are whitespace. |
| Text.Split | scripts/analyze_by_tags.py:128-129 | Splitting gives one piece more than there are separators, and no piece holds the separator. |
| Text.JoinSplit | scripts/analyze_by_tags.py:128-129 | Joining the pieces of a split with the separator gives the text back. |
| Text.LowerTitle | scripts/stakeholder_analysis.py:254 | Title-casing changes only letter case. |
| Text.Take | scripts/stakeholder_analysis.py:158 | Slicing `[:n]` keeps a prefix of at most `n` characters, and the whole text when it is shorter. |
| Scan.Search | scripts/stakeholder_analysis.py:161-183 | A regular-expression search succeeds exactly when the pattern matches somewhere. It returns the group at the leftmost match, and the group is non-empty. |
| Scan.LastPieceHasNoSep | scripts/stakeholder_analysis.py:38-39 | `split(sep)[-1]` contains no `sep`. |
| Scan.LastPieceAppend | scripts/stakeholder_analysis.py:38-39 | Text after the last separator keeps what follows it, when the appended text holds no separator. |
| Scan.AfterTzid | scripts/stakeholder_analysis.py:38-39 | The text searched for a date-time never contains `TZID=`. |
| Scan.FindStamp | scripts/stakeholder_analysis.py:41-42 | The date-time search finds the leftmost `\d{8}T\d{6}` match, or reports that there is none. |
| Scan.FindDay | scripts/stakeholder_analysis.py:56 | The date search finds the leftmost `\d{8}` match, or reports that there is none. |
| Scan.FindClock | scripts/stakeholder_analysis.py:76 | The time search finds the leftmost `T\d{6}` match, or reports that there is none. |
| Order.SortedSet | scripts/analyze_by_tags.py:178 | `sorted(set(xs))` is ascending and holds exactly the elements of `xs`. |
| Order.AscendingDistinct | scripts/analyze_by_tags.py:178 | An ascending list repeats nothing. |
| Order.BelowTotal | scripts/analyze_by_tags.py:178 | String order is total. |
| Order.BelowTransitive | scripts/analyze_by_tags.py:178 | String order is transitive. |
| Order.BelowIrreflexive | scripts/analyze_by_tags.py:178 | String order is strict. |

## Left out

- Floating point: hours are exact rationals (`real`), seconds / 3600. Python's binary floats and `round(…, 2)` in the reports are not modelled.
- Letter case: `lower()` and `title()` are modelled on ASCII letters only. Python's Unicode case mappings are not modelled.
- Regular expressions: each `re.search` pattern is replaced by a hand-written leftmost scanner for that pattern (`Scan`). The regular-expression engine is not modelled. The scanners, and the number reading after them, accept only the digits `0`-`9`: Python's `\d`, `int()` and `strptime` also accept the other Unicode decimal digits.
- Dates: `strptime` and `strftime` are modelled on the proleptic Gregorian calendar, with zero-padded four-digit years. Years below 1000 print differently on some platforms, and that is not modelled. Locale-dependent weekday names are fixed to English.
- Dictionary order: Python dicts and sets keep insertion or hash order. The model uses maps and sets, and states contents, not order. Sorting by count in the printed reports is not modelled.
- Printing and I/O: printing, the JSON export files, `main`, and reading the file are not modelled. The input is the sequence of lines as Python's text mode yields them, newlines already translated.
- The `export_*` functions, the `print_*` report functions and the common-words counter of `analyze_uncategorized` produce output only and are not modelled.
- The owner's identity, which the scripts hard-code, is the parameter `viewer`.
- `start_server.py`, `scripts/query_calendar.py` and `scripts/generate_calibration_summary.py` read the results of the analysis; they are not part of this model.
- Exceptions: the scripts catch every exception in the date accessors and return a default. The model returns the same default wherever the code would raise: an invalid date, or a time with seconds 60 or 61.
