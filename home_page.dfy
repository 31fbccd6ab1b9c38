/**
 * The home page: the tab filter over the event list, and the normalisation of a storage
 * row into an event (`mapActivityToEvent`).
 */
module HomePage {
  import opened Wrappers
  import opened Json
  import Data
  import Dates
  import Seqs

  // ---------------------------------------------------------------------------------
  // Tabs

  const InProgressTab: string := "in-progress"
  const HistoryTab: string := "history"
  const MyInitiatedTab: string := "my-initiated"

  /** Whether the active tab shows the event. */
  predicate TabKeeps(tab: string, e: Data.Event, clock: Dates.Clock) {
    var passed := Dates.DatePassed(e.date, clock);
    if tab == InProgressTab then !passed
    else if tab == HistoryTab then passed
    else if tab == MyInitiatedTab then e.initiatorName == Data.CurrentUser.name
    else true
  }

  /** `filteredEvents`: the events the tab keeps, in list order. */
  function FilteredEvents(events: seq<Data.Event>, tab: string, clock: Dates.Clock): (r: seq<Data.Event>)
    ensures Seqs.IsSubsequence(r, events)
    ensures forall e :: e in r <==> e in events && TabKeeps(tab, e, clock)
    ensures forall e :: multiset(r)[e] == if TabKeeps(tab, e, clock) then multiset(events)[e] else 0
  {
    var keep := (e: Data.Event) => TabKeeps(tab, e, clock);
    Seqs.FilterIsSubsequence(events, keep);
    Seqs.FilterCounts(events, keep);
    Seqs.Filter(events, keep)
  }

  /** What each named tab keeps, spelled out. */
  lemma TabMembership(events: seq<Data.Event>, clock: Dates.Clock, e: Data.Event)
    ensures e in FilteredEvents(events, InProgressTab, clock) <==> e in events && !Dates.DatePassed(e.date, clock)
    ensures e in FilteredEvents(events, HistoryTab, clock) <==> e in events && Dates.DatePassed(e.date, clock)
    ensures e in FilteredEvents(events, MyInitiatedTab, clock)
            <==> e in events && e.initiatorName == Data.CurrentUser.name
  {
  }

  /** "In progress" and "history" split the list: every event is on exactly one of them. */
  lemma InProgressAndHistoryPartition(events: seq<Data.Event>, clock: Dates.Clock)
    ensures |FilteredEvents(events, InProgressTab, clock)| + |FilteredEvents(events, HistoryTab, clock)| == |events|
    ensures multiset(FilteredEvents(events, InProgressTab, clock)) + multiset(FilteredEvents(events, HistoryTab, clock))
            == multiset(events)
  {
    Seqs.FilterPartition(events, (e: Data.Event) => TabKeeps(InProgressTab, e, clock),
                         (e: Data.Event) => TabKeeps(HistoryTab, e, clock));
  }

  /** Any other tab value shows the whole list. */
  lemma OtherTabKeepsAll(events: seq<Data.Event>, tab: string, clock: Dates.Clock)
    requires tab != InProgressTab && tab != HistoryTab && tab != MyInitiatedTab
    ensures FilteredEvents(events, tab, clock) == events
  {
    Seqs.FilterAll(events, (e: Data.Event) => TabKeeps(tab, e, clock));
  }

  /** "Initiated by me" does not depend on the date or on today. */
  lemma MyInitiatedIgnoresDates(events: seq<Data.Event>, clock: Dates.Clock, other: Dates.Clock)
    ensures FilteredEvents(events, MyInitiatedTab, clock) == FilteredEvents(events, MyInitiatedTab, other)
  {
    Seqs.FilterAgrees(events, (e: Data.Event) => TabKeeps(MyInitiatedTab, e, clock),
                      (e: Data.Event) => TabKeeps(MyInitiatedTab, e, other));
  }

  // ---------------------------------------------------------------------------------
  // Row normalisation

  /** A row of the activities table; a column the row lacks is `Undefined`. */
  datatype ActivityRow = ActivityRow(
    id: Json,
    name: Json,
    date: Json,
    status: Json,
    description: Json,
    budgetRange: Json,             // column budget_range
    participants: Json,
    recommendedLocations: Json,    // column recommended_locations
    finalLocation: Json,           // column final_location
    allVetoed: Json,               // column all_vetoed
    rsvpDeadline: Json,            // column rsvp_deadline
    userRsvpStatus: Json,          // column user_rsvp_status
    initiatorName: Json,           // column initiator_name
    confirmedParticipants: Json,   // column confirmed_participants
    userReconfirmationStatus: Json,// column user_reconfirmation_status
    reconfirmationDeadline: Json)  // column reconfirmation_deadline

  /** The event object `mapActivityToEvent` builds; its fields hold whatever values the rules pick. */
  datatype MappedEvent = MappedEvent(
    id: Json,
    name: Json,
    date: Json,
    status: Json,
    description: Json,
    budgetRange: Json,
    participants: Json,
    recommendedLocations: Json,
    finalLocation: Json,
    allVetoed: Json,
    rsvpDeadline: Json,
    userRsvpStatus: Json,
    initiatorName: Json,
    confirmedParticipants: Json,
    userReconfirmationStatus: Json,
    reconfirmationDeadline: Json)

  /**
   * The participants rule as the source writes it: an array is kept, a string is parsed
   * and its value kept whatever it is, and everything else becomes `[]`.
   */
  function ParticipantsAsWritten(v: Json, parse: string -> Option<Json>): (r: Json)
    ensures !Truthy(v) || !(v.Str? || v.Arr?) ==> r == Arr([])
    ensures v.Arr? ==> r == v
    ensures Truthy(v) && v.Str? ==> r == parse(v.text).GetOr(Arr([]))
  {
    if !Truthy(v) then Arr([])
    else if v.Str? then
      match parse(v.text)
      case Some(parsed) => parsed
      case None => Arr([])
    else if v.Arr? then v
    else Arr([])
  }

  /**
   * `JSON.parse("null")` is `null`, so a row whose participants column holds the text
   * "null" yields a participant list that is not an array, against the stated intent.
   */
  lemma ParticipantsAsWrittenKeepsNull(parse: string -> Option<Json>)
    requires parse("null") == Some(Null)
    ensures !ParticipantsAsWritten(Str("null"), parse).Arr?
  {
  }

  /**
   * `participants` normalised to an array: as written, except that a string whose parse
   * is not an array also falls back to `[]`.
   */
  function Participants(v: Json, parse: string -> Option<Json>): (r: Json)
    ensures r.Arr?
    ensures v.Arr? ==> r == v
    ensures ParticipantsAsWritten(v, parse).Arr? ==> r == ParticipantsAsWritten(v, parse)
    ensures !ParticipantsAsWritten(v, parse).Arr? ==> r == Arr([])
  {
    var written := ParticipantsAsWritten(v, parse);
    if written.Arr? then written else Arr([])
  }

  /** `confirmedParticipants`: undefined when absent or of no known shape, `[]` when unparsable. */
  function ConfirmedParticipants(v: Json, parse: string -> Option<Json>): (r: Json)
    ensures !Truthy(v) || !(v.Str? || v.Arr?) ==> r == Undefined
    ensures v.Arr? ==> r == v
    ensures Truthy(v) && v.Str? ==> r == parse(v.text).GetOr(Arr([]))
  {
    if !Truthy(v) then Undefined
    else if v.Str? then
      match parse(v.text)
      case Some(parsed) => parsed
      case None => Arr([])
    else if v.Arr? then v
    else Undefined
  }

  /** `recommendedLocations`: like the confirmed list, but an unparsable string leaves it undefined. */
  function RecommendedLocations(v: Json, parse: string -> Option<Json>): (r: Json)
    ensures !Truthy(v) || !(v.Str? || v.Arr?) ==> r == Undefined
    ensures v.Arr? ==> r == v
    ensures Truthy(v) && v.Str? ==> r == parse(v.text).GetOr(Undefined)
  {
    if !Truthy(v) then Undefined
    else if v.Str? then
      match parse(v.text)
      case Some(parsed) => parsed
      case None => Undefined
    else if v.Arr? then v
    else Undefined
  }

  /** `finalLocation`: any object value (arrays included) is kept; an unparsable string leaves it undefined. */
  function FinalLocation(v: Json, parse: string -> Option<Json>): (r: Json)
    ensures !Truthy(v) || !(v.Str? || IsObjectType(v)) ==> r == Undefined
    ensures Truthy(v) && IsObjectType(v) ==> r == v
    ensures Truthy(v) && v.Str? ==> r == parse(v.text).GetOr(Undefined)
  {
    if !Truthy(v) then Undefined
    else if v.Str? then
      match parse(v.text)
      case Some(parsed) => parsed
      case None => Undefined
    else if IsObjectType(v) then v
    else Undefined
  }

  /** `mapActivityToEvent`, as the source writes it. */
  function MapActivityToEvent(row: ActivityRow, parse: string -> Option<Json>): (e: MappedEvent)
    // identity fields are copied untouched
    ensures e.id == row.id && e.name == row.name && e.date == row.date && e.status == row.status
    // the four list and object fields follow their own rules
    ensures e.participants == ParticipantsAsWritten(row.participants, parse)
    ensures e.confirmedParticipants == ConfirmedParticipants(row.confirmedParticipants, parse)
    ensures e.recommendedLocations == RecommendedLocations(row.recommendedLocations, parse)
    ensures e.finalLocation == FinalLocation(row.finalLocation, parse)
    // the three text fields always hold a value: the stored one, or '' in place of null or undefined
    ensures forall f :: f in [e.description, e.budgetRange, e.initiatorName] ==> f != Undefined && f != Null
    ensures row.description != Undefined && row.description != Null ==> e.description == row.description
    ensures row.budgetRange != Undefined && row.budgetRange != Null ==> e.budgetRange == row.budgetRange
    ensures row.initiatorName != Undefined && row.initiatorName != Null ==> e.initiatorName == row.initiatorName
    ensures row.description == Undefined || row.description == Null ==> e.description == Str("")
    ensures row.budgetRange == Undefined || row.budgetRange == Null ==> e.budgetRange == Str("")
    ensures row.initiatorName == Undefined || row.initiatorName == Null ==> e.initiatorName == Str("")
    // the other optional scalars only lose a null, which becomes undefined
    ensures var optional := [e.allVetoed, e.rsvpDeadline, e.userRsvpStatus,
                             e.userReconfirmationStatus, e.reconfirmationDeadline];
            forall f :: f in optional ==> f != Null
    ensures row.allVetoed != Null ==> e.allVetoed == row.allVetoed
    ensures row.rsvpDeadline != Null ==> e.rsvpDeadline == row.rsvpDeadline
    ensures row.userRsvpStatus != Null ==> e.userRsvpStatus == row.userRsvpStatus
    ensures row.userReconfirmationStatus != Null ==> e.userReconfirmationStatus == row.userReconfirmationStatus
    ensures row.reconfirmationDeadline != Null ==> e.reconfirmationDeadline == row.reconfirmationDeadline
    ensures row.allVetoed == Null ==> e.allVetoed == Undefined
    ensures row.rsvpDeadline == Null ==> e.rsvpDeadline == Undefined
    ensures row.userRsvpStatus == Null ==> e.userRsvpStatus == Undefined
    ensures row.userReconfirmationStatus == Null ==> e.userReconfirmationStatus == Undefined
    ensures row.reconfirmationDeadline == Null ==> e.reconfirmationDeadline == Undefined
  {
    MappedEvent(
      id := row.id,
      name := row.name,
      date := row.date,
      status := row.status,
      description := Coalesce(row.description, Str("")),
      budgetRange := Coalesce(row.budgetRange, Str("")),
      participants := ParticipantsAsWritten(row.participants, parse),
      recommendedLocations := RecommendedLocations(row.recommendedLocations, parse),
      finalLocation := FinalLocation(row.finalLocation, parse),
      allVetoed := Coalesce(row.allVetoed, Undefined),
      rsvpDeadline := Coalesce(row.rsvpDeadline, Undefined),
      userRsvpStatus := Coalesce(row.userRsvpStatus, Undefined),
      initiatorName := Coalesce(row.initiatorName, Str("")),
      confirmedParticipants := ConfirmedParticipants(row.confirmedParticipants, parse),
      userReconfirmationStatus := Coalesce(row.userReconfirmationStatus, Undefined),
      reconfirmationDeadline := Coalesce(row.reconfirmationDeadline, Undefined))
  }

  /**
   * `mapActivityToEvent` with the participants rule corrected: the participant list is
   * always an array, and every other field is as the source computes it.
   */
  function MapActivityToEventCorrected(row: ActivityRow, parse: string -> Option<Json>): (e: MappedEvent)
    ensures e.participants.Arr?
    ensures e.participants == Participants(row.participants, parse)
    ensures e.(participants := Arr([])) == MapActivityToEvent(row, parse).(participants := Arr([]))
  {
    MapActivityToEvent(row, parse).(participants := Participants(row.participants, parse))
  }

  /**
   * The correction only matters for the rows it names: whenever the source's mapping already
   * yields an array of participants, the corrected mapping is the same event; otherwise the
   * two differ exactly in a participant list that becomes `[]`.
   */
  lemma CorrectionIsConservative(row: ActivityRow, parse: string -> Option<Json>)
    ensures MapActivityToEvent(row, parse).participants.Arr? ==>
            MapActivityToEventCorrected(row, parse) == MapActivityToEvent(row, parse)
    ensures !MapActivityToEvent(row, parse).participants.Arr? ==>
            MapActivityToEventCorrected(row, parse) == MapActivityToEvent(row, parse).(participants := Arr([]))
  {
  }

  /**
   * Where the list rules part ways: an unparsable string gives `[]` for the confirmed
   * list but leaves the locations undefined, and an absent column gives `[]` for the
   * participants but leaves the confirmed list undefined.
   */
  lemma FallbacksDiffer(parse: string -> Option<Json>, s: string)
    requires s != "" && parse(s).None?
    ensures ConfirmedParticipants(Str(s), parse) == Arr([]) && RecommendedLocations(Str(s), parse) == Undefined
    ensures Participants(Undefined, parse) == Arr([]) && ConfirmedParticipants(Undefined, parse) == Undefined
  {
  }

  /** Normalising a list that is already normalised changes nothing. */
  lemma NormalisedListsAreStable(v: Json, parse: string -> Option<Json>)
    ensures Participants(Participants(v, parse), parse) == Participants(v, parse)
    ensures ConfirmedParticipants(v, parse).Arr? ==>
            ConfirmedParticipants(ConfirmedParticipants(v, parse), parse) == ConfirmedParticipants(v, parse)
    ensures RecommendedLocations(v, parse).Arr? ==>
            RecommendedLocations(RecommendedLocations(v, parse), parse) == RecommendedLocations(v, parse)
  {
  }
}
