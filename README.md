# Rally (碰头吧) — a Dafny model of the event core

Rally is a web app for organising get-togethers. Someone creates an event. Friends answer
the invitation (attend, decline, maybe). Candidate locations are voted on or vetoed. Once a
location is chosen, everyone reconfirms. This project models the logic of that app and
proves properties of the model:

- `Data` (`data.dfy`): the in-memory event table in `lib/data.ts`.
  - The table is a class that owns the sequence of events. It is created from the eight
    seed events.
  - Each updater is a method. It finds the first event with the given id and replaces that
    one slot.
  - The class invariant is that event `k` has id `k + 1` in decimal. So a new event's id
    never clashes with an existing one, and every event can be found by its id.
  - The participant rules are functions on sequences, with lemmas about them: the RSVP rule
    (add by name if absent, otherwise remove every entry with that name) and the
    reconfirmation rule.
- `EventCard` (`event_card.dfy`): what an event card shows.
  - The display status, and the badge colour table.
  - Which participant list the avatars come from, and the participant-count text.
  - The four-avatar row and its `+n` overflow badge.
  - The link to the event's page.
- `HomePage` (`home_page.dfy`): the home page's tab filter, and the normalisation of a
  database row (`mapActivityToEvent`).
- `CreateEvent` (`create_event.dfy`): the guards of the create-event form and the record
  it inserts. A lemma maps that record back through the home page's normalisation.
- `Register` (`register.dfy`): the three ordered checks of the registration form, and
  what the page shows once the registration call returns.
- `Auth` (`auth.dfy`): the toy `md5` password hash.
  - It is a method with a loop.
  - It is proved equal to a fold over the password's UTF-16 code units, with JS 32-bit
    wrap-around written out.
  - Lemmas state the fixed answers for `"admin"` and for the empty password, the output
    shape, and the value the hex digits encode.
- Support modules:
  - `Wrappers`: the `Option` type.
  - `Seqs`: an order-preserving filter and the subsequence relation.
  - `Text`: number-to-string in base 10 and 16, with its round trip; `padStart`; UTF-16
    code units and the JS length.
  - `Json`: JS values as they arrive from the store, with truthiness and `??`.
  - `Dates`: the day comparison.

Three host facilities become parameters:

- `new Date(...)`, with its `setHours(0,0,0,0)` truncation, becomes a `Dates.Clock`. The
  clock maps a date string to a day number, or to nothing for an unparsable date (an
  Invalid Date never compares as earlier). It also holds today's day number.
- `JSON.parse` becomes a function from a string to an optional JS value; `None` stands
  for a parse that throws.
- The signed-in user, and whether the store is configured, are inputs to the form
  handlers.

Three behaviours of the code that are easy to misread:

- Recording an all-vetoed outcome (`setEventAllVetoed`, `lib/data.ts:325-334`) sets only
  the flag and the candidate list. It does not move the status to "所有选项均被否决".
- The participant and reconfirmation lists are matched by name, not by identity.
- `userRsvpStatus` and `userReconfirmationStatus` are single fields shared by everyone.

## Model

| member | source | states |
|---|---|---|
| `Data.LabelsDistinct` | lib/data.ts:18-29 | the status labels are pairwise distinct, the RSVP labels are too, and no RSVP label is also an event status label |
| `Data.FindIndex` | lib/data.ts:228-229 | `findIndex`: the result is the first index whose id matches; with no result, no event has the id |
| `Data.PositionalLookup` | lib/data.ts:207-212 | in a table with positional ids, id `k+1` finds index `k` |
| `Data.PositionalFreshId` | lib/data.ts:211-212 | with positional ids, the id `length + 1` is held by no event |
| `Data.SeedIsPositional` | lib/data.ts:37-205 | the eight seed events carry ids "1" to "8" in order |
| `Data.EventTable.constructor` | lib/data.ts:37-205 | the table starts as the seed events and satisfies the positional-id invariant |
| `Data.EventTable.GetEventById` | lib/data.ts:207-209 | some event is returned iff some event has the id; the returned event has that id and is the one at the first matching index |
| `Data.EventTable.AddEvent` | lib/data.ts:211-225 | appends exactly one event and keeps all earlier ones; its id is the decimal of old length + 1, held by no earlier event, and looking it up returns the new event; status is awaiting response; participants and confirmed list are `[currentUser]`; the initiator is the current user; RSVP is attending and reconfirmation is confirmed; every other field comes from the argument |
| `Data.EditedFirstFrame` | lib/data.ts:227-334 | for every updater: the length is kept; every slot but the first match is unchanged, and so is every event with another id; an absent id changes nothing; the matched slot is the edited event |
| `Data.EventTable.UpdateEventStatus` | lib/data.ts:227-232 | only the first matching event's status changes, to the given one |
| `Data.AddIfAbsent` | lib/data.ts:238-245 | afterwards the name is present; an existing name leaves the list unchanged; otherwise the participant is appended at the end |
| `Data.WithoutName` | lib/data.ts:246-250 | afterwards no entry has the name; exactly the entries with other names remain, in their order and with every copy kept; an absent name leaves the list unchanged |
| `Data.RsvpParticipants` | lib/data.ts:240-250 | the RSVP rule: everyone with another name keeps every copy; attending can only append to the list (the old list is a prefix), and any other answer can only remove entries (the result is a subsequence); with `RsvpOutcome`, the actor is listed afterwards iff attending |
| `Data.RsvpOutcome` | lib/data.ts:242-250 | after an RSVP the name is present iff the status is attending; others are kept; nobody new appears except the participant |
| `Data.RsvpIdempotent` | lib/data.ts:242-250 | applying the same RSVP twice equals applying it once |
| `Data.RosterKeepsUniqueNames` | lib/data.ts:238-250 | a list with distinct names keeps distinct names under the RSVP rule |
| `Data.EventTable.UpdateParticipantStatus` | lib/data.ts:234-257 | only the first matching event's participant list changes, by the RSVP rule |
| `Data.EventTable.UpdateUserRsvpStatus` | lib/data.ts:259-264 | only the first matching event's RSVP field changes |
| `Data.ReconfirmOutcome` | lib/data.ts:270-278 | the name is in the confirmed list afterwards iff the status is "confirmed"; other entries are kept; a missing list counts as empty |
| `Data.ReconfirmIdempotent` | lib/data.ts:270-278 | reconfirming twice with the same status equals reconfirming once |
| `Data.ReconfirmedParticipants` | lib/data.ts:270-278 | the reconfirmation rule on the list or on `[]` when it is missing: everyone with another name keeps every copy; confirming can only append, and declining can only remove; with `ReconfirmOutcome`, the actor is listed iff confirmed |
| `Data.EventTable.UpdateUserReconfirmationStatus` | lib/data.ts:266-287 | the confirmed list is updated by the rule and becomes present; the reconfirmation status changes only when the participant's name is the current user's |
| `Data.EventTable.SetEventFinalLocation` | lib/data.ts:289-302 | status becomes results-ready; final location and candidate list are set; the confirmed list restarts from the participants; the all-vetoed flag is untouched |
| `Data.EventTable.SetEventManualFinalLocation` | lib/data.ts:304-316 | status becomes results-ready; the final location is set and all-vetoed becomes false; the confirmed list restarts from the participants; the candidates are untouched |
| `Data.EventTable.UpdateEventLocations` | lib/data.ts:318-323 | only the candidate locations change |
| `Data.EventTable.SetEventAllVetoed` | lib/data.ts:325-334 | only the all-vetoed flag and the candidate locations change; the status is kept |
| `Seqs.FilterIsSubsequence` | app/page.tsx:171 | `Array.filter` keeps an order-preserving subsequence |
| `Seqs.FilterPartition` | app/page.tsx:178-181 | filtering by a predicate and by its negation splits the list: the sizes add up and the multisets sum to the original |
| `Seqs.Filter` | app/page.tsx:171 | `Array.filter`: the result is no longer than the list, and an element is in it iff it is in the list and the predicate accepts it |
| `EventCard.DisplayStatus` | components/event-card.tsx:22-31 | a passed day shows "已结束"; otherwise an awaiting event with an RSVP shows the RSVP label; in every other case the stored status shows |
| `EventCard.DisplayEndedExactly` | components/event-card.tsx:13-31 | the card shows "已结束" exactly when the day has passed or the stored status is ended |
| `EventCard.BadgeClasses` | components/event-card.tsx:34-55 | the result is always one of the five class strings; any string outside the eight known labels gets gray |
| `EventCard.BadgeTable` | components/event-card.tsx:35-51 | each of the eight labels maps to its listed class; "结果已出" and "已参加" share green |
| `EventCard.BadgeOfDisplayStatus` | components/event-card.tsx:57-110 | a passed event's badge is gray; a results-ready event whose day has not passed is green; so is an awaiting event with an attending RSVP whose day has not passed |
| `EventCard.DisplayParticipants` | components/event-card.tsx:61-63 | avatars come from the confirmed list exactly when results are out and that list is non-empty; otherwise from the participants |
| `EventCard.ParticipantCountText` | components/event-card.tsx:66-72 | the text starts with the participant total |
| `EventCard.CountTextTotal` | components/event-card.tsx:66-72 | the number at the start of the count text reads back as the number of participants |
| `EventCard.CountTextConfirmed` | components/event-card.tsx:67-72 | the confirmed clause appears iff (results are out or the day has passed) and a confirmed list exists, even an empty one; the number it shows reads back as the list's length |
| `EventCard.Avatars` | components/event-card.tsx:86-99 | at most four avatars, a prefix of the list; the overflow badge exists iff there are more than four |
| `EventCard.AvatarsAccountForEveryone` | components/event-card.tsx:96-99 | the badge is "+" and digits, and the avatars shown plus the badge's number equal the list's length |
| `EventCard.AvatarSource` | components/event-card.tsx:90 | an image source is never empty; a non-empty avatar is used as is |
| `EventCard.CardShape` | components/event-card.tsx:58-112 | the link is "/event/" followed by the id; at most four non-empty image sources; overflow iff more than four; the initiator tag holds iff the initiator is the current user; a passed event shows the gray "已结束" badge |
| `EventCard.RenderCard` | components/event-card.tsx:57-112 | the rendered card; by `CardShape` it links to "/event/" + id, shows at most four avatars and a `+n` badge iff more than four people are listed, carries the initiator tag iff the event is the current user's, and shows the gray 已结束 badge once the day has passed |
| `EventCard.IsInitiator` | components/event-card.tsx:58 | the initiator tag's condition: the event's initiator name equals the current user's name (by `CardShape`, the tag shows exactly then) |
| `EventCard.IsEventDatePassed` | components/event-card.tsx:13-19 | the card's date test is `Dates.DatePassed` on the event's date; by `DisplayEndedExactly`, 已结束 shows iff it holds or the stored status is ended |
| `Dates.DatePassed` | components/event-card.tsx:13-19 | both dates are cut to the day; a date has passed iff its day is strictly before today, so today itself has not passed, and an unparsable date never has (used by the card and by the tab filter at app/page.tsx:172-176) |
| `HomePage.FilteredEvents` | app/page.tsx:171-186 | the result is an order-preserving subsequence; an event is in it iff it is in the input and the tab keeps it; a kept event appears as many times as in the input |
| `HomePage.TabKeeps` | app/page.tsx:171-186 | the filter's predicate; by `TabMembership` it is exactly the branch of each named tab, by `InProgressAndHistoryPartition` the two date tabs split every list, by `MyInitiatedIgnoresDates` the my-initiated tab does not depend on the clock, and by `OtherTabKeepsAll` any other tab keeps every event |
| `Seqs.FilterCounts` | app/page.tsx:171 | `Array.filter` keeps every copy of an accepted element and drops every copy of a rejected one |
| `HomePage.TabMembership` | app/page.tsx:178-184 | in-progress keeps exactly the events not yet passed; history keeps exactly the passed ones; my-initiated keeps exactly the current user's events |
| `HomePage.InProgressAndHistoryPartition` | app/page.tsx:171-181 | the in-progress and history tabs partition the list, as a multiset and in size |
| `HomePage.OtherTabKeepsAll` | app/page.tsx:185 | any other tab value keeps every event, in order |
| `HomePage.MyInitiatedIgnoresDates` | app/page.tsx:182-183 | the my-initiated tab does not depend on the clock |
| `HomePage.ParticipantsAsWritten` | app/page.tsx:31-43 | falsy or unknown shape gives `[]`; an array is kept; a string gives its parse result, or `[]` when the parse throws |
| `HomePage.ParticipantsAsWrittenKeepsNull` | app/page.tsx:33-35 | the stored text "null" yields a non-array participants value |
| `HomePage.Participants` | app/page.tsx:30-43 | the corrected normalisation always yields an array; it agrees with the code whenever the code yields an array, and otherwise gives `[]` |
| `HomePage.ConfirmedParticipants` | app/page.tsx:46-58 | falsy or unknown shape gives undefined; an array is kept; a string gives its parse result, or `[]` when the parse throws |
| `HomePage.RecommendedLocations` | app/page.tsx:61-72 | as for the confirmed list, except that a string that fails to parse gives undefined |
| `HomePage.FinalLocation` | app/page.tsx:74-86 | any truthy object value is kept; a string gives its parse result, or undefined; anything else gives undefined |
| `HomePage.MapActivityToEvent` | app/page.tsx:88-105 | as the code writes it: id, name, date and status are copied; participants, confirmed list, candidate locations and final location follow their rules (participants by the as-written rule); description, budget and initiator are copied when present and are '' when null or undefined; the other optional scalars are copied when not null and a null becomes undefined |
| `HomePage.MapActivityToEventCorrected` | app/page.tsx:29-105 | the mapping with the corrected participants rule: participants is always an array, and every other field equals the as-written mapping's |
| `HomePage.CorrectionIsConservative` | app/page.tsx:29-43 | when the code's mapping already yields an array of participants, the corrected mapping is the same event; otherwise it differs only in participants becoming `[]` |
| `HomePage.FallbacksDiffer` | app/page.tsx:46-72 | on an unparsable string the confirmed list falls back to `[]` but the locations to undefined; a missing field gives `[]` participants but an undefined confirmed list |
| `HomePage.NormalisedListsAreStable` | app/page.tsx:31-72 | participants normalise to a fixed point; a confirmed list or candidate list that is already an array is unchanged by a second normalisation |
| `Json.Coalesce` | app/page.tsx:93-104 | `??` keeps any value but null and undefined, and gives the fallback for those two |
| `CreateEvent.Deadline` | app/create-event/page.tsx:67-69 | a deadline exists iff both its date and time are non-empty, and is then "date time" |
| `CreateEvent.Submit` | app/create-event/page.tsx:39-71 | an empty name, date or time gives the first alert; a missing store or user gives the second; an insert happens iff neither applies |
| `CreateEvent.InsertedRecord` | app/create-event/page.tsx:57-71 | the record's date is date + " " + time; its status is "需要你响应"; the creator is the sole participant and the initiator; the user id is the creator's; a description or budget is null iff it is empty and otherwise is the typed text; each deadline is present iff both halves are given, and then is date + " " + time |
| `CreateEvent.FriendsIgnored` | app/create-event/page.tsx:21-71 | the friends field never changes the outcome |
| `CreateEvent.CreatedEventReadsBack` | app/create-event/page.tsx:57-71 | a created event read back by the home page has the creator as its only participant and as initiator; it is still awaiting response; an empty description or budget reads as ''; it has no confirmed list or locations; the RSVP deadline is undefined iff one half was empty |
| `Register.ValidationError` | app/register/page.tsx:22-35 | an empty field gives "请填写所有字段"; otherwise a mismatch gives "两次输入的密码不一致"; otherwise fewer than 6 UTF-16 units gives "密码长度至少6位"; no error iff all checks pass |
| `Register.ValidationMessages` | app/register/page.tsx:22-35 | a failed check's message is one of the three and never empty |
| `Register.MismatchBeforeLength` | app/register/page.tsx:27-35 | a short, mismatched password reports the mismatch, not the length |
| `Register.Submit` | app/register/page.tsx:22-41 | registration is called iff validation passes, and then the error is cleared and loading starts; otherwise only the error changes |
| `Register.Complete` | app/register/page.tsx:40-53 | loading always ends; a session is saved iff success and a user came back; a failure shows the returned error or "注册失败"; an exception shows "注册失败，请重试" |
| `Register.SubmissionSettles` | app/register/page.tsx:37-53 | after a call, loading has ended, and an error is shown exactly when no session was saved |
| `Auth.ToInt32` | lib/auth.ts:25 | the result is a signed 32-bit integer and equals the input when that already is one |
| `Auth.ToInt32Periodic` | lib/auth.ts:24-25 | wrapping ignores multiples of 2^32 |
| `Auth.ShiftStep` | lib/auth.ts:24-25 | `((h << 5) - h) + c` and then `& hash` equal the 32-bit wrap of 31·h + c |
| `Auth.StringHash` | lib/auth.ts:19-26 | the fold's value is always a signed 32-bit integer |
| `Auth.Md5` | lib/auth.ts:11-31 | the loop computes exactly the specified digest |
| `Auth.Digest` | lib/auth.ts:14-30 | the digest of lines 14-30, case by case; `Md5` computes it, and by `FixedDigests`, `AdminDigestUnique`, `DigestShape`, `DigestLeadingZeros` and `DigestReadsBack` it is 32 lower-case hex characters, the hard-coded value only for "admin", 32 zeros for the empty password, and otherwise the absolute value of the 32-bit hash padded with zeros |
| `Auth.FixedDigests` | lib/auth.ts:14-20 | "admin" gives 21232f297a57a5a743894a0e4a801fc3; the empty password gives 32 zeros |
| `Auth.AdminDigestUnique` | lib/auth.ts:14-16 | the admin digest is produced by "admin" and by no other password |
| `Auth.HexOfHashFits` | lib/auth.ts:29 | the hex form of a 32-bit hash's absolute value has at most 8 digits |
| `Auth.DigestShape` | lib/auth.ts:29-30 | every digest has exactly 32 characters, all in 0-9a-f |
| `Auth.DigestLeadingZeros` | lib/auth.ts:29-30 | for any password other than "admin", the first 24 characters are '0' |
| `Auth.DigestReadsBack` | lib/auth.ts:22-30 | for any password other than "admin", the digest read as hex is the absolute value of the hash fold |
| `Text.RadixRoundTrip` | lib/auth.ts:29 | `toString(base)` gives base digits that read back as the number |
| `Text.RadixInjective` | lib/data.ts:212 | different numbers have different decimal strings |
| `Text.PadStart` | lib/auth.ts:30 | `padStart` gives the target length, or the string's own length if it is longer; the string is its suffix and the rest is fill |
| `Text.Utf16` | lib/auth.ts:22-23 | every code unit is below 0x10000; there are at least as many as characters and at most twice as many; there are none iff the string is empty |
| `Text.CodeUnits` | lib/auth.ts:23 | one character gives one unit, its code, below U+10000, and above it a high-low surrogate pair that encodes the character |

## Left out

- All store I/O is left out: loading and the connection test on the home page, the
  insert after the create-event guards, and the registration, login and user queries
  behind `registerUser`. Their results enter the model only as inputs (the row read back,
  the reply to `registerUser`).
- Browser storage is left out: the saved session and the remembered tab.
- React state, effects, the focus listener, navigation and JSX layout (class strings
  other than the badge) are left out. The pages appear only as the values their handlers
  compute.
- `JSON.parse` is an input function. `new Date`/`setHours` is an input clock. Time zones
  and date-string formats are therefore not modelled.
- `mapActivityToEvent` ends in an unchecked `as Event` cast, and the filter and the card
  read the mapped value as an `Event`. The model keeps the two types apart: `HomePage`
  produces JS values, and `EventCard`/`HomePage.FilteredEvents` take typed events.
- The vote and veto resolution and the deadline guards are not in the modelled files.
  Only the setters that record their outcome are modelled.
- The login page, the debug page and the lazily cached store client are left out.
- Cross-client concurrent writes (last write wins in the store) are left out.
- JS numbers in the hash loop are modelled as integers. Every intermediate stays below 2^53, so no
  real rounding occurs. NaN and non-string inputs cannot reach `md5`.
- String lengths and character codes are taken in UTF-16 code units, as in JS; Dafny's
  `string` is a sequence of Unicode scalar values, so lone surrogates are not modelled.
- `CreateEvent.CreatedEventReadsBack` assumes that every column the insert does not set
  (candidate locations, final location, all-vetoed, RSVP status, confirmed list,
  reconfirmation status) reads back as null. It also assumes the participants column comes
  back as an already decoded array of `{name, avatar}` objects, not as text. The store's
  column defaults and encoding are not part of this model. The claims of "no confirmed
  list", "no locations" and "sole participant" rest on these assumptions.
- Object identity is not modelled. Events and participant lists are values. In the code
  `getEventById` and `addEvent` return the stored object itself (lib/data.ts:208, 224).
  `setEventFinalLocation` and `setEventManualFinalLocation` make `confirmedParticipants`
  the same array as `participants` (lib/data.ts:299, 313). No updater mutates an event or
  a list in place, so this sharing is not visible through the modelled operations.
  It would be visible to a caller that mutates a returned object.
- The `console.error` calls in the parse-failure branches of `mapActivityToEvent`
  (app/page.tsx:37, 52, 67, 81) are left out; they only log.
- The alerts shown after the insert (success, or the store's error message) are left out,
  since they depend only on the store's reply.

## Findings

| source | as written | input that shows it | evidently intended | confidence | as-written member | corrected member |
|---|---|---|---|---|---|---|
| app/page.tsx:31-43 | a string column is replaced by whatever `JSON.parse` returns | a `participants` column holding the text `null` gives `null` (or `{}`, or `5`), not an array, and the card then reads its `.length` | the comment says participants must end up an array; a parse result that is not an array should fall back to `[]` | not executed | `HomePage.ParticipantsAsWrittenKeepsNull` | `HomePage.Participants` |
