/**
 * What the event card on the home list derives from an event: the badge label and its
 * colours, the initiator tag, which participants appear as avatars, the overflow badge
 * and the participant-count line.
 */
module EventCard {
  import opened Wrappers
  import opened Data
  import Dates
  import Text

  const Yellow: string := "bg-yellow-100 text-yellow-800"
  const Blue: string := "bg-blue-100 text-blue-800"
  const Green: string := "bg-green-100 text-green-800"
  const Gray: string := "bg-gray-100 text-gray-800"
  const Red: string := "bg-red-100 text-red-800"

  /** `isEventDatePassed`: the event's day is strictly before today. */
  predicate IsEventDatePassed(e: Event, clock: Dates.Clock) {
    Dates.DatePassed(e.date, clock)
  }

  /**
   * `getDisplayStatus`: a passed date shows "ended" whatever is stored; otherwise an
   * event awaiting a response shows the user's RSVP once there is one, and every other
   * event shows its stored status.
   */
  function DisplayStatus(e: Event, clock: Dates.Clock): (display: string)
    ensures IsEventDatePassed(e, clock) ==> display == Ended.Label()
    ensures !IsEventDatePassed(e, clock) && e.status == AwaitingResponse && e.userRsvpStatus.Some?
            ==> display == e.userRsvpStatus.value.Label()
    ensures !IsEventDatePassed(e, clock) && (e.status != AwaitingResponse || e.userRsvpStatus.None?)
            ==> display == e.status.Label()
  {
    if IsEventDatePassed(e, clock) then Ended.Label()
    else if e.status == AwaitingResponse && e.userRsvpStatus.Some? then e.userRsvpStatus.value.Label()
    else e.status.Label()
  }

  /** The card says "ended" exactly when the date has passed or "ended" is what is stored. */
  lemma DisplayEndedExactly(e: Event, clock: Dates.Clock)
    ensures DisplayStatus(e, clock) == Ended.Label() <==> IsEventDatePassed(e, clock) || e.status == Ended
  {
    if !IsEventDatePassed(e, clock) {
      if e.status == AwaitingResponse && e.userRsvpStatus.Some? {
        LabelsDistinct(Ended, Ended, e.userRsvpStatus.value, e.userRsvpStatus.value);
      } else {
        LabelsDistinct(e.status, Ended, Attending, Attending);
      }
    }
  }

  /** `getStatusBadgeClasses`: the colour for each of the eight labels, gray for any other string. */
  function BadgeClasses(displayStatus: string): (classes: string)
    ensures classes in {Yellow, Blue, Green, Gray, Red}
    ensures displayStatus !in KnownLabels() ==> classes == Gray
  {
    if displayStatus == AwaitingResponse.Label() then Yellow
    else if displayStatus == Voting.Label() then Blue
    else if displayStatus == ResultsReady.Label() then Green
    else if displayStatus == Ended.Label() then Gray
    else if displayStatus == AllOptionsVetoed.Label() then Red
    else if displayStatus == Attending.Label() then Green
    else if displayStatus == Tentative.Label() then Yellow
    else if displayStatus == Declined.Label() then Red
    else Gray
  }

  function KnownLabels(): set<string> {
    {AwaitingResponse.Label(), Voting.Label(), ResultsReady.Label(), Ended.Label(), AllOptionsVetoed.Label(),
     Attending.Label(), Tentative.Label(), Declined.Label()}
  }

  /** The badge table, label by label. */
  lemma BadgeTable()
    ensures BadgeClasses("需要你响应") == Yellow && BadgeClasses("投票中") == Blue
    ensures BadgeClasses("结果已出") == Green && BadgeClasses("已结束") == Gray
    ensures BadgeClasses("所有选项均被否决") == Red && BadgeClasses("已参加") == Green
    ensures BadgeClasses("已待定") == Yellow && BadgeClasses("已拒绝") == Red
  {
  }

  /** A passed event always wears the gray badge; a stored result and an accepted RSVP share the green one. */
  lemma BadgeOfDisplayStatus(e: Event, clock: Dates.Clock)
    ensures IsEventDatePassed(e, clock) ==> BadgeClasses(DisplayStatus(e, clock)) == Gray
    ensures !IsEventDatePassed(e, clock) && e.status == ResultsReady ==> BadgeClasses(DisplayStatus(e, clock)) == Green
    ensures !IsEventDatePassed(e, clock) && e.status == AwaitingResponse && e.userRsvpStatus == Some(Attending)
            ==> BadgeClasses(DisplayStatus(e, clock)) == Green
  {
  }

  /** The tag "initiated by me" is shown exactly for events the current user started. */
  predicate IsInitiator(e: Event) {
    e.initiatorName == CurrentUser.name
  }

  /** The avatars come from the confirmed list once a result is out and someone has confirmed. */
  function DisplayParticipants(e: Event): (shown: seq<Participant>)
    ensures e.status == ResultsReady && e.confirmedParticipants.Some? && |e.confirmedParticipants.value| > 0
            ==> shown == e.confirmedParticipants.value
    ensures !(e.status == ResultsReady && e.confirmedParticipants.Some? && |e.confirmedParticipants.value| > 0)
            ==> shown == e.participants
  {
    if e.status == ResultsReady && e.confirmedParticipants.Some? && |e.confirmedParticipants.value| > 0
    then e.confirmedParticipants.value
    else e.participants
  }

  /** The count line names the confirmed count once a result is out or the date is past, if the list exists. */
  predicate ShowsConfirmedCount(e: Event, clock: Dates.Clock) {
    (e.status == ResultsReady || IsEventDatePassed(e, clock)) && e.confirmedParticipants.Some?
  }

  const TotalSuffix: string := " 位参与者"
  const OfWhom: string := " 位参与者，其中 "
  const ConfirmedSuffix: string := " 位已确认参与"

  /** The participant-count text under the avatars. */
  function ParticipantCountText(e: Event, clock: Dates.Clock): (text: string)
    ensures Text.Decimal(|e.participants|) <= text
  {
    var total := Text.Decimal(|e.participants|);
    if ShowsConfirmedCount(e, clock)
    then total + OfWhom + Text.Decimal(|e.confirmedParticipants.value|) + ConfirmedSuffix
    else total + TotalSuffix
  }

  /** The longest prefix of `s` made of decimal digits. */
  function LeadingDigits(s: string): (d: string)
    ensures |d| <= |s| && d == s[..|d|] && Text.AllDigits(d, 10)
  {
    if s == [] || !Text.IsDigit(s[0], 10) then [] else [s[0]] + LeadingDigits(s[1..])
  }

  lemma {:induction false} LeadingDigitsOfNumber(digits: string, rest: string)
    requires Text.AllDigits(digits, 10)
    requires rest != [] && !Text.IsDigit(rest[0], 10)
    ensures LeadingDigits(digits + rest) == digits
  {
    if digits != [] {
      assert (digits + rest)[1..] == digits[1..] + rest;
      LeadingDigitsOfNumber(digits[1..], rest);
    } else {
      assert digits + rest == rest;
    }
  }

  /**
   * Reading the number at the start of the count text gives the number of participants,
   * whether or not the confirmed count follows: the total is always `participants.length`.
   */
  lemma CountTextTotal(e: Event, clock: Dates.Clock)
    ensures Text.ValueIn(LeadingDigits(ParticipantCountText(e, clock)), 10) == |e.participants|
  {
    var total := Text.Decimal(|e.participants|);
    Text.RadixRoundTrip(|e.participants|, 10);
    if ShowsConfirmedCount(e, clock) {
      var rest := OfWhom + Text.Decimal(|e.confirmedParticipants.value|) + ConfirmedSuffix;
      assert ParticipantCountText(e, clock) == total + rest;
      LeadingDigitsOfNumber(total, rest);
    } else {
      LeadingDigitsOfNumber(total, TotalSuffix);
    }
  }

  /** The part of a count text after the total and `OfWhom`. */
  lemma ConfirmedClause(total: string, confirmed: string)
    ensures (total + OfWhom + confirmed + ConfirmedSuffix)[|total| + |OfWhom|..] == confirmed + ConfirmedSuffix
  {
    var text := total + OfWhom + confirmed + ConfirmedSuffix;
    assert text == (total + OfWhom) + (confirmed + ConfirmedSuffix);
  }

  /** The confirmed count appears exactly when `ShowsConfirmedCount` holds, and reads back as the list's length. */
  lemma CountTextConfirmed(e: Event, clock: Dates.Clock)
    ensures var text := ParticipantCountText(e, clock);
            var total := Text.Decimal(|e.participants|);
            ShowsConfirmedCount(e, clock) <==> |text| > |total| + |TotalSuffix|
    ensures ShowsConfirmedCount(e, clock) ==>
            var text := ParticipantCountText(e, clock);
            var start := |Text.Decimal(|e.participants|)| + |OfWhom|;
            start <= |text| &&
            Text.ValueIn(LeadingDigits(text[start..]), 10) == |e.confirmedParticipants.value|
  {
    if ShowsConfirmedCount(e, clock) {
      var total := Text.Decimal(|e.participants|);
      var confirmed := Text.Decimal(|e.confirmedParticipants.value|);
      ConfirmedClause(total, confirmed);
      Text.RadixRoundTrip(|e.confirmedParticipants.value|, 10);
      LeadingDigitsOfNumber(confirmed, ConfirmedSuffix);
    }
  }

  /** The avatar row: at most four avatars, then a `+n` badge for the rest. */
  datatype AvatarRow = AvatarRow(shown: seq<Participant>, overflow: Option<string>)

  function Avatars(ps: seq<Participant>): (row: AvatarRow)
    ensures |row.shown| == if |ps| < 4 then |ps| else 4
    ensures row.shown == ps[..|row.shown|]
    ensures row.overflow.Some? <==> |ps| > 4
  {
    AvatarRow(if |ps| < 4 then ps else ps[..4],
              if |ps| > 4 then Some("+" + Text.Decimal(|ps| - 4)) else None)
  }

  /** Nobody is lost: the avatars shown plus the number on the badge add up to the list. */
  lemma AvatarsAccountForEveryone(ps: seq<Participant>)
    ensures var row := Avatars(ps);
            row.overflow.Some? ==> |row.overflow.value| >= 2 && row.overflow.value[0] == '+'
                                   && Text.AllDigits(row.overflow.value[1..], 10)
                                   && |row.shown| + Text.ValueIn(row.overflow.value[1..], 10) == |ps|
  {
    if |ps| > 4 {
      var badge := "+" + Text.Decimal(|ps| - 4);
      assert badge[1..] == Text.Decimal(|ps| - 4);
      Text.RadixRoundTrip(|ps| - 4, 10);
    }
  }

  /** The image source of an avatar: the participant's avatar, or the placeholder when it is empty. */
  function AvatarSource(p: Participant): (src: string)
    ensures src != ""
    ensures p.avatar != "" ==> src == p.avatar
  {
    if p.avatar != "" then p.avatar else "/placeholder.svg"
  }

  /** Everything the card shows, put together as the component does. */
  datatype Card = Card(
    href: string,
    title: string,
    date: string,
    initiatorTag: bool,
    avatarSources: seq<string>,
    overflow: Option<string>,
    countText: string,
    badgeLabel: string,
    badgeClasses: string)

  function RenderCard(e: Event, clock: Dates.Clock): Card {
    var row := Avatars(DisplayParticipants(e));
    var badge := DisplayStatus(e, clock);
    Card("/event/" + e.id, e.name, e.date, IsInitiator(e),
         seq(|row.shown|, i requires 0 <= i < |row.shown| => AvatarSource(row.shown[i])),
         row.overflow, ParticipantCountText(e, clock), badge, BadgeClasses(badge))
  }

  /**
   * The card links to its own event, shows at most four avatars, and an event whose day has
   * passed shows the gray "ended" badge whatever its stored status.
   */
  lemma CardShape(e: Event, clock: Dates.Clock)
    ensures var card := RenderCard(e, clock);
            && |card.href| == 7 + |e.id| && card.href[7..] == e.id
            && |card.avatarSources| <= 4 && (forall k :: 0 <= k < |card.avatarSources| ==> card.avatarSources[k] != "")
            && (card.overflow.Some? <==> |DisplayParticipants(e)| > 4)
            && card.initiatorTag == (e.initiatorName == CurrentUser.name)
            && (IsEventDatePassed(e, clock) ==> card.badgeLabel == "已结束" && card.badgeClasses == Gray)
  {
    BadgeOfDisplayStatus(e, clock);
    var card := RenderCard(e, clock);
    assert card.href == "/event/" + e.id;
  }
}
