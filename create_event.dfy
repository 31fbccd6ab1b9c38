/**
 * The submit handler of the create-event form: the two guards, and the record it asks the
 * store to insert.
 */
module CreateEvent {
  import opened Wrappers
  import Data
  import Auth
  import Json
  import HomePage

  /** The form's inputs; `friends` is collected but not used. */
  datatype Form = Form(
    eventName: string,
    eventDate: string,
    eventTime: string,
    budgetRange: string,
    description: string,
    friends: string,
    rsvpDate: string,
    rsvpTime: string,
    reconfirmationDate: string,
    reconfirmationTime: string)

  /** The row handed to the insert; `None` is a null column. */
  datatype ActivityData = ActivityData(
    name: string,
    date: string,
    status: string,
    description: Option<string>,
    budgetRange: Option<string>,
    participants: seq<Data.Participant>,
    rsvpDeadline: Option<string>,
    initiatorName: string,
    reconfirmationDeadline: Option<string>,
    userId: string)

  /** Either an alert and no insert, or the record to insert. */
  datatype Submission = Alert(message: string) | Insert(record: ActivityData)

  const MissingFieldsAlert: string := "请填写活动名称、日期和时间！"
  const NotReadyAlert: string := "Supabase 环境未配置或用户未登录，无法创建活动！"

  /** `s || null` for a string. */
  function OrNull(s: string): Option<string> {
    if s == "" then None else Some(s)
  }

  /** A deadline is "date time" when both halves are given, and null otherwise. */
  function Deadline(date: string, time: string): (r: Option<string>)
    ensures r.Some? <==> date != "" && time != ""
    ensures r.Some? ==> r.value == date + " " + time
  {
    if date != "" && time != "" then Some(date + " " + time) else None
  }

  predicate RequiredFieldsGiven(form: Form) {
    form.eventName != "" && form.eventDate != "" && form.eventTime != ""
  }

  /** `handleSubmit` up to the insert. */
  function Submit(form: Form, hasSupabaseEnv: bool, currentUser: Option<Auth.User>): (r: Submission)
    ensures !RequiredFieldsGiven(form) ==> r == Alert(MissingFieldsAlert)
    ensures RequiredFieldsGiven(form) && (!hasSupabaseEnv || currentUser.None?) ==> r == Alert(NotReadyAlert)
    ensures r.Insert? <==> RequiredFieldsGiven(form) && hasSupabaseEnv && currentUser.Some?
  {
    if !RequiredFieldsGiven(form) then Alert(MissingFieldsAlert)
    else if !hasSupabaseEnv || currentUser.None? then Alert(NotReadyAlert)
    else
      var user := currentUser.value;
      Insert(ActivityData(
        name := form.eventName,
        date := form.eventDate + " " + form.eventTime,
        status := Data.EventStatus.AwaitingResponse.Label(),
        description := OrNull(form.description),
        budgetRange := OrNull(form.budgetRange),
        participants := [Data.Participant(avatar := user.avatar, name := user.username)],
        rsvpDeadline := Deadline(form.rsvpDate, form.rsvpTime),
        initiatorName := user.username,
        reconfirmationDeadline := Deadline(form.reconfirmationDate, form.reconfirmationTime),
        userId := user.id))
  }

  /** What an inserted record holds, in terms of the form and the signed-in user. */
  lemma InsertedRecord(form: Form, hasSupabaseEnv: bool, user: Auth.User)
    requires RequiredFieldsGiven(form) && hasSupabaseEnv
    ensures var r := Submit(form, hasSupabaseEnv, Some(user)).record;
            && r.name == form.eventName
            && r.date == form.eventDate + " " + form.eventTime
            && r.status == "需要你响应"
            && r.participants == [Data.Participant(user.avatar, user.username)]
            && r.initiatorName == user.username && r.userId == user.id
            && (r.description.None? <==> form.description == "")
            && (r.budgetRange.None? <==> form.budgetRange == "")
            && (r.rsvpDeadline.Some? <==> form.rsvpDate != "" && form.rsvpTime != "")
            && (r.reconfirmationDeadline.Some? <==> form.reconfirmationDate != "" && form.reconfirmationTime != "")
            && (form.description != "" ==> r.description == Some(form.description))
            && (form.budgetRange != "" ==> r.budgetRange == Some(form.budgetRange))
            && (r.rsvpDeadline.Some? ==> r.rsvpDeadline.value == form.rsvpDate + " " + form.rsvpTime)
            && (r.reconfirmationDeadline.Some? ==>
                  r.reconfirmationDeadline.value == form.reconfirmationDate + " " + form.reconfirmationTime)
  {
  }

  /** What is typed into the friends field never reaches the record or the alerts. */
  lemma FriendsIgnored(form: Form, friends: string, hasSupabaseEnv: bool, currentUser: Option<Auth.User>)
    ensures Submit(form.(friends := friends), hasSupabaseEnv, currentUser) == Submit(form, hasSupabaseEnv, currentUser)
  {
  }

  // ---------------------------------------------------------------------------------
  // Reading a created event back

  function TextOrNull(s: Option<string>): Json.Json {
    match s
    case Some(t) => Json.Str(t)
    case None => Json.Null
  }

  function ParticipantJson(p: Data.Participant): Json.Json {
    Json.Obj([("name", Json.Str(p.name)), ("avatar", Json.Str(p.avatar))])
  }

  /**
   * The row the store returns for an inserted record, taking every column the insert
   * does not set to be null.
   */
  function StoredRow(record: ActivityData, id: Json.Json): HomePage.ActivityRow {
    HomePage.ActivityRow(
      id := id,
      name := Json.Str(record.name),
      date := Json.Str(record.date),
      status := Json.Str(record.status),
      description := TextOrNull(record.description),
      budgetRange := TextOrNull(record.budgetRange),
      participants := Json.Arr(seq(|record.participants|, i requires 0 <= i < |record.participants| =>
                                     ParticipantJson(record.participants[i]))),
      recommendedLocations := Json.Null,
      finalLocation := Json.Null,
      allVetoed := Json.Null,
      rsvpDeadline := TextOrNull(record.rsvpDeadline),
      userRsvpStatus := Json.Null,
      initiatorName := Json.Str(record.initiatorName),
      confirmedParticipants := Json.Null,
      userReconfirmationStatus := Json.Null,
      reconfirmationDeadline := TextOrNull(record.reconfirmationDeadline))
  }

  /**
   * A created event, read back by the home page, shows the creator as its only participant
   * and as initiator, the form's text (an empty description and budget as ''), and no
   * confirmed list, locations or deadlines beyond those entered.
   */
  lemma CreatedEventReadsBack(form: Form, hasSupabaseEnv: bool, user: Auth.User, id: Json.Json,
                              parse: string -> Option<Json.Json>)
    requires Submit(form, hasSupabaseEnv, Some(user)).Insert?
    ensures var e := HomePage.MapActivityToEvent(StoredRow(Submit(form, hasSupabaseEnv, Some(user)).record, id), parse);
            && e.participants == Json.Arr([ParticipantJson(Data.Participant(user.avatar, user.username))])
            && e.initiatorName == Json.Str(user.username)
            && e.status == Json.Str(Data.EventStatus.AwaitingResponse.Label())
            && e.description == Json.Str(form.description)
            && e.budgetRange == Json.Str(form.budgetRange)
            && e.confirmedParticipants == Json.Undefined
            && e.recommendedLocations == Json.Undefined && e.finalLocation == Json.Undefined
            && (e.rsvpDeadline == Json.Undefined <==> form.rsvpDate == "" || form.rsvpTime == "")
  {
    var record := Submit(form, hasSupabaseEnv, Some(user)).record;
    var row := StoredRow(record, id);
    assert row.participants == Json.Arr([ParticipantJson(Data.Participant(user.avatar, user.username))]);
  }
}
