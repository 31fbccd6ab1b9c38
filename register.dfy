/**
 * The submit handler of the registration form: three checks run in order, each returning
 * early with its own message, then the call to register and the message it leaves behind.
 */
module Register {
  import opened Wrappers
  import Text
  import Auth

  const MissingFields: string := "请填写所有字段"
  const PasswordsDiffer: string := "两次输入的密码不一致"
  const PasswordTooShort: string := "密码长度至少6位"
  const RegistrationFailed: string := "注册失败"
  const RegistrationThrew: string := "注册失败，请重试"

  /** The smallest accepted password length, counted in UTF-16 code units. */
  const MinPasswordLength: nat := 6

  /** The message of the first check that fails, or `None` when all three pass. */
  function ValidationError(username: string, password: string, confirm: string): (r: Option<string>)
    ensures (username == "" || password == "" || confirm == "") ==> r == Some(MissingFields)
    ensures username != "" && password != "" && confirm != "" && password != confirm ==> r == Some(PasswordsDiffer)
    ensures username != "" && password != "" && password == confirm && Text.JsLength(password) < MinPasswordLength
            ==> r == Some(PasswordTooShort)
    ensures r.None? <==> username != "" && password != "" && password == confirm
                         && Text.JsLength(password) >= MinPasswordLength
  {
    if username == "" || password == "" || confirm == "" then Some(MissingFields)
    else if password != confirm then Some(PasswordsDiffer)
    else if Text.JsLength(password) < MinPasswordLength then Some(PasswordTooShort)
    else None
  }

  /** Whenever a check fails, its message is one of the three, and never the empty string. */
  lemma ValidationMessages(username: string, password: string, confirm: string)
    ensures var r := ValidationError(username, password, confirm);
            r.Some? ==> r.value in {MissingFields, PasswordsDiffer, PasswordTooShort} && r.value != ""
  {
  }

  /** The mismatch check runs before the length check: a short, mismatched pair reports the mismatch. */
  lemma MismatchBeforeLength(username: string, password: string, confirm: string)
    requires username != "" && password != "" && confirm != ""
    requires password != confirm && Text.JsLength(password) < MinPasswordLength
    ensures ValidationError(username, password, confirm) == Some(PasswordsDiffer)
  {
  }

  /** The error line shown and whether the button is busy. */
  datatype PageState = PageState(error: string, isLoading: bool)

  /** What submitting does before any answer comes back, and whether registering is attempted. */
  datatype Started = Started(state: PageState, callsRegister: bool)

  function Submit(state: PageState, username: string, password: string, confirm: string): (r: Started)
    ensures r.callsRegister <==> ValidationError(username, password, confirm).None?
    ensures r.callsRegister ==> r.state == PageState("", true)
    ensures !r.callsRegister ==> r.state == state.(error := ValidationError(username, password, confirm).value)
  {
    match ValidationError(username, password, confirm)
    case Some(message) => Started(state.(error := message), false)
    case None => Started(PageState("", true), true)
  }

  /** How the call to register ended: a result object, or an exception. */
  datatype RegisterReply =
    | Returned(success: bool, user: Option<Auth.User>, error: Option<string>)
    | Threw

  /** What the page does once the call has ended. */
  datatype Outcome = Outcome(state: PageState, savedSession: Option<Auth.User>)

  /** Whether `result.success && result.user` holds. */
  predicate Succeeded(reply: RegisterReply) {
    reply.Returned? && reply.success && reply.user.Some?
  }

  function Complete(state: PageState, reply: RegisterReply): (r: Outcome)
    ensures !r.state.isLoading
    ensures r.savedSession.Some? <==> Succeeded(reply)
    ensures Succeeded(reply) ==> r.savedSession == reply.user && r.state.error == state.error
    ensures reply.Threw? ==> r.state.error == RegistrationThrew
    ensures reply.Returned? && !Succeeded(reply) ==>
              r.state.error == (if reply.error.Some? && reply.error.value != "" then reply.error.value
                                else RegistrationFailed)
  {
    match reply
    case Threw => Outcome(PageState(RegistrationThrew, false), None)
    case Returned(success, user, error) =>
      if success && user.Some? then Outcome(state.(isLoading := false), user)
      else
        var message := match error case Some(m) => if m != "" then m else RegistrationFailed
                                   case None => RegistrationFailed;
        Outcome(PageState(message, false), None)
  }

  /**
   * A whole submission that reaches the call: whatever the reply, the busy flag ends false,
   * and an error is shown exactly when no session was saved.
   */
  lemma SubmissionSettles(state: PageState, username: string, password: string, confirm: string,
                          reply: RegisterReply)
    requires Submit(state, username, password, confirm).callsRegister
    ensures var o := Complete(Submit(state, username, password, confirm).state, reply);
            && !o.state.isLoading
            && (o.state.error == "" <==> o.savedSession.Some?)
  {
  }
}
