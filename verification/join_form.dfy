/**
 The sign-up form's state and its handlers, as pure transitions.

 The form holds the five text fields, the verification-code text and three
 flags: `emailCodeSent`, `emailVerified` and `emailCodeLoading`. The two
 code handlers are split at their network call: `Begin*` runs the guards and,
 when they pass, issues the request and raises the loading flag; `Finish*`
 applies the server's response and lowers it. The join handler only runs its
 pre-checks and hands the request to the server; what happens after (alert,
 redirect) does not touch the form.
 */
module JoinForm {
  import opened Optional
  import opened Messages
  import opened FormSchema
  import JoinSchema
  import EmailRegex

  datatype Form = Form(
    username: string,
    password: string,
    confirmPassword: string,
    realName: string,
    email: string,
    emailVerified: bool,
    emailCode: string,
    emailCodeSent: bool,
    emailCodeLoading: bool)

  const Initial: Form := Form("", "", "", "", "", false, "", false, false)

  /** The requests the form sends to the server. */
  datatype Request =
    | SendCode(email: string)
    | VerifyCode(email: string, code: string)
    | Join(body: Record)

  /** How a request ended: a 2xx response, another response, or a thrown fetch. */
  datatype Response = Ok | NotOk | NetworkError

  /** The outcome of a handler's guards: an alert and no request, or the request and the updated form. */
  datatype Outcome = Rejected(alert: Message) | Requested(form: Form, request: Request)

  /* ---------- editing ---------- */

  datatype Edit =
    | EditUsername(value: string)
    | EditPassword(value: string)
    | EditConfirmPassword(value: string)
    | EditRealName(value: string)
    | EditEmail(value: string)
    | EditCode(value: string)

  /** The inputs' `onChange` handlers; editing the email also drops the sent and verified flags. */
  function ApplyEdit(f: Form, e: Edit): (r: Form)
    ensures e.EditEmail? ==> r.email == e.value && !r.emailVerified && !r.emailCodeSent
    ensures e.EditEmail? ==> r.(email := f.email, emailVerified := f.emailVerified, emailCodeSent := f.emailCodeSent) == f
    ensures !e.EditEmail? ==> r.emailVerified == f.emailVerified && r.emailCodeSent == f.emailCodeSent && r.email == f.email
    ensures e.EditUsername? ==> r.username == e.value && r.(username := f.username) == f
    ensures e.EditPassword? ==> r.password == e.value && r.(password := f.password) == f
    ensures e.EditConfirmPassword? ==> r.confirmPassword == e.value && r.(confirmPassword := f.confirmPassword) == f
    ensures e.EditRealName? ==> r.realName == e.value && r.(realName := f.realName) == f
    ensures e.EditCode? ==> r.emailCode == e.value && r.(emailCode := f.emailCode) == f
    ensures r.emailCodeLoading == f.emailCodeLoading
  {
    match e
    case EditUsername(v) => f.(username := v)
    case EditPassword(v) => f.(password := v)
    case EditConfirmPassword(v) => f.(confirmPassword := v)
    case EditRealName(v) => f.(realName := v)
    case EditEmail(v) => f.(email := v, emailVerified := false, emailCodeSent := false)
    case EditCode(v) => f.(emailCode := v)
  }

  /* ---------- what the page enables and shows ---------- */

  /** The submit button is enabled when every text field is non-empty and the email is verified. */
  predicate SubmitEnabled(f: Form) {
    f.username != "" && f.password != "" && f.confirmPassword != "" && f.realName != "" && f.email != "" && f.emailVerified
  }

  /** The send-code button is enabled when there is an email, it is not verified, and no code request is loading. */
  predicate SendCodeEnabled(f: Form) {
    f.email != "" && !f.emailVerified && !f.emailCodeLoading
  }

  /** The code-entry row (code input and verify button) is shown once a code was sent and until the email is verified. */
  predicate CodeRowShown(f: Form) {
    f.emailCodeSent && !f.emailVerified
  }

  /** The verify button is enabled when a code was typed and no code request is loading. */
  predicate VerifyEnabled(f: Form) {
    f.emailCode != "" && !f.emailCodeLoading
  }

  /** The email input is disabled once the email is verified. */
  predicate EmailEditable(f: Form) {
    !f.emailVerified
  }

  /**
   Once the email is verified the page locks it: the email input, the send-code
   button and the code-entry row are all unavailable, and submitting needs
   every text field and a verified email.
   */
  lemma VerifiedEmailLocksControls(f: Form)
    ensures f.emailVerified ==> !EmailEditable(f) && !SendCodeEnabled(f) && !CodeRowShown(f)
    ensures SubmitEnabled(f) ==>
              f.emailVerified && f.username != "" && f.password != "" && f.confirmPassword != "" && f.realName != "" && f.email != ""
    ensures CodeRowShown(f) ==> f.emailCodeSent && EmailEditable(f)
  {
  }

  /* ---------- handlers ---------- */

  /** The guards of `handleSendEmailCode`: an email is required, and it must pass the form's own pattern. */
  function BeginSendCode(f: Form): (o: Outcome)
    ensures o == Rejected(EmailRequired) <==> f.email == ""
    ensures o == Rejected(EmailInvalid) <==> f.email != "" && !EmailRegex.Accepts(f.email)
    ensures o.Requested? <==> f.email != "" && EmailRegex.Accepts(f.email)
    ensures o.Requested? ==> o.request == SendCode(f.email) && o.form == f.(emailCodeLoading := true)
  {
    if f.email == "" then Rejected(EmailRequired)
    else if !EmailRegex.Accepts(f.email) then Rejected(EmailInvalid)
    else Requested(f.(emailCodeLoading := true), SendCode(f.email))
  }

  /** The response to a send-code request: only a success marks the code as sent; the loading flag drops either way. */
  function FinishSendCode(f: Form, response: Response): (r: Form)
    ensures r.emailCodeSent <==> f.emailCodeSent || response == Ok
    ensures !r.emailCodeLoading
    ensures r.(emailCodeSent := f.emailCodeSent, emailCodeLoading := f.emailCodeLoading) == f
  {
    f.(emailCodeSent := if response == Ok then true else f.emailCodeSent, emailCodeLoading := false)
  }

  /** The guard of `handleVerifyEmailCode`: a code is required; the request carries the current email and code. */
  function BeginVerify(f: Form): (o: Outcome)
    ensures o.Rejected? <==> f.emailCode == ""
    ensures o.Rejected? ==> o.alert == CodeRequired
    ensures o.Requested? ==> o.request == VerifyCode(f.email, f.emailCode) && o.form == f.(emailCodeLoading := true)
  {
    if f.emailCode == "" then Rejected(CodeRequired)
    else Requested(f.(emailCodeLoading := true), VerifyCode(f.email, f.emailCode))
  }

  /** The response to a verify request: only a success marks the email verified; the loading flag drops either way. */
  function FinishVerify(f: Form, response: Response): (r: Form)
    ensures r.emailVerified <==> f.emailVerified || response == Ok
    ensures !r.emailCodeLoading
    ensures r.(emailVerified := f.emailVerified, emailCodeLoading := f.emailCodeLoading) == f
  {
    f.(emailVerified := if response == Ok then true else f.emailVerified, emailCodeLoading := false)
  }

  /**
   The pre-checks of `handleJoin`: the password confirmation first, then the
   schema, whose first issue becomes the alert. Only when both pass is the join
   request sent, with the four schema fields as its body.
   */
  function HandleJoin(f: Form, isEmail: string -> bool): (o: Outcome)
    ensures f.password != f.confirmPassword ==> o == Rejected(PasswordMismatch)
    ensures f.password == f.confirmPassword && JoinSchema.Validate(f.username, f.password, f.realName, f.email, isEmail).Failure? ==>
              o == Rejected(JoinSchema.Validate(f.username, f.password, f.realName, f.email, isEmail).issues[0])
    ensures o.Requested? <==>
              && f.password == f.confirmPassword
              && 3 <= |f.username| <= 50 && 8 <= |f.password| <= 30
              && 1 <= |f.realName| <= 50 && 1 <= |f.email| <= 100 && isEmail(f.email)
    ensures o.Requested? ==> o.form == f && o.request == Join(JoinSchema.Request(f.username, f.password, f.realName, f.email))
  {
    if f.password != f.confirmPassword then Rejected(PasswordMismatch)
    else
      match JoinSchema.Validate(f.username, f.password, f.realName, f.email, isEmail)
      case Failure(issues) => Rejected(issues[0])
      case Success(_) => Requested(f, Join(JoinSchema.Request(f.username, f.password, f.realName, f.email)))
  }

  /** The join handler does not look at the verification flags: only the submit button's state gates on them. */
  lemma HandleJoinIgnoresVerification(f: Form, isEmail: string -> bool, verified: bool, sent: bool)
    ensures var g := f.(emailVerified := verified, emailCodeSent := sent);
            var o := HandleJoin(g, isEmail);
            HandleJoin(f, isEmail).Rejected? == o.Rejected?
            && (o.Rejected? ==> o == HandleJoin(f, isEmail))
            && (o.Requested? ==> o.request == HandleJoin(f, isEmail).request)
  {
  }

  /** Editing the email makes the form unsubmittable and hides the code-entry row until the email is verified again. */
  lemma EditEmailDisablesSubmit(f: Form, v: string)
    ensures !SubmitEnabled(ApplyEdit(f, EditEmail(v)))
    ensures !CodeRowShown(ApplyEdit(f, EditEmail(v)))
  {
  }

  /* ---------- the page as a state machine ---------- */

  /** A request the page awaits a response to: the join request's response never touches the page. */
  type CodeRequest = r: Request | !r.Join? witness SendCode("")

  /** The form plus the one code request awaiting its response, if any. */
  datatype Session = Session(form: Form, pending: Option<CodeRequest>)

  const Start: Session := Session(Initial, None)

  /** The page opens with every text field empty, every flag down and no request pending. */
  lemma StartState()
    ensures Start.pending.None? && Consistent(Start)
    ensures Start.form.username == Start.form.password == Start.form.confirmPassword == ""
    ensures Start.form.realName == Start.form.email == Start.form.emailCode == ""
    ensures !Start.form.emailVerified && !Start.form.emailCodeSent && !Start.form.emailCodeLoading
    ensures !SubmitEnabled(Start.form) && !SendCodeEnabled(Start.form) && !CodeRowShown(Start.form)
  {
  }

  /** What the user can do on the page, and the server's reply to the pending request. */
  datatype Event =
    | UserEdit(edit: Edit)
    | ClickSendCode
    | ClickVerify
    | ClickSubmit
    | Respond(response: Response)

  /** Whether the page lets the event happen: disabled controls and hidden inputs cannot be used. */
  predicate Enabled(s: Session, ev: Event) {
    match ev
    case UserEdit(e) =>
      (e.EditEmail? ==> EmailEditable(s.form)) && (e.EditCode? ==> CodeRowShown(s.form))
    case ClickSendCode => SendCodeEnabled(s.form)
    case ClickVerify => CodeRowShown(s.form) && VerifyEnabled(s.form)
    case ClickSubmit => SubmitEnabled(s.form)
    case Respond(_) => s.pending.Some?
  }

  /** The submit button: enabled exactly when all five text fields are filled in and the email is verified. */
  lemma SubmitEnabledIff(s: Session)
    ensures Enabled(s, ClickSubmit) == SubmitEnabled(s.form)
    ensures SubmitEnabled(s.form) <==>
              && s.form.username != "" && s.form.password != "" && s.form.confirmPassword != ""
              && s.form.realName != "" && s.form.email != "" && s.form.emailVerified
  {
  }

  /** The send-code button: enabled exactly when an unverified email is typed and no code request is loading. */
  lemma SendCodeEnabledIff(s: Session)
    ensures Enabled(s, ClickSendCode) == SendCodeEnabled(s.form)
    ensures SendCodeEnabled(s.form) <==> s.form.email != "" && !s.form.emailVerified && !s.form.emailCodeLoading
  {
  }

  /** The code row: shown exactly when a code was sent and the email is not yet verified; only then can the code be typed. */
  lemma CodeRowShownIff(s: Session, v: string)
    ensures CodeRowShown(s.form) <==> s.form.emailCodeSent && !s.form.emailVerified
    ensures Enabled(s, UserEdit(EditCode(v))) == CodeRowShown(s.form)
  {
  }

  /** The verify button: usable exactly when the code row is shown, a code is typed and no code request is loading. */
  lemma VerifyEnabledIff(s: Session)
    ensures VerifyEnabled(s.form) <==> s.form.emailCode != "" && !s.form.emailCodeLoading
    ensures Enabled(s, ClickVerify) <==>
              s.form.emailCodeSent && !s.form.emailVerified && s.form.emailCode != "" && !s.form.emailCodeLoading
  {
  }

  /** The email input: editable exactly while the email is unverified; the other text inputs are always editable. */
  lemma EmailEditableIff(s: Session, v: string)
    ensures EmailEditable(s.form) <==> !s.form.emailVerified
    ensures Enabled(s, UserEdit(EditEmail(v))) == EmailEditable(s.form)
    ensures Enabled(s, UserEdit(EditUsername(v))) && Enabled(s, UserEdit(EditPassword(v)))
    ensures Enabled(s, UserEdit(EditConfirmPassword(v))) && Enabled(s, UserEdit(EditRealName(v)))
  {
  }

  /**
   One event. Submitting does not change the page: the join request's result
   is an alert or a redirect, and it is never pending. Edits leave the pending request alone; the other events change
   at most the three flags of the form; a click issues the request its handler
   builds; a response is handed to the handler of the pending request, which it
   ends, and lowers the loading flag.
   */
  function Step(s: Session, ev: Event): (r: Session)
    ensures ev.UserEdit? ==> r.pending == s.pending && r.form == ApplyEdit(s.form, ev.edit)
    ensures !ev.UserEdit? ==>
              r.form.(emailVerified := s.form.emailVerified, emailCodeSent := s.form.emailCodeSent,
                      emailCodeLoading := s.form.emailCodeLoading) == s.form
    ensures ev.ClickSubmit? ==> r == s
    ensures ev.Respond? && s.pending.Some? ==> r.pending.None? && !r.form.emailCodeLoading
    ensures ev.ClickSendCode? && BeginSendCode(s.form).Rejected? ==> r == s
    ensures ev.ClickSendCode? && BeginSendCode(s.form).Requested? ==>
              r == Session(s.form.(emailCodeLoading := true), Some(SendCode(s.form.email)))
    ensures ev.ClickVerify? && BeginVerify(s.form).Rejected? ==> r == s
    ensures ev.ClickVerify? && BeginVerify(s.form).Requested? ==>
              r == Session(s.form.(emailCodeLoading := true), Some(VerifyCode(s.form.email, s.form.emailCode)))
    ensures ev.Respond? && s.pending.Some? && s.pending.value.SendCode? ==> r.form == FinishSendCode(s.form, ev.response)
    ensures ev.Respond? && s.pending.Some? && s.pending.value.VerifyCode? ==> r.form == FinishVerify(s.form, ev.response)
    ensures ev.Respond? && s.pending.None? ==> r == s
  {
    match ev
    case UserEdit(e) => s.(form := ApplyEdit(s.form, e))
    case ClickSendCode =>
      (match BeginSendCode(s.form)
       case Rejected(_) => s
       case Requested(f, req) => Session(f, Some(req)))
    case ClickVerify =>
      (match BeginVerify(s.form)
       case Rejected(_) => s
       case Requested(f, req) => Session(f, Some(req)))
    case ClickSubmit => s
    case Respond(resp) =>
      (match s.pending
       case None => s
       case Some(req) =>
         if req.SendCode? then Session(FinishSendCode(s.form, resp), None)
         else Session(FinishVerify(s.form, resp), None))
  }

  /** The loading flag is up exactly while a code request awaits its response. */
  predicate Consistent(s: Session) {
    s.pending.Some? <==> s.form.emailCodeLoading
  }

  lemma StepKeepsConsistent(s: Session, ev: Event)
    requires Consistent(s) && Enabled(s, ev)
    ensures Consistent(Step(s, ev))
  {
  }

  /** Applies the events in order, as long as each is enabled; stops at the first one that is not. */
  function Run(s: Session, events: seq<Event>): Session
    decreases |events|
  {
    if events == [] || !Enabled(s, events[0]) then s
    else Run(Step(s, events[0]), events[1..])
  }

  /** From the initial page, the loading flag and the pending request always agree. */
  lemma {:induction false} RunKeepsConsistent(s: Session, events: seq<Event>)
    requires Consistent(s)
    ensures Consistent(Run(s, events))
    decreases |events|
  {
    if events != [] && Enabled(s, events[0]) {
      StepKeepsConsistent(s, events[0]);
      RunKeepsConsistent(Step(s, events[0]), events[1..]);
    }
  }

  /** Neither code button can start a request while another is awaiting its response. */
  lemma AtMostOneCodeRequest(events: seq<Event>)
    ensures var t := Run(Start, events);
            (Enabled(t, ClickSendCode) || Enabled(t, ClickVerify)) ==> t.pending.None?
  {
    RunKeepsConsistent(Start, events);
  }

  /** The email becomes verified only through a successful response to a verify request. */
  lemma VerifiedOnlyBySuccessfulVerify(s: Session, ev: Event)
    requires !s.form.emailVerified && Step(s, ev).form.emailVerified
    ensures ev == Respond(Ok) && s.pending.Some? && s.pending.value.VerifyCode?
  {
  }

  /** A code counts as sent only after a successful response to a send-code request. */
  lemma CodeSentOnlyBySuccessfulSend(s: Session, ev: Event)
    requires !s.form.emailCodeSent && Step(s, ev).form.emailCodeSent
    ensures ev == Respond(Ok) && s.pending.Some? && s.pending.value.SendCode?
  {
  }

  /**
   The email input stays editable while a verify request is in flight, and the
   response does not check which email it was for: after editing the email to
   another address, a successful response for the old one marks the new one
   verified.
   */
  lemma VerifyResponseOutlivesEmailEdit(s: Session, v: string)
    requires s.pending.Some? && s.pending.value.VerifyCode? && !s.form.emailVerified
    requires v != s.pending.value.email
    ensures Enabled(s, UserEdit(EditEmail(v)))
    ensures var t := Step(Step(s, UserEdit(EditEmail(v))), Respond(Ok));
            t.form.emailVerified && t.form.email == v && t.form.email != s.pending.value.email
  {
  }

  /**
   The same holds for a send-code request: after editing the email, a
   successful response for the old address marks a code as sent and shows the
   code row for the new address, to which no code was sent.
   */
  lemma SendResponseOutlivesEmailEdit(s: Session, v: string)
    requires s.pending.Some? && s.pending.value.SendCode? && !s.form.emailVerified
    requires v != s.pending.value.email
    ensures Enabled(s, UserEdit(EditEmail(v)))
    ensures var t := Step(Step(s, UserEdit(EditEmail(v))), Respond(Ok));
            CodeRowShown(t.form) && t.form.email == v && t.form.email != s.pending.value.email
  {
  }

  /**
   A run that ends with a verified email, from a page whose email was not
   verified, contains a successful response that arrived while a verify
   request was pending.
   */
  lemma {:induction false} VerifiedNeedsVerifyResponse(s: Session, events: seq<Event>)
    requires !s.form.emailVerified && Run(s, events).form.emailVerified
    ensures exists i | 0 <= i < |events| ::
              && events[i] == Respond(Ok)
              && Run(s, events[..i]).pending.Some? && Run(s, events[..i]).pending.value.VerifyCode?
    decreases |events|
  {
    assert events != [] && Enabled(s, events[0]);
    var t := Step(s, events[0]);
    assert Run(s, events[..0]) == s;
    if t.form.emailVerified {
      assert events[0] == Respond(Ok) && s.pending.Some? && s.pending.value.VerifyCode?;
    } else {
      VerifiedNeedsVerifyResponse(t, events[1..]);
      var i :| 0 <= i < |events[1..]| && events[1..][i] == Respond(Ok)
               && Run(t, events[1..][..i]).pending.Some? && Run(t, events[1..][..i]).pending.value.VerifyCode?;
      assert events[..i + 1][0] == events[0] && events[..i + 1][1..] == events[1..][..i];
      assert Run(s, events[..i + 1]) == Run(t, events[1..][..i]);
      assert events[i + 1] == Respond(Ok);
    }
  }

  /** From the opening page, submitting becomes possible only after a verify request got a successful response. */
  lemma SubmitNeedsSuccessfulVerify(events: seq<Event>)
    requires SubmitEnabled(Run(Start, events).form)
    ensures exists i | 0 <= i < |events| ::
              && events[i] == Respond(Ok)
              && Run(Start, events[..i]).pending.Some? && Run(Start, events[..i]).pending.value.VerifyCode?
  {
    VerifiedNeedsVerifyResponse(Start, events);
  }
}
