/**
 * The registration page (frontend/app/register/page.tsx): requesting a verification code with its 60-second
 * countdown, and submitting the form, which registers and then signs in through the session store.
 * Request outcomes are inputs; each firing of a running one-second interval is an event.
 */
module RegisterForm {
  import opened Wrappers
  import opened Text
  import opened FrontendTypes
  import Session

  const COUNTDOWN_SECONDS: nat := 60
  const SEND_CODE_FALLBACK := "验证码发送失败，请稍后再试"
  const REGISTER_FALLBACK := "注册失败，请稍后再试"

  /** The hint under the code field: the code itself when the server returned one (development mode). */
  function CodeHint(language: string, code: Option<string>): (hint: string)
    ensures code.Some? && code.value != [] ==> EndsWith(hint, code.value)
    ensures !(code.Some? && code.value != []) ==>
      hint == (if language == "zh" then "验证码已发送至邮箱。" else "Verification code sent to your inbox.")
  {
    if code.Some? && code.value != [] then
      (if language == "zh" then "测试验证码：" else "Test code: ") + code.value
    else if language == "zh" then "验证码已发送至邮箱。"
    else "Verification code sent to your inbox."
  }

  /** One firing of the interval's state updater. */
  function Tick(prev: nat): nat {
    if prev <= 1 then 0 else prev - 1
  }

  /** The countdown after `ticks` firings of one interval. */
  function Countdown(start: nat, ticks: nat): nat {
    if ticks == 0 then start else Countdown(Tick(start), ticks - 1)
  }

  /** The countdown drops one per second and stops at zero. */
  lemma {:induction false} CountdownValue(start: nat, ticks: nat)
    ensures Countdown(start, ticks) == if ticks < start then start - ticks else 0
    decreases ticks
  {
    if ticks > 0 {
      CountdownValue(Tick(start), ticks - 1);
    }
  }

  /** The send-code button is enabled when an email is typed and no countdown runs. */
  predicate SendCodeEnabled(email: string, countdown: nat) {
    email != [] && countdown == 0
  }

  /** After a successful request the button stays disabled for exactly 60 firings. */
  lemma SendCodeDisabledForAMinute(email: string, ticks: nat)
    requires email != []
    ensures SendCodeEnabled(email, Countdown(COUNTDOWN_SECONDS, ticks)) <==> ticks >= COUNTDOWN_SECONDS
  {
    CountdownValue(COUNTDOWN_SECONDS, ticks);
  }

  /** `preferred_locale` in the registration body. */
  function LocaleFor(language: string): (locale: string)
    ensures locale == "zh-CN" <==> language == "zh"
    ensures locale != "zh-CN" ==> locale == "en-US"
  {
    if language == "zh" then "zh-CN" else "en-US"
  }

  /** The JSON body of `POST /auth/register`. */
  datatype RegisterPayload = RegisterPayload(
    email: string, verificationCode: string, username: string, password: string,
    preferredLocale: string, preferredTheme: string)

  /** The identifier `login` is called with: the username, or the email when no username was typed. */
  function LoginIdentifier(username: string, email: string): (identifier: string)
    ensures identifier == username || identifier == email
    ensures identifier == [] ==> username == [] && email == []
    ensures username != [] ==> identifier == username
  {
    if username != [] then username else email
  }

  /** The alert that stops a submission before any request: a password mismatch first, then the unticked terms. */
  function SubmitGuard(password: string, confirmPassword: string, agreedToTerms: bool): (a: Alert)
    ensures a == NoAlert <==> password == confirmPassword && agreedToTerms
    ensures password != confirmPassword ==> a == AlertKey("passwordMismatch")
    ensures password == confirmPassword && !agreedToTerms ==> a == AlertKey("mustAgreeToTerms")
  {
    if password != confirmPassword then AlertKey("passwordMismatch")
    else if !agreedToTerms then AlertKey("mustAgreeToTerms")
    else NoAlert
  }

  class Form {
    var email: string
    var verificationCode: string
    var username: string
    var password: string
    var confirmPassword: string
    var countdown: nat
    /** How many one-second intervals are running. */
    var timers: nat
    var loading: bool
    var agreedToTerms: bool
    var codeHint: Option<string>
    var error: Option<string>

    /** The empty form. */
    constructor ()
      ensures email == [] && verificationCode == [] && username == [] && password == [] && confirmPassword == []
      ensures countdown == 0 && timers == 0 && !loading && !agreedToTerms && codeHint.None? && error.None?
    {
      email, verificationCode, username, password, confirmPassword := [], [], [], [], [];
      countdown, timers := 0, 0;
      loading, agreedToTerms := false, false;
      codeHint, error := None, None;
    }

    /** Typing into the fields and ticking the terms box. */
    method Edit(newEmail: string, newCode: string, newUsername: string, newPassword: string,
                newConfirm: string, agreed: bool)
      modifies this
      ensures email == newEmail && verificationCode == newCode && username == newUsername
      ensures password == newPassword && confirmPassword == newConfirm && agreedToTerms == agreed
      ensures countdown == old(countdown) && timers == old(timers) && loading == old(loading)
      ensures codeHint == old(codeHint) && error == old(error)
    {
      email, verificationCode, username := newEmail, newCode, newUsername;
      password, confirmPassword, agreedToTerms := newPassword, newConfirm, agreed;
    }

    /**
     * `handleSendCode`. Without an email nothing happens. Otherwise the error is cleared and the code requested;
     * the server's answer starts a 60-second countdown on a new interval and sets the hint, a failure sets the
     * error message.
     */
    method HandleSendCode(language: string, outcome: Result<Option<string>, string>) returns (requested: bool)
      modifies this
      ensures requested <==> old(email) != []
      ensures !requested ==> unchanged(this)
      ensures requested && outcome.Ok? ==> (countdown == COUNTDOWN_SECONDS && timers == old(timers) + 1
        && codeHint == Some(CodeHint(language, outcome.value)) && error.None?)
      ensures requested && outcome.Err? ==> (countdown == old(countdown) && timers == old(timers)
        && codeHint == old(codeHint) && error == Some(MessageOr(outcome.error, SEND_CODE_FALLBACK)))
      ensures email == old(email) && verificationCode == old(verificationCode) && username == old(username)
      ensures password == old(password) && confirmPassword == old(confirmPassword)
      ensures loading == old(loading) && agreedToTerms == old(agreedToTerms)
    {
      if email == [] {
        return false;
      }
      error := None;
      match outcome {
        case Ok(code) =>
          countdown := COUNTDOWN_SECONDS;
          timers := timers + 1;
          codeHint := Some(CodeHint(language, code));
        case Err(message) =>
          error := Some(MessageOr(message, SEND_CODE_FALLBACK));
      }
      requested := true;
    }

    /** One running interval fires: the countdown ticks, and the interval clears itself once it reaches zero. */
    method IntervalFires()
      requires timers > 0
      modifies this
      ensures countdown == Tick(old(countdown))
      ensures timers == if old(countdown) <= 1 then old(timers) - 1 else old(timers)
      ensures email == old(email) && verificationCode == old(verificationCode) && username == old(username)
      ensures password == old(password) && confirmPassword == old(confirmPassword) && loading == old(loading)
      ensures agreedToTerms == old(agreedToTerms) && codeHint == old(codeHint) && error == old(error)
    {
      if countdown <= 1 {
        countdown := 0;
        timers := timers - 1;
      } else {
        countdown := countdown - 1;
      }
    }

    /** The request part of `handleSubmit`: register, then sign in and go home; both failures set the error. */
    method Register(session: Session.SessionStore, registered: Result<(), string>,
                    loginResponse: Result<string, string>, profile: Result<User, string>)
      returns (identifier: Option<string>, navigated: bool)
      requires session.Valid()
      modifies this, session
      ensures session.Valid()
      ensures !loading
      ensures registered.Err? ==> (identifier.None? && !navigated && unchanged(session)
        && error == Some(MessageOr(registered.error, REGISTER_FALLBACK)))
      ensures registered.Ok? ==> identifier == Some(LoginIdentifier(old(username), old(email)))
      ensures registered.Ok? && loginResponse.Err? ==> (!navigated && unchanged(session)
        && error == Some(MessageOr(loginResponse.error, REGISTER_FALLBACK)))
      ensures registered.Ok? && loginResponse.Ok? ==> (navigated && error.None?
        && session.token == (if loginResponse.value != [] && profile.Err? then None else Some(loginResponse.value))
        && session.user == (if loginResponse.value != [] && profile.Ok? then Some(profile.value) else None))
      ensures email == old(email) && verificationCode == old(verificationCode) && username == old(username)
      ensures password == old(password) && confirmPassword == old(confirmPassword)
      ensures countdown == old(countdown) && timers == old(timers) && agreedToTerms == old(agreedToTerms)
      ensures codeHint == old(codeHint)
    {
      loading := true;
      error := None;
      navigated := false;
      if registered.Err? {
        error := Some(MessageOr(registered.error, REGISTER_FALLBACK));
        identifier := None;
      } else {
        identifier := Some(LoginIdentifier(username, email));
        var failure := session.Login(loginResponse, profile);
        if failure.Some? {
          error := Some(MessageOr(failure.value, REGISTER_FALLBACK));
        } else {
          navigated := true;
        }
      }
      loading := false;
    }

    /**
     * `handleSubmit`. A password mismatch or unticked terms alert and send nothing. Otherwise the registration
     * body carries the form fields, the locale for the current language and the current theme.
     */
    method HandleSubmit(language: string, theme: string, session: Session.SessionStore,
                        registered: Result<(), string>, loginResponse: Result<string, string>,
                        profile: Result<User, string>)
      returns (alert: Alert, sent: Option<RegisterPayload>, identifier: Option<string>, navigated: bool)
      requires session.Valid()
      modifies this, session
      ensures session.Valid()
      ensures sent.None? <==> SubmitGuard(old(password), old(confirmPassword), old(agreedToTerms)) != NoAlert
      ensures sent.None? ==> (unchanged(this) && unchanged(session) && identifier.None? && !navigated
        && alert == SubmitGuard(old(password), old(confirmPassword), old(agreedToTerms)))
      ensures sent.Some? ==> (alert == NoAlert && sent.value == RegisterPayload(old(email), old(verificationCode),
        old(username), old(password), LocaleFor(language), theme))
      ensures sent.Some? && registered.Err? ==> (identifier.None? && !navigated && unchanged(session)
        && error == Some(MessageOr(registered.error, REGISTER_FALLBACK)))
      ensures sent.Some? && registered.Ok? ==> identifier == Some(LoginIdentifier(old(username), old(email)))
      ensures sent.Some? && registered.Ok? && loginResponse.Err? ==> (!navigated && unchanged(session)
        && error == Some(MessageOr(loginResponse.error, REGISTER_FALLBACK)))
      ensures sent.Some? && registered.Ok? && loginResponse.Ok? ==> (navigated && error.None?
        && session.token == (if loginResponse.value != [] && profile.Err? then None else Some(loginResponse.value))
        && session.user == (if loginResponse.value != [] && profile.Ok? then Some(profile.value) else None))
      ensures sent.Some? ==> !loading
      ensures email == old(email) && verificationCode == old(verificationCode) && username == old(username)
      ensures password == old(password) && confirmPassword == old(confirmPassword)
      ensures countdown == old(countdown) && timers == old(timers) && agreedToTerms == old(agreedToTerms)
      ensures codeHint == old(codeHint)
    {
      if password != confirmPassword || !agreedToTerms {
        return SubmitGuard(password, confirmPassword, agreedToTerms), None, None, false;
      }
      alert := NoAlert;
      sent := Some(RegisterPayload(email, verificationCode, username, password, LocaleFor(language), theme));
      identifier, navigated := Register(session, registered, loginResponse, profile);
    }
  }
}
