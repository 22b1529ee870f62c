/** The email-availability and submission-gating state machine of the
    authentication modal (src/components/auth/AuthModal.tsx), as one class
    whose methods are the component's event handlers. */
module Auth {
  import opened JsStrings
  import opened AuthText

  /** `ModalMode`: which of the three forms is shown. */
  datatype Mode = Login | Register | ForgotPassword

  /** `emailStatus`: the verdict of the blur-time availability lookup. */
  datatype EmailStatus = Idle | Checking | Exists | Available

  /** A call the modal makes into a collaborator it does not own, in the order
      made: the two kinds of `checkEmailExists` call, the three backend calls,
      and the `onClose` and `onSuccess` callbacks. Emails are as passed. */
  datatype Effect =
    | BlurLookup(email: string)
    | FinalLookup(email: string)
    | SignIn(email: string, password: string)
    | SignUp(email: string, password: string, name: string)
    | PasswordReset(email: string)
    | Closed
    | SuccessNotified

  datatype Option<T> = None | Some(value: T)

  /** A follow-up scheduled with `setTimeout` after a successful submission. */
  datatype Timer = CloseAndNotify | BackToLogin

  /** The number of blur-time lookups in a call log. */
  ghost function BlurLookupCount(log: seq<Effect>): (count: nat)
  {
    if log == [] then 0
    else (if log[0].BlurLookup? then 1 else 0) + BlurLookupCount(log[1..])
  }

  /** Appending one call to the log adds one to the count exactly when it is a blur-time lookup. */
  lemma {:induction false} BlurLookupCountAppend(log: seq<Effect>, e: Effect)
    ensures BlurLookupCount(log + [e]) == BlurLookupCount(log) + (if e.BlurLookup? then 1 else 0)
  {
    if log != [] {
      assert (log + [e])[1..] == log[1..] + [e];
      BlurLookupCountAppend(log[1..], e);
    }
  }

  class AuthModal {
    /** `validateEmail` and `normalizeEmail`, which the modal imports and does not define. */
    const validate: string -> EmailValidation
    const normalize: string -> string
    /** Whether the optional `onSuccess` callback was supplied. */
    const hasOnSuccess: bool

    var mode: Mode
    var email: string
    var password: string
    var confirmPassword: string
    var name: string
    var loading: bool
    var error: Message
    var success: Message
    /** `emailValidation.isValid`, the validity cached at the last edit. */
    var emailValid: bool
    var emailStatus: EmailStatus
    /** `emailCheckAttempts`. */
    var attempts: int

    /** Every collaborator call made so far. */
    ghost var effects: seq<Effect>
    /** The length of `effects` at the last reset of the form. */
    ghost var resetMark: nat
    /** Blur-time lookups issued and not yet resolved. */
    ghost var inFlight: nat
    /** Follow-ups scheduled and not yet fired. */
    ghost var timers: multiset<Timer>

    /** What holds between any two events, and also while a submission is in flight. */
    ghost predicate Consistent()
      reads this`attempts, this`mode, this`emailStatus, this`emailValid, this`email
      reads this`inFlight, this`resetMark, this`effects
    {
      && 0 <= attempts <= MaxEmailChecks
      && (mode != Register ==> attempts == 0 && emailStatus != Checking)
      && emailValid == (email != "" && validate(email).isValid)
      && (emailStatus == Checking ==> inFlight > 0)
      && resetMark <= |effects|
      && attempts == BlurLookupCount(effects[resetMark..])
    }

    /** What holds between any two events: in addition, no submission is in flight. */
    ghost predicate Valid()
      reads this`attempts, this`mode, this`emailStatus, this`emailValid, this`email
      reads this`inFlight, this`resetMark, this`effects, this`loading
    {
      Consistent() && !loading
    }

    /** The `disabled` expression of the submit button. */
    predicate SubmitDisabled()
      reads this
    {
      loading || emailStatus == Checking || !emailValid || (mode == Register && emailStatus == Exists)
    }

    /** The state `resetForm` leaves: every field and message empty, nothing
        loading, no verdict, the counter at zero. */
    predicate Cleared()
      reads this`email, this`password, this`confirmPassword, this`name, this`error, this`success
      reads this`loading, this`emailValid, this`emailStatus, this`attempts
    {
      && email == "" && password == "" && confirmPassword == "" && name == ""
      && !loading && error == Blank && success == Blank && !emailValid && emailStatus == Idle && attempts == 0
    }

    /** The component as first rendered, with its collaborators. */
    constructor (validate: string -> EmailValidation, normalize: string -> string, hasOnSuccess: bool)
      ensures Valid()
      ensures this.validate == validate && this.normalize == normalize && this.hasOnSuccess == hasOnSuccess
      ensures mode == Login && Cleared()
      ensures effects == [] && inFlight == 0 && timers == multiset{}
    {
      this.validate := validate;
      this.normalize := normalize;
      this.hasOnSuccess := hasOnSuccess;
      mode := Login;
      email, password, confirmPassword, name := "", "", "", "";
      loading := false;
      error, success := Blank, Blank;
      emailValid := false;
      emailStatus := Idle;
      attempts := 0;
      effects, resetMark, inFlight, timers := [], 0, 0, multiset{};
    }

    /** `resetForm`: every field, message and flag back to its initial value,
        and the attempt counter to zero. The mode is kept. */
    method ResetForm()
      modifies this`email, this`password, this`confirmPassword, this`name, this`error, this`success,
              this`loading, this`emailValid, this`emailStatus, this`attempts, this`resetMark
      ensures Valid()
      ensures Cleared()
      ensures resetMark == |effects|
    {
      ClearInputs();
      ClearVerdict();
    }

    /** The first half of `resetForm`: the four input fields emptied. */
    method ClearInputs()
      modifies this`email, this`password, this`confirmPassword, this`name
      ensures email == "" && password == "" && confirmPassword == "" && name == ""
    {
      email, password, confirmPassword, name := "", "", "", "";
    }

    /** The second half of `resetForm`: messages, flags, verdict and counter
        back to their initial values. */
    method ClearVerdict()
      modifies this`error, this`success, this`loading, this`emailValid, this`emailStatus, this`attempts, this`resetMark
      ensures error == Blank && success == Blank && !loading && !emailValid && emailStatus == Idle && attempts == 0
      ensures resetMark == |effects|
    {
      error, success := Blank, Blank;
      loading := false;
      emailValid := false;
      emailStatus := Idle;
      attempts := 0;
      resetMark := |effects|;
    }

    /** `handleClose`: reset the form, return to login and notify `onClose`. */
    method Close()
      modifies this`email, this`password, this`confirmPassword, this`name, this`error, this`success,
              this`loading, this`emailValid, this`emailStatus, this`attempts, this`resetMark, this`mode, this`effects
      ensures Valid()
      ensures mode == Login && Cleared()
      ensures effects == old(effects) + [Closed]
      ensures resetMark == |old(effects)|
    {
      ResetForm();
      mode := Login;
      BlurLookupCountAppend(effects[resetMark..], Closed);
      assert (effects + [Closed])[resetMark..] == effects[resetMark..] + [Closed];
      effects := effects + [Closed];
    }

    /** `switchMode(newMode)`: change the form and reset it. */
    method SwitchMode(newMode: Mode)
      modifies this`email, this`password, this`confirmPassword, this`name, this`error, this`success,
              this`loading, this`emailValid, this`emailStatus, this`attempts, this`resetMark, this`mode
      ensures Valid()
      ensures mode == newMode && Cleared()
      ensures resetMark == |effects|
    {
      mode := newMode;
      ResetForm();
    }

    /** `handleEmailChange(value)`: any edit drops the lookup verdict and the
        error; the cached validity follows the validator on the new value. */
    method EmailChanged(value: string)
      requires Valid()
      modifies this`email, this`error, this`emailStatus, this`emailValid
      ensures Valid()
      ensures email == value && error == Blank && emailStatus == Idle
      ensures emailValid == (value != "" && validate(value).isValid)
    {
      email := value;
      error := Blank;
      emailStatus := Idle;
      if value != "" {
        emailValid := validate(value).isValid;
      } else {
        emailValid := false;
      }
    }

    /** The `onChange` handler of the password field. */
    method PasswordChanged(value: string)
      requires Valid()
      modifies this`password
      ensures Valid() && password == value
    {
      password := value;
    }

    /** The `onChange` handler of the confirmation field. */
    method ConfirmPasswordChanged(value: string)
      requires Valid()
      modifies this`confirmPassword
      ensures Valid() && confirmPassword == value
    {
      confirmPassword := value;
    }

    /** The `onChange` handler of the name field. */
    method NameChanged(value: string)
      requires Valid()
      modifies this`name
      ensures Valid() && name == value
    {
      name := value;
    }

    /** The guard of `handleEmailBlur`: when a blur issues a lookup. */
    predicate BlurIssuesLookup()
      reads this
    {
      mode == Register && email != "" && emailValid && emailStatus == Idle && attempts < MaxEmailChecks
    }

    /** The synchronous part of `handleEmailBlur`. When the guard holds, the
        lookup for the normalized email is issued, the status becomes
        `Checking`, the error is cleared and the counter goes up by one;
        otherwise, once the counter is exhausted, only the rate-limit error
        is set; otherwise nothing changes. */
    method BlurStart() returns (issued: bool)
      requires Valid()
      modifies this`emailStatus, this`error, this`attempts, this`effects, this`inFlight
      ensures Valid()
      ensures issued == old(BlurIssuesLookup())
      ensures issued ==> emailStatus == Checking && error == Blank && attempts == old(attempts) + 1
      ensures issued ==> effects == old(effects) + [BlurLookup(normalize(email))] && inFlight == old(inFlight) + 1
      ensures !issued ==> emailStatus == old(emailStatus) && attempts == old(attempts)
      ensures !issued ==> effects == old(effects) && inFlight == old(inFlight)
      ensures !issued && old(attempts) >= MaxEmailChecks ==> error == TooManyChecks
      ensures !issued && old(attempts) < MaxEmailChecks ==> error == old(error)
    {
      issued := BlurIssuesLookup();
      if issued {
        emailStatus := Checking;
        error := Blank;
        attempts := attempts + 1;
        var normalizedEmail := normalize(email);
        BlurLookupCountAppend(effects[resetMark..], BlurLookup(normalizedEmail));
        assert (effects + [BlurLookup(normalizedEmail)])[resetMark..] == effects[resetMark..] + [BlurLookup(normalizedEmail)];
        effects := effects + [BlurLookup(normalizedEmail)];
        inFlight := inFlight + 1;
      } else if attempts >= MaxEmailChecks {
        error := TooManyChecks;
      }
    }

    /** The continuation of `handleEmailBlur` once one issued lookup answers.
        The answer is applied to whatever email is current; the counter is
        left alone. */
    method BlurResolve(result: LookupResult)
      requires Valid() && inFlight > 0
      modifies this`inFlight, this`emailStatus, this`error
      ensures Valid()
      ensures inFlight == old(inFlight) - 1
      ensures (result.LookupFault? || result.error != "") ==>
                emailStatus == Idle && error == BlurLookupFailure(result)
      ensures result.Answered? && result.error == "" && result.registered ==> emailStatus == Exists && error == old(error)
      ensures result.Answered? && result.error == "" && !result.registered ==> emailStatus == Available && error == old(error)
    {
      inFlight := inFlight - 1;
      if result.LookupFault? || result.error != "" {
        emailStatus := Idle;
        error := BlurLookupFailure(result);
      } else if result.registered {
        emailStatus := Exists;
      } else {
        emailStatus := Available;
      }
    }

    /** The common start of `handleSubmit`: both messages are cleared and the
        email is validated again; an invalid email sets the error and stops
        before `loading` is raised. */
    method BeginSubmit() returns (proceed: bool)
      requires Valid()
      modifies this`error, this`success, this`loading
      ensures Consistent()
      ensures proceed == validate(email).isValid
      ensures success == Blank
      ensures !proceed ==> error == InvalidEmailText(validate(email)) && loading == old(loading)
      ensures proceed ==> error == Blank && loading
    {
      error := Blank;
      success := Blank;
      var validation := validate(email);
      if !validation.isValid {
        error := InvalidEmailText(validation);
        return false;
      }
      loading := true;
      proceed := true;
    }

    /** Appends one call that is not a blur-time lookup to the log. */
    method Record(e: Effect)
      requires Consistent() && !e.BlurLookup?
      modifies this`effects
      ensures Consistent() && effects == old(effects) + [e]
    {
      BlurLookupCountAppend(effects[resetMark..], e);
      assert (effects + [e])[resetMark..] == effects[resetMark..] + [e];
      effects := effects + [e];
    }

    /** The end of the login path once `login` has answered (its `if (error)`
        and the outer `catch` and `finally`). */
    method ShowLoginAnswer(answer: AuthResult)
      modifies this`error, this`success, this`loading, this`timers
      ensures !loading
      ensures answer.Accepted? ==>
                error == old(error) && success == LoggedIn && timers == old(timers) + multiset{CloseAndNotify}
      ensures answer.Rejected? ==> error == LoginErrorText(answer.message) && success == old(success) && timers == old(timers)
      ensures answer.Threw? ==> error == Unexpected(answer.reason) && success == old(success) && timers == old(timers)
    {
      match answer {
      case Accepted =>
        success := LoggedIn;
        timers := timers + multiset{CloseAndNotify};
      case Rejected(message) =>
        error := LoginErrorText(message);
      case Threw(reason) =>
        error := Unexpected(reason);
      }
      loading := false;
    }

    /** `handleSubmit` in login mode: an invalid email is refused without any
        call; otherwise one sign-in call with the normalized email, its answer
        mapped to a message. `loading` is down at the end on every path. */
    method SubmitLogin(answer: AuthResult)
      requires Valid() && mode == Login
      modifies this`error, this`success, this`loading, this`effects, this`timers
      ensures Valid()
      ensures !validate(email).isValid ==>
                error == InvalidEmailText(validate(email)) && success == Blank
                && effects == old(effects) && timers == old(timers)
      ensures validate(email).isValid ==> effects == old(effects) + [SignIn(normalize(email), password)]
      ensures validate(email).isValid && answer.Accepted? ==>
                error == Blank && success == LoggedIn && timers == old(timers) + multiset{CloseAndNotify}
      ensures validate(email).isValid && answer.Rejected? ==>
                error == LoginErrorText(answer.message) && success == Blank && timers == old(timers)
      ensures validate(email).isValid && answer.Threw? ==>
                error == Unexpected(answer.reason) && success == Blank && timers == old(timers)
    {
      var proceed := BeginSubmit();
      if proceed {
        var normalizedEmail := normalize(email);
        Record(SignIn(normalizedEmail, password));
        ShowLoginAnswer(answer);
      }
    }

    /** The first check of the register path that needs no network and
        fails, in the order the code makes them (a verdict of `Exists`,
        differing passwords, a password under six UTF-16 code units), with
        the message it shows; `None` when all of them pass. */
    function LocalRefusal(): (refusal: Option<Message>)
      reads this`emailStatus, this`password, this`confirmPassword
      ensures refusal.None? <==>
                emailStatus != Exists && password == confirmPassword && Utf16Length(password) >= MinPasswordLength
      ensures emailStatus == Exists ==> refusal == Some(AddressTaken)
      ensures emailStatus != Exists && password != confirmPassword ==> refusal == Some(PasswordsDiffer)
      ensures emailStatus != Exists && password == confirmPassword && Utf16Length(password) < MinPasswordLength ==>
                refusal == Some(PasswordTooShort)
    {
      if emailStatus == Exists then Some(AddressTaken)
      else if password != confirmPassword then Some(PasswordsDiffer)
      else if Utf16Length(password) < MinPasswordLength then Some(PasswordTooShort)
      else None
    }

    /** `handleSubmit` in register mode. An invalid email aborts without any
        call; otherwise the rest is `RegisterOutcome`. */
    method SubmitRegister(check: LookupResult, answer: AuthResult)
      requires Valid() && mode == Register
      modifies this`error, this`success, this`loading, this`effects, this`timers
      ensures Valid()
      ensures !validate(email).isValid ==>
                error == InvalidEmailText(validate(email)) && success == Blank
                && effects == old(effects) && timers == old(timers)
      ensures validate(email).isValid ==> RegisterOutcome(check, answer, old(effects), old(timers))
    {
      var proceed := BeginSubmit();
      if proceed {
        RegisterValidated(check, answer);
      }
    }

    /** What the register path has done once the email passed validation,
        starting from the log `effects0` and the follow-ups `timers0`: a failing
        local check shows its message and makes no call; otherwise the rest
        is `RegisterAttempted`. */
    ghost predicate RegisterOutcome(check: LookupResult, answer: AuthResult, effects0: seq<Effect>, timers0: multiset<Timer>)
      reads this`emailStatus, this`email, this`password, this`confirmPassword, this`name
      reads this`error, this`success, this`effects, this`timers
    {
      && (LocalRefusal().Some? ==>
            error == LocalRefusal().value && success == Blank && effects == effects0 && timers == timers0)
      && (LocalRefusal().None? ==> RegisterAttempted(check, answer, effects0, timers0))
    }

    /** The register path after validation, entered with `loading` raised and
        both messages cleared. */
    method RegisterValidated(check: LookupResult, answer: AuthResult)
      requires Consistent() && loading && error == Blank && success == Blank
      modifies this`error, this`success, this`loading, this`effects, this`timers
      ensures Valid()
      ensures RegisterOutcome(check, answer, old(effects), old(timers))
    {
      var refusal := LocalRefusal();
      if refusal.Some? {
        Abort(refusal.value);
      } else {
        RegisterAfterLocalChecks(check, answer);
      }
    }

    /** What the register path has done once the local checks passed: one more
        lookup of the normalized email was made; sign-up was called, once and
        with the normalized email, exactly when that lookup cleared the
        address; the message reports the refusal or the sign-up outcome. */
    ghost predicate RegisterAttempted(check: LookupResult, answer: AuthResult, effects0: seq<Effect>, timers0: multiset<Timer>)
      reads this`email, this`password, this`name, this`error, this`success, this`effects, this`timers
    {
      var n := normalize(email);
      && (!LookupClear(check) ==>
            effects == effects0 + [FinalLookup(n)]
            && error == FinalCheckRefusal(check) && success == Blank && timers == timers0)
      && (LookupClear(check) ==>
            effects == effects0 + [FinalLookup(n)] + [SignUp(n, password, name)])
      && (LookupClear(check) && answer.Accepted? ==>
            error == Blank && success == SignedUp && timers == timers0 + multiset{BackToLogin})
      && (LookupClear(check) && answer.Rejected? ==>
            error == RegisterErrorText(answer.message) && success == Blank && timers == timers0)
      && (LookupClear(check) && answer.Threw? ==>
            error == Unexpected(answer.reason) && success == Blank && timers == timers0)
    }

    /** A submission path that stops with an error: the message is set and
        `loading` goes down (the `finally` of `handleSubmit`). */
    method Abort(m: Message)
      modifies this`error, this`loading
      ensures error == m && !loading
    {
      error := m;
      loading := false;
    }

    /** The end of the register path once `register` has answered. */
    method ShowSignUpAnswer(answer: AuthResult)
      modifies this`error, this`success, this`loading, this`timers
      ensures !loading
      ensures answer.Accepted? ==>
                error == old(error) && success == SignedUp && timers == old(timers) + multiset{BackToLogin}
      ensures answer.Rejected? ==> error == RegisterErrorText(answer.message) && success == old(success) && timers == old(timers)
      ensures answer.Threw? ==> error == Unexpected(answer.reason) && success == old(success) && timers == old(timers)
    {
      match answer {
      case Accepted =>
        success := SignedUp;
        timers := timers + multiset{BackToLogin};
      case Rejected(message) =>
        error := RegisterErrorText(message);
      case Threw(reason) =>
        error := Unexpected(reason);
      }
      loading := false;
    }

    /** The network part of the register path, entered with `loading` raised
        and both messages cleared: the final lookup, whose answer and faults
        abort before sign-up, then sign-up. */
    method RegisterAfterLocalChecks(check: LookupResult, answer: AuthResult)
      requires Consistent() && loading && error == Blank && success == Blank
      modifies this`error, this`success, this`loading, this`effects, this`timers
      ensures Valid()
      ensures RegisterAttempted(check, answer, old(effects), old(timers))
    {
      var normalizedEmail := normalize(email);
      Record(FinalLookup(normalizedEmail));
      if !LookupClear(check) {
        Abort(FinalCheckRefusal(check));
      } else {
        CallRegister(normalizedEmail, answer);
      }
    }

    /** The `register` call of the register path, made once the final lookup
        cleared the address, and its answer shown. */
    method CallRegister(normalizedEmail: string, answer: AuthResult)
      requires Consistent() && loading && error == Blank && success == Blank
      modifies this`error, this`success, this`loading, this`effects, this`timers
      ensures Valid()
      ensures effects == old(effects) + [SignUp(normalizedEmail, password, name)]
      ensures answer.Accepted? ==>
                error == Blank && success == SignedUp && timers == old(timers) + multiset{BackToLogin}
      ensures answer.Rejected? ==> error == RegisterErrorText(answer.message) && success == Blank && timers == old(timers)
      ensures answer.Threw? ==> error == Unexpected(answer.reason) && success == Blank && timers == old(timers)
    {
      Record(SignUp(normalizedEmail, password, name));
      ShowSignUpAnswer(answer);
    }

    /** The end of the forgot-password path once `resetPassword` has answered:
        a rejection is shown verbatim. */
    method ShowResetAnswer(answer: AuthResult)
      modifies this`error, this`success, this`loading, this`timers
      ensures !loading
      ensures answer.Accepted? ==>
                error == old(error) && success == ResetSent && timers == old(timers) + multiset{BackToLogin}
      ensures answer.Rejected? ==> error == Verbatim(answer.message) && success == old(success) && timers == old(timers)
      ensures answer.Threw? ==> error == Unexpected(answer.reason) && success == old(success) && timers == old(timers)
    {
      match answer {
      case Accepted =>
        success := ResetSent;
        timers := timers + multiset{BackToLogin};
      case Rejected(message) =>
        error := Verbatim(message);
      case Threw(reason) =>
        error := Unexpected(reason);
      }
      loading := false;
    }

    /** `handleSubmit` in forgot-password mode: an invalid email is refused
        without any call; otherwise one reset call with the normalized email. */
    method SubmitForgotPassword(answer: AuthResult)
      requires Valid() && mode == ForgotPassword
      modifies this`error, this`success, this`loading, this`effects, this`timers
      ensures Valid()
      ensures !validate(email).isValid ==>
                error == InvalidEmailText(validate(email)) && success == Blank
                && effects == old(effects) && timers == old(timers)
      ensures validate(email).isValid ==> effects == old(effects) + [PasswordReset(normalize(email))]
      ensures validate(email).isValid && answer.Accepted? ==>
                error == Blank && success == ResetSent && timers == old(timers) + multiset{BackToLogin}
      ensures validate(email).isValid && answer.Rejected? ==>
                error == Verbatim(answer.message) && success == Blank && timers == old(timers)
      ensures validate(email).isValid && answer.Threw? ==>
                error == Unexpected(answer.reason) && success == Blank && timers == old(timers)
    {
      var proceed := BeginSubmit();
      if proceed {
        if !validate(email).isValid {
          // The repeated validation of this path: `validate` is a function of
          // the unchanged email, which has just passed it.
          assert false;
        }
        var normalizedEmail := normalize(email);
        Record(PasswordReset(normalizedEmail));
        ShowResetAnswer(answer);
      }
    }

    /** The follow-up of a successful sign-in: `handleClose`, then `onSuccess` if given. */
    method FireCloseTimer()
      requires Valid() && CloseAndNotify in timers
      modifies this`email, this`password, this`confirmPassword, this`name, this`error, this`success,
              this`loading, this`emailValid, this`emailStatus, this`attempts, this`resetMark, this`mode, this`effects, this`timers
      ensures Valid()
      ensures mode == Login && Cleared()
      ensures effects == old(effects) + [Closed] + (if hasOnSuccess then [SuccessNotified] else [])
      ensures resetMark == |old(effects)|
      ensures timers == old(timers) - multiset{CloseAndNotify}
    {
      timers := timers - multiset{CloseAndNotify};
      Close();
      if hasOnSuccess {
        Record(SuccessNotified);
      }
    }

    /** The follow-up of a successful sign-up or reset request: back to login, form reset. */
    method FireBackToLoginTimer()
      requires Valid() && BackToLogin in timers
      modifies this`email, this`password, this`confirmPassword, this`name, this`error, this`success,
              this`loading, this`emailValid, this`emailStatus, this`attempts, this`resetMark, this`mode, this`timers
      ensures Valid()
      ensures mode == Login && Cleared()
      ensures resetMark == |effects|
      ensures timers == old(timers) - multiset{BackToLogin}
    {
      timers := timers - multiset{BackToLogin};
      SwitchMode(Login);
    }

    /** An enabled submit button implies the submit-time validation passes,
        and, in register mode, that the verdict is neither `Checking` nor `Exists`. */
    lemma EnabledSubmitPassesGate()
      requires Consistent() && !SubmitDisabled()
      ensures email != "" && validate(email).isValid
      ensures mode == Register ==> emailStatus == Idle || emailStatus == Available
    {
    }

    /** At most three blur-time lookups are issued between two resets of the form. */
    lemma BlurLookupsBounded()
      requires Consistent()
      ensures BlurLookupCount(effects[resetMark..]) <= MaxEmailChecks
      ensures mode != Register ==> BlurLookupCount(effects[resetMark..]) == 0
    {
    }
  }
}
