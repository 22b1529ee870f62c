/** Short event sequences applied to a freshly rendered modal, each ending
    in the state the component's handlers lead to. */
module AuthScenarios {
  import opened AuthText
  import opened Auth

  /** A lookup answer is applied to whatever email is current: an address
      typed after the blur is marked with the verdict about the earlier one. */
  method StaleLookupApplied(validate: string -> EmailValidation, normalize: string -> string,
                            first: string, second: string)
    returns (shownEmail: string, status: EmailStatus, ghost log: seq<Effect>)
    requires first != "" && validate(first).isValid
    ensures shownEmail == second && status == Exists
    ensures log == [BlurLookup(normalize(first))]
  {
    var modal := new AuthModal(validate, normalize, false);
    modal.SwitchMode(Register);
    modal.EmailChanged(first);
    var issued := modal.BlurStart();
    modal.EmailChanged(second);
    modal.BlurResolve(Answered(true, ""));
    shownEmail, status, log := modal.email, modal.emailStatus, modal.effects;
  }

  /** Once the blur-time lookup has found the address, the submit button is
      disabled, so the form never sends this submission; the handler's own
      check behind it still shows the fixed message and makes no call beyond
      that lookup. */
  method ExistingEmailBlocksRegister(validate: string -> EmailValidation, normalize: string -> string,
                                     address: string, check: LookupResult, answer: AuthResult)
    returns (gateClosed: bool, shown: Message, ghost log: seq<Effect>)
    requires address != "" && validate(address).isValid
    ensures gateClosed
    ensures shown == AddressTaken
    ensures log == [BlurLookup(normalize(address))]
  {
    var modal := new AuthModal(validate, normalize, false);
    modal.SwitchMode(Register);
    modal.EmailChanged(address);
    var issued := modal.BlurStart();
    modal.BlurResolve(Answered(true, ""));
    gateClosed := modal.SubmitDisabled();
    modal.SubmitRegister(check, answer);
    shown, log := modal.error, modal.effects;
  }
}
