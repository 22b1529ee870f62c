/** The messages the authentication modal shows, and the pure rules that choose
    one from a collaborator's answer (src/components/auth/AuthModal.tsx). */
module AuthText {
  import opened JsStrings

  /** The outcome of `validateEmail`: `error` is the empty string when the
      validator gave none (JavaScript treats both as falsy). */
  datatype EmailValidation = EmailValidation(isValid: bool, error: string)

  /** What `checkEmailExists(normalizedEmail)` produced: an answer whose
      `error` is the empty string when absent, or a thrown fault. */
  datatype LookupResult = Answered(registered: bool, error: string) | LookupFault

  /** What `login`, `register` or `resetPassword` produced: no error, an error
      object carrying a message, or a thrown fault (given as its string form). */
  datatype AuthResult = Accepted | Rejected(message: string) | Threw(reason: string)

  const MaxEmailChecks: int := 3
  const MinPasswordLength: int := 6

  const InvalidCredentialsMarker := "Invalid login credentials"
  const AlreadyRegisteredMarker := "already registered"

  /** A value of the `error` or `success` state: which message is on screen.
      `Text` gives the string the component stores for it. */
  datatype Message =
    | Blank                               // nothing shown
    | Verbatim(text: string)              // a collaborator's own text, shown as it is
    | InvalidEmail                        // submit: the validator gave no text
    | TooManyChecks                       // blur: the attempt counter is exhausted
    | CheckFailed(detail: string)         // blur: the lookup reported an error
    | CheckCrashed                        // blur: the lookup threw
    | BadCredentials                      // login: credentials refused
    | LoggedIn                            // login: success
    | AddressTaken                        // register: the blur verdict was `Exists`
    | PasswordsDiffer                     // register: confirmation differs
    | PasswordTooShort                    // register: fewer than six code units
    | FinalCheckFailed(detail: string)    // register: the final lookup reported an error
    | FinalCheckTaken                     // register: the final lookup found the address
    | FinalCheckCrashed                   // register: the final lookup threw
    | RegisteredElsewhere                 // register: the backend says already registered
    | SignUpFailed(detail: string)        // register: any other backend refusal
    | SignedUp                            // register: success
    | ResetSent                           // forgot-password: success
    | Unexpected(reason: string)          // any path: the backend call threw

  /** The string the component stores for a message. */
  function Text(m: Message): (shown: string)
  {
    match m
    case Blank => ""
    case Verbatim(text) => text
    case InvalidEmail => EmailText(m)
    case TooManyChecks => EmailText(m)
    case CheckFailed(_) => EmailText(m)
    case CheckCrashed => EmailText(m)
    case BadCredentials => LoginText(m)
    case LoggedIn => LoginText(m)
    case AddressTaken => RegisterText(m)
    case PasswordsDiffer => RegisterText(m)
    case PasswordTooShort => RegisterText(m)
    case FinalCheckFailed(_) => FinalCheckText(m)
    case FinalCheckTaken => FinalCheckText(m)
    case FinalCheckCrashed => FinalCheckText(m)
    case RegisteredElsewhere => SignUpText(m)
    case SignUpFailed(_) => SignUpText(m)
    case SignedUp => SignUpText(m)
    case ResetSent => OutcomeText(m)
    case Unexpected(_) => OutcomeText(m)
  }

  /** The texts about the email address itself. */
  function EmailText(m: Message): (shown: string)
    requires m.InvalidEmail? || m.TooManyChecks? || m.CheckFailed? || m.CheckCrashed?
    ensures |shown| > 0
  {
    if m.InvalidEmail? then "Email inválido"
    else if m.TooManyChecks? then "⚠️ Muitas tentativas de verificação. Recarregue a página."
    else if m.CheckFailed? then "⚠️ Erro ao verificar email: " + m.detail
    else "❌ Erro inesperado ao verificar email. Tente novamente."
  }

  /** The texts of the login path. */
  function LoginText(m: Message): (shown: string)
    requires m.BadCredentials? || m.LoggedIn?
    ensures |shown| > 0
  {
    if m.BadCredentials? then "Email ou senha incorretos. Verifique suas credenciais."
    else "Login realizado com sucesso!"
  }

  /** The texts of the register path's local checks. */
  function RegisterText(m: Message): (shown: string)
    requires m.AddressTaken? || m.PasswordsDiffer? || m.PasswordTooShort?
    ensures |shown| > 0
  {
    if m.AddressTaken? then "❌ Este email já está cadastrado. Use \"Esqueci minha senha\" ou tente fazer login."
    else if m.PasswordsDiffer? then "As senhas não coincidem"
    else "A senha deve ter pelo menos 6 caracteres"
  }

  /** The texts of the register path's final lookup. */
  function FinalCheckText(m: Message): (shown: string)
    requires m.FinalCheckFailed? || m.FinalCheckTaken? || m.FinalCheckCrashed?
    ensures |shown| > 0
  {
    if m.FinalCheckFailed? then "❌ Erro na verificação final: " + m.detail
    else if m.FinalCheckTaken? then "❌ Este email já está cadastrado. Use \"Esqueci minha senha\" ou faça login."
    else "❌ Erro crítico na verificação. Recarregue a página e tente novamente."
  }

  /** The texts of the `register` call's outcome. */
  function SignUpText(m: Message): (shown: string)
    requires m.RegisteredElsewhere? || m.SignUpFailed? || m.SignedUp?
    ensures |shown| > 0
  {
    if m.RegisteredElsewhere? then "❌ Este email já está cadastrado no sistema. Faça login."
    else if m.SignUpFailed? then "❌ Erro no cadastro: " + m.detail
    else "✅ Cadastro realizado com SUCESSO! Verifique seu email para confirmar."
  }

  /** The reset confirmation and the text of any thrown fault. */
  function OutcomeText(m: Message): (shown: string)
    requires m.ResetSent? || m.Unexpected?
    ensures |shown| > 0
  {
    if m.ResetSent? then "✅ Email de recuperação enviado! Verifique sua caixa de entrada."
    else "❌ Ocorreu um erro inesperado: " + m.reason
  }

  /** The error shown when a submission's email fails validation: the
      validator's own text when it gave one, a fixed fallback otherwise. */
  function InvalidEmailText(v: EmailValidation): Message
  {
    if v.error != "" then Verbatim(v.error) else InvalidEmail
  }

  /** The error shown when the blur-time lookup answers with an error or throws,
      carrying the reported text when there is one. */
  function BlurLookupFailure(r: LookupResult): Message
    requires r.LookupFault? || r.error != ""
  {
    if r.LookupFault? then CheckCrashed else CheckFailed(r.error)
  }

  /** A lookup result that lets registration go ahead: an answer with no
      error saying the address is not registered. */
  predicate LookupClear(r: LookupResult)
  {
    r.Answered? && r.error == "" && !r.registered
  }

  /** The error shown when the submit-time lookup does not clear the address,
      carrying the reported text when there is one. */
  function FinalCheckRefusal(r: LookupResult): Message
    requires !LookupClear(r)
  {
    match r
    case LookupFault => FinalCheckCrashed
    case Answered(_, e) => if e != "" then FinalCheckFailed(e) else FinalCheckTaken
  }

  /** A rejected sign-in: a message that mentions the credentials marker becomes
      the fixed credentials text, any other message is shown verbatim. */
  function LoginErrorText(message: string): (shown: Message)
    ensures Mentions(message, InvalidCredentialsMarker) ==> shown == BadCredentials
    ensures !Mentions(message, InvalidCredentialsMarker) ==> shown == Verbatim(message)
  {
    IncludesIff(message, InvalidCredentialsMarker);
    if Includes(message, InvalidCredentialsMarker) then BadCredentials else Verbatim(message)
  }

  /** A rejected registration: a message that mentions the already-registered
      marker becomes the fixed text, any other message is shown after a prefix. */
  function RegisterErrorText(message: string): (shown: Message)
    ensures Mentions(message, AlreadyRegisteredMarker) ==> shown == RegisteredElsewhere
    ensures !Mentions(message, AlreadyRegisteredMarker) ==> shown == SignUpFailed(message)
  {
    IncludesIff(message, AlreadyRegisteredMarker);
    if Includes(message, AlreadyRegisteredMarker) then RegisteredElsewhere else SignUpFailed(message)
  }

  /** The strings these choices put on screen. Every error the modal composes
      is visible, even when the collaborator's own text is empty. */
  lemma InvalidEmailTextShown(v: EmailValidation)
    ensures |Text(InvalidEmailText(v))| > 0
    ensures v.error != "" ==> Text(InvalidEmailText(v)) == v.error
    ensures v.error == "" ==> Text(InvalidEmailText(v)) == "Email inválido"
  {
  }

  lemma BlurLookupFailureShown(r: LookupResult)
    requires r.LookupFault? || r.error != ""
    ensures |Text(BlurLookupFailure(r))| > 0
    ensures r.Answered? ==> Text(BlurLookupFailure(r)) == "⚠️ Erro ao verificar email: " + r.error
    ensures r.LookupFault? ==>
              Text(BlurLookupFailure(r)) == "❌ Erro inesperado ao verificar email. Tente novamente."
  {
  }

  lemma FinalCheckRefusalShown(r: LookupResult)
    requires !LookupClear(r)
    ensures |Text(FinalCheckRefusal(r))| > 0
    ensures r.Answered? && r.error != "" ==> Text(FinalCheckRefusal(r)) == "❌ Erro na verificação final: " + r.error
    ensures r.Answered? && r.error == "" ==>
              r.registered &&
              Text(FinalCheckRefusal(r)) == "❌ Este email já está cadastrado. Use \"Esqueci minha senha\" ou faça login."
    ensures r.LookupFault? ==>
              Text(FinalCheckRefusal(r)) == "❌ Erro crítico na verificação. Recarregue a página e tente novamente."
  {
    match r
    case LookupFault =>
    case Answered(_, e) =>
  }

  lemma LoginErrorTextShown(message: string)
    ensures Mentions(message, InvalidCredentialsMarker) ==>
              Text(LoginErrorText(message)) == "Email ou senha incorretos. Verifique suas credenciais."
    ensures !Mentions(message, InvalidCredentialsMarker) ==> Text(LoginErrorText(message)) == message
  {
  }

  lemma RegisterErrorTextShown(message: string)
    ensures |Text(RegisterErrorText(message))| > 0
    ensures Mentions(message, AlreadyRegisteredMarker) ==>
              Text(RegisterErrorText(message)) == "❌ Este email já está cadastrado no sistema. Faça login."
    ensures !Mentions(message, AlreadyRegisteredMarker) ==> Text(RegisterErrorText(message)) == "❌ Erro no cadastro: " + message
  {
  }
}
