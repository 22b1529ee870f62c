# Authentication modal: email-availability and submission gating

A Dafny model of the state machine inside the authentication modal
(`src/components/auth/AuthModal.tsx`). The modal has three forms: login,
register and forgot-password. An email field validates itself as it is
typed. In register mode, leaving the field (a blur) asks the backend
whether the address is already taken, at most three times between two
resets of the form. Submitting runs a chain of checks. Each check aborts
with an error message before `login`, `register` or `resetPassword` is
called. Only when every check passes does the modal make that call.

The model has four modules.

- `JsStrings` (`js_strings.dfy`) holds the two JavaScript string
  operations the decisions depend on:
  - `includes`, computed by a left-to-right scan and proved equal to the
    positional meaning of "occurs in";
  - `length`, counted in UTF-16 code units.
- `AuthText` (`auth_text.dfy`) holds the pure part:
  - every message the modal can show, as the `Message` datatype;
  - `Text`, the exact Portuguese string stored for each message;
  - the rules that pick a message from a collaborator's answer;
  - lemmas stating the exact string each rule puts on screen, and that
    every message the modal composes itself is never empty (a collaborator's
    text shown verbatim is as empty as the collaborator made it).
- `Auth` (`auth_modal.dfy`) is the component, as the class `AuthModal`.
  - Its fields are the component's state variables.
  - Its methods are the event handlers. Each handler is one atomic step.
  - The blur handler is split in two. `BlurStart` decides whether a
    lookup is issued. `BlurResolve` applies the lookup's answer.
  - One submit method per mode takes the collaborators' answers as
    parameters.
  - The two `setTimeout` follow-ups are explicit event methods.
  - A ghost call log records every call into a collaborator: lookups,
    backend calls, `onClose` and `onSuccess`. Properties such as
    "register is called only with the normalized email" are stated as
    exact contents of this log. A ghost reset point (`resetMark`) marks the
    log position of the last reset of the form.
  - `Consistent`/`Valid` is the invariant every handler keeps. It states:
    - the attempt counter stays between 0 and 3;
    - the counter is non-zero only in register mode;
    - the counter equals the number of blur-time lookups logged since the
      last reset of the form;
    - the cached validity equals the validator's verdict on the current
      email;
    - a `Checking` status implies a lookup is in flight.
- `AuthScenarios` (`scenarios.dfy`) holds two short event sequences
  applied to a freshly rendered modal.

`validateEmail` and `normalizeEmail`, which the modal imports, are
arbitrary total functions given to the constructor. The answers of
`checkEmailExists`, `login`, `register` and `resetPassword` are parameters
of the methods that await them. An absent `error` from `validateEmail` or
`checkEmailExists` is an empty string, because JavaScript treats both as
false. The answer of `login`, `register` or `resetPassword` is
`Accepted | Rejected(message) | Threw(reason)`: `Accepted` is the absent
error, and an error object is a rejection even when its message is empty.

Nothing ties a lookup answer to the address it was issued for: lines
104-123 apply the answer to whatever email is current when it arrives.
`AuthScenarios.StaleLookupApplied` shows the effect: an address typed
after the blur ends up marked `Exists` by the verdict of the lookup issued
for the earlier one.

## Model

| member | source | states |
|---|---|---|
| JsStrings.IncludesIff | src/components/auth/AuthModal.tsx:156 | the scan used for `includes` holds exactly when the marker occurs at some position of the message |
| JsStrings.Utf16Length | src/components/auth/AuthModal.tsx:182 | `password.length` counts UTF-16 code units: between the number of characters and twice it, and equal to it when no character lies outside the Basic Multilingual Plane |
| AuthText.InvalidEmailTextShown | src/components/auth/AuthModal.tsx:145 | the error shown is never empty: it is the validator's text, or "Email inválido" when that text is empty |
| AuthText.BlurLookupFailureShown | src/components/auth/AuthModal.tsx:113-127 | the blur error is never empty; a reported error appears after the fixed "⚠️ Erro ao verificar email: " prefix, and a thrown fault gives the fixed "unexpected error" text |
| AuthText.FinalCheckRefusalShown | src/components/auth/AuthModal.tsx:195-212 | the refusal text is never empty; a reported error follows the "❌ Erro na verificação final: " prefix; an answer with no error means the address is taken and gives the fixed "already registered" text; a thrown fault gives the fixed "critical error" text |
| AuthText.LoginErrorText | src/components/auth/AuthModal.tsx:155-160 | a login error mentioning "Invalid login credentials" maps to the fixed credentials message; any other is shown verbatim |
| AuthText.LoginErrorTextShown | src/components/auth/AuthModal.tsx:156-159 | the exact string shown in each of the two cases |
| AuthText.RegisterErrorText | src/components/auth/AuthModal.tsx:218-223 | a register error mentioning "already registered" maps to the fixed message; any other is prefixed |
| AuthText.RegisterErrorTextShown | src/components/auth/AuthModal.tsx:219-222 | the exact string in each case, never empty, even when the backend's own message is empty |
| Auth.BlurLookupCountAppend | src/components/auth/AuthModal.tsx:99-105 | logging a call adds one to the lookup count exactly when the call is a blur-time lookup |
| Auth.AuthModal.constructor | src/components/auth/AuthModal.tsx:23-36 | the initial state: login mode, every field and message empty, status `Idle`, counter 0, nothing logged, and the invariant already holding |
| Auth.AuthModal.ResetForm | src/components/auth/AuthModal.tsx:40-52 | every field and message empty, `loading` false, validity false, status `Idle`, counter 0; the mode is kept; the invariant holds again |
| Auth.AuthModal.Close | src/components/auth/AuthModal.tsx:54-58 | `resetForm`, then login mode, then exactly one `onClose` call appended to the log; the reset point is just before that call |
| Auth.AuthModal.SwitchMode | src/components/auth/AuthModal.tsx:259-262 | the new mode with the form reset, the reset point at the end of the log |
| Auth.AuthModal.EmailChanged | src/components/auth/AuthModal.tsx:61-73 | the new email, error cleared, status `Idle`; validity is false for an empty value and the validator's verdict otherwise; the counter is outside its frame and so untouched |
| Auth.AuthModal.PasswordChanged | src/components/auth/AuthModal.tsx:370 | only the password changes |
| Auth.AuthModal.ConfirmPasswordChanged | src/components/auth/AuthModal.tsx:396 | only the confirmation changes |
| Auth.AuthModal.NameChanged | src/components/auth/AuthModal.tsx:317 | only the name changes |
| Auth.AuthModal.BlurStart | src/components/auth/AuthModal.tsx:91-132 | a lookup of the normalized email is issued exactly when the guard at lines 91-95 holds; then status becomes `Checking`, the error is cleared and the counter rises by exactly one; otherwise a counter at 3 or more sets only the rate-limit error; otherwise nothing changes |
| Auth.AuthModal.BlurResolve | src/components/auth/AuthModal.tsx:104-128 | an error or a fault gives status `Idle` with the failure message; `exists` gives `Exists`; otherwise `Available`; the counter is outside its frame |
| Auth.AuthModal.BlurLookupsBounded | src/components/auth/AuthModal.tsx:91-99 | in every consistent state, at most three blur-time lookups have been issued since the last reset, and none outside register mode |
| Auth.AuthModal.BeginSubmit | src/components/auth/AuthModal.tsx:135-149 | both messages cleared; an invalid email sets its error and leaves `loading` as it was; a valid one raises `loading` |
| Auth.AuthModal.SubmitLogin | src/components/auth/AuthModal.tsx:135-167 | an invalid email makes no call; otherwise exactly one sign-in with the normalized email, its answer mapped to a message, a close-and-notify follow-up scheduled on success, and `loading` false at the end on every path |
| Auth.AuthModal.LocalRefusal | src/components/auth/AuthModal.tsx:170-186 | the register path's local checks in the code's order; none fails exactly when the status is not `Exists`, the passwords match and the password has at least 6 UTF-16 code units |
| Auth.AuthModal.Abort | src/components/auth/AuthModal.tsx:170-174 | an early return of the register path: its message is set and `loading` goes down |
| Auth.AuthModal.SubmitRegister | src/components/auth/AuthModal.tsx:168-230 | an invalid email makes no call; otherwise the outcome is `RegisterOutcome`; status and counter are outside its frame, so the final check never changes them |
| Auth.AuthModal.RegisterValidated | src/components/auth/AuthModal.tsx:170-186 | a failing local check shows its message and makes no call; otherwise the outcome is `RegisterAttempted` |
| Auth.AuthModal.RegisterAfterLocalChecks | src/components/auth/AuthModal.tsx:188-230 | exactly one final lookup of the normalized email; `register` is called once, with the normalized email, exactly when that lookup answered "not registered" with no error; otherwise the refusal message is shown and nothing else is called |
| Auth.AuthModal.CallRegister | src/components/auth/AuthModal.tsx:217-230 | one `register` call logged; the answer is mapped to a message; a back-to-login follow-up is scheduled on success |
| Auth.AuthModal.SubmitForgotPassword | src/components/auth/AuthModal.tsx:231-250 | an invalid email makes no call; otherwise exactly one reset call with the normalized email; a rejection is shown verbatim; a back-to-login follow-up is scheduled on success |
| Auth.AuthModal.FireCloseTimer | src/components/auth/AuthModal.tsx:163-166 | the scheduled follow-up runs `handleClose`, then `onSuccess` when one was supplied; the reset point is just before those calls |
| Auth.AuthModal.FireBackToLoginTimer | src/components/auth/AuthModal.tsx:226-229 | the scheduled follow-up gives login mode with the form reset, the reset point at the end of the log |
| Auth.AuthModal.EnabledSubmitPassesGate | src/components/auth/AuthModal.tsx:436 | when the `disabled` expression is false, the email is non-empty and valid, and in register mode the status is `Idle` or `Available` |
| AuthScenarios.StaleLookupApplied | src/components/auth/AuthModal.tsx:113-123 | the only call logged is the lookup of the first email, and its answer, arriving after an edit, marks the new email with that verdict |
| AuthScenarios.ExistingEmailBlocksRegister | src/components/auth/AuthModal.tsx:170-174 | once the blur lookup found the address, the submit button is disabled (line 436); the handler's own check behind it shows the fixed message, and the log holds only that lookup |

## Left out

- Presentation is not modelled: the JSX, CSS classes, the password-visibility toggles, and `getTitle`/`getSubtitle`.
- The internals of `validateEmail` and `normalizeEmail` are not modelled, because `@/lib/emailValidation` is not part of this model. They are arbitrary functions, and no property of them (idempotence of normalization, say) is assumed.
- `checkEmailExists`, `login`, `register` and `resetPassword` are network calls. Their answers are parameters, and only the call is logged.
- The behaviour of `onClose` and `onSuccess` is outside the component. Their calls are logged, and whether `onSuccess` was supplied is a flag.
- `console.log` and `console.error` calls are not modelled.
- The `checkingEmail` flag is not modelled. It is written by `resetForm` and never read.
- Timer delays are not modelled. A scheduled follow-up can fire at any later event, and it is not cancelled by a close, just as in the code.
- React details are not modelled: batching of state updates, re-renders, and the stale `emailCheckAttempts` read in the log line at line 102.
- Interleaving inside a submission is not modelled. Each submit runs as one atomic step with every awaited answer passed in. So `loading` is true only within that step. A blur answer cannot arrive while a submission is awaiting.
- Faults raised while reading an error object are not modelled. A backend error's `message` is always a string, and a thrown fault is given by its string form.
- The validation text shown under the email field (line 343) is presentation and not modelled.
