# Sign-up form: a Dafny model of the `App` component

The repository is a single React component, `App` in `src/App.jsx`. It keeps one
sign-up record (`signupForm`) and three more pieces of state: `showPassword`,
`profilePicturePreview` and `passwordValid`. It has three event handlers:

- `handleChange` updates one field of the record. It ignores a phone number that
  has a non-digit character. It sets the preview when a file arrives for
  `profilePicture`, and it re-runs the password strength rule when the password
  changes.
- `handlePassword` flips `showPassword`.
- `handleSubmit` issues toast notifications: a welcome message (and a newsletter
  message when `newsletterSub` is truthy), or exactly one error, either
  "Passwords Do Not Match!" or "Password's Requirements Aren't Met!".

The model has three modules:

- `PasswordRule` (`password_rule.dfy`, pure). The strength rule. Each regular
  expression of the source is written out as a predicate over characters and
  the scan it performs. `Occurs` is the unanchored `/[..]/.test`, and `OnlyOf`
  is the anchored `/^[..]*$/.test`. The length is JavaScript's `value.length`,
  which counts UTF-16 code units (`Utf16Length`).
- `SignupForm` (`signup_form.dfy`, pure). The component state as a value.
  - The record is a `map<string, Value>`, since it is a JavaScript object keyed
    by input name; reading a missing key gives `Undefined`.
  - `Value` covers the JavaScript values the record can hold: a string, a
    boolean, a `File`, or `undefined`. JavaScript `===` becomes datatype
    equality. Truthiness and template-literal string conversion are written out.
  - The handlers are transition functions: `Change`, `TogglePassword`, and
    `Decide`/`Notices`.
  - Also here: the invariant `Consistent`, which every reachable state
    satisfies, and `Run`, which applies a sequence of user actions.
- `AppComponent` (`app.dfy`, imperative). The class `App` holds the four state
  hooks as fields. `HandleChange` and `HandlePassword` update them in place and
  are proved to perform exactly the transitions above. `HandleSubmit` has no
  `modifies` clause, so it cannot change any field; it returns the
  notifications in order. Five client methods drive a fresh `App` through
  typical sessions.

`passwordValid` is named as the result of the strength rule
(src/App.jsx:23, 38-51), and the screen's warning is guarded by
`!passwordValid && signupForm.password` (src/App.jsx:140), so an empty password
is never flagged there. The code starts the flag as `true` while the password
is `""`, which the rule rejects. The model follows the code:

- `UntouchedFormSignsUp` shows that submitting the untouched form signs up with
  empty names. Only the browser's `required` attributes stop this.
- The invariant that is proved (`Consistent`) is the one the code actually
  keeps: `passwordValid` is the rule applied to the current password, or else
  the password is still `""` and the flag still has its initial `true`.

## Model

| member | source | states |
|---|---|---|
| PasswordRule.Utf16Length | src/App.jsx:45 | `value.length` counts UTF-16 code units: at least the number of characters, at most twice that, and zero only for the empty string |
| PasswordRule.Utf16LengthBmp | src/App.jsx:45 | for text without astral characters, `value.length` is the number of characters |
| PasswordRule.OccursIff | src/App.jsx:40-43 | each `/[class]/.test(value)` holds exactly when some index of the value holds a character of that class |
| PasswordRule.OnlyOfIff | src/App.jsx:30 | `/^\d*$/.test(value)` holds exactly when every character is one of 0-9 (the empty string included) |
| PasswordRule.StrongPasswordIff | src/App.jsx:39-45 | the rule holds exactly when the length is at least 8 and there is an A-Z, an a-z, a 0-9 and one of `!@#$%^&*` somewhere in the password |
| PasswordRule.StrongPasswordExtends | src/App.jsx:39-45 | no character is forbidden and there is no maximum length: any text before or after a strong password keeps it strong |
| PasswordRule.MissingClassIsWeak | src/App.jsx:40-45 | a password that lacks any one of the four classes is weak, whatever its length |
| PasswordRule.StrongPasswordExamples | src/App.jsx:39-45 | `Abc12345!` and `Abc123!!` are strong |
| PasswordRule.WeakPasswordExamples | src/App.jsx:39-45 | `abc12345`, `weak` and the empty password are weak |
| SignupForm.Change | src/App.jsx:27-58 | a telephone edit with a non-digit leaves the whole state unchanged. Otherwise the named key gets the typed text (password) or the checkbox state / first file / raw text. Every other key keeps its value. `passwordValid` is recomputed only for a password edit. The preview changes only for `profilePicture` with at least one file. `showPassword` is untouched |
| SignupForm.TogglePassword | src/App.jsx:60-62 | flips `showPassword` and changes nothing else |
| SignupForm.Decide | src/App.jsx:64-77 | mismatch exactly when password and confirmation differ (checked before weakness); weak exactly when they are equal and the flag is false; success exactly when they are equal and the flag is true |
| SignupForm.Notices | src/App.jsx:66-76 | a mismatch or a weak password gives exactly one error with its own text. A success gives the welcome naming `firstName` and `lastName`, then the newsletter notice if and only if `newsletterSub` is truthy, and only success notices |
| SignupForm.InitialState | src/App.jsx:6-23 | the initial state: seven empty text fields, both boxes false, no `profilePicture` key, `showPassword` false, `passwordValid` true, the placeholder preview, and the invariant holds |
| SignupForm.UntouchedFormSignsUp | src/App.jsx:23-70 | `passwordValid` starts true although the rule rejects `""`, so a submit before any edit signs up with a welcome naming two empty names |
| SignupForm.ChangePasswordRecomputes | src/App.jsx:38-51 | a password edit stores the typed value verbatim and sets `passwordValid` to the rule applied to that same value |
| SignupForm.ChangeTelNumberRejected | src/App.jsx:30-32 | a telephone edit with any character outside 0-9 is a no-op on the record, the flag, the preview and the toggle |
| SignupForm.ChangeTelNumberStored | src/App.jsx:30-56 | a digit-only telephone text, `""` included, is stored verbatim and leaves `passwordValid` alone |
| SignupForm.ChangeKeepsConsistent | src/App.jsx:27-58 | every field change keeps the invariant: a telephone string has digits only, the password is a string, and the flag is in sync with it unless the password field has never been edited (still `""` with the initial `true`) |
| SignupForm.TogglePasswordTwice | src/App.jsx:60-62 | toggling twice restores the state, and toggling keeps the invariant |
| SignupForm.RunKeepsConsistent | src/App.jsx:27-62 | after any sequence of field changes and toggles the invariant still holds |
| SignupForm.SignedUpPassword | src/App.jsx:23-77 | in every reachable state, a submit that signs up has equal password and confirmation, and the password is strong or still empty |
| SignupForm.TelNumberDigitsOnly | src/App.jsx:30-56 | in every reachable state, every character of a text telephone number is a digit |
| SignupForm.StrongPasswordSession | src/App.jsx:38-70 | typing any strong password into both password fields of a fresh form, then submitting, gives exactly one welcome notice |
| SignupForm.MismatchSession | src/App.jsx:38-73 | a password and a different confirmation on a fresh form give exactly the mismatch error, whatever the password |
| SignupForm.WeakPasswordSession | src/App.jsx:38-75 | any weak password typed into both fields gives exactly the requirements error |
| SignupForm.NewsletterSession | src/App.jsx:27-70 | names, a strong password typed twice and a checked newsletter box give the welcome naming the user, followed by the newsletter notice |
| AppComponent.App.constructor | src/App.jsx:6-23 | the component starts in the initial state, which satisfies the invariant |
| AppComponent.App.HandleChange | src/App.jsx:27-58 | updates the fields in place exactly as `Change` describes and preserves the invariant |
| AppComponent.App.HandlePassword | src/App.jsx:60-62 | updates the fields in place exactly as `TogglePassword` describes |
| AppComponent.App.HandleSubmit | src/App.jsx:64-77 | returns the notifications of `Notices` for the current state, in order; it has no `modifies` clause, so the record, the flag, the preview and the toggle are unchanged |
| AppComponent.SubmitMatchingStrongPasswords | src/App.jsx:64-70 | for any strong password entered twice on a fresh form, the submit gives exactly the welcome notice (empty names, no newsletter) |
| AppComponent.SubmitMismatchedPasswords | src/App.jsx:72-73 | for any password and a different confirmation, the submit gives exactly the mismatch error, however strong the password is |
| AppComponent.SubmitWeakPassword | src/App.jsx:74-75 | for any weak password entered twice, the submit gives exactly the requirements error |
| AppComponent.SubmitWithNewsletter | src/App.jsx:66-70 | with names typed, a strong password confirmed and the newsletter box checked, the submit gives the welcome naming the user and then the newsletter notice |
| AppComponent.RejectedTelephoneEdit | src/App.jsx:30-32 | once a digit-only number is stored, an edit that has a non-digit anywhere leaves that number in place |

## Left out

- Rendering and CSS classes (src/App.jsx:79-235) and `React.useId` (src/App.jsx:19): these are presentation only.
- The `isMatch` styling flag (src/App.jsx:25): it is only a display hint.
- `console.log(signupForm)` on success (src/App.jsx:71): it is output with no effect on state.
- `event.preventDefault()` (src/App.jsx:65): it is browser behaviour.
- The `react-toastify` library: toasts are returned as a sequence of `Notice` values in the order they are issued. How they are displayed is not modelled.
- `URL.createObjectURL` (src/App.jsx:35): the preview is the value `ObjectUrl(file)`. The model does not capture that every call makes a fresh URL, or that the old URL is never revoked.
- `File` is an opaque type with equality, which stands for object identity. The browser's `FileList` is a sequence of files, and a non-file input carries none.
- Browser-enforced `required` and `type="email"` checks (src/App.jsx:92-190): they are not part of the handlers. This is why an untouched form reaches the success branch in the model. `type="tel"` (src/App.jsx:184) enforces no format, so the `/^\d*$/` test in the change handler is the only filter on the telephone field.
- React state batching and asynchronous `setState`: each handler is one atomic transition.
- The regular-expression engine: each pattern used is written out as a predicate.
- Strings are Dafny `seq<char>`, and a Dafny `char` is a Unicode scalar value. So a string with a lone UTF-16 surrogate cannot be expressed. Length is still counted in UTF-16 code units, as JavaScript does.
- src/prevVersions.jsx: every line of it is commented out. Its different submit behaviour is not part of the running component.
