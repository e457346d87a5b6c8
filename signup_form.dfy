/**
 * The state of the sign-up component and its transitions, as values: the
 * `signupForm` record (a JavaScript object keyed by input name), the
 * `showPassword` toggle, the profile-picture preview and the `passwordValid`
 * flag; what a field change, the show-password toggle and a submit do to it.
 * The class in module AppComponent is proved against these functions.
 */
module SignupForm {
  import opened PasswordRule

  datatype Option<T> = None | Some(value: T)

  /** A browser `File` object; only its identity matters here. */
  type File(==)

  /** The JavaScript values the record's properties can hold. */
  datatype Value = Str(s: string) | Bool(b: bool) | FileVal(f: File) | Undefined

  /** Reading a property of the record: a missing property reads as `undefined`. */
  function Lookup(form: map<string, Value>, name: string): Value {
    if name in form then form[name] else Undefined
  }

  /** JavaScript truthiness, as used by `if (signupForm.newsletterSub)`. */
  predicate Truthy(v: Value) {
    match v
    case Str(s) => s != ""
    case Bool(b) => b
    case FileVal(_) => true
    case Undefined => false
  }

  /** JavaScript string conversion, as used inside a template literal. */
  function ToJsString(v: Value): string {
    match v
    case Str(s) => s
    case Bool(b) => if b then "true" else "false"
    case FileVal(_) => "[object File]"
    case Undefined => "undefined"
  }

  /**
   * The parts of `event.target` the change handler reads: `name`, `value`,
   * `type`, `checked` and `files` (`None` for inputs that are not file inputs).
   */
  datatype ChangeEvent = ChangeEvent(
    name: string,
    value: string,
    inputType: string,
    checked: bool,
    files: Option<seq<File>>)

  /** What the `<img>` preview shows: a static image path, or an object URL made from a file. */
  datatype Preview = ImagePath(path: string) | ObjectUrl(file: File)

  datatype State = State(
    signupForm: map<string, Value>,
    showPassword: bool,
    profilePicturePreview: Preview,
    passwordValid: bool)

  const DefaultPreview: Preview := ImagePath("./images/default-pic1.png")

  /** `initialSignupForm`: seven empty text fields and two unchecked boxes. */
  const InitialSignupForm: map<string, Value> := map[
    "firstName" := Str(""),
    "lastName" := Str(""),
    "email" := Str(""),
    "password" := Str(""),
    "passwordConfirmation" := Str(""),
    "dateOfBirth" := Str(""),
    "telNumber" := Str(""),
    "termsAndPolicies" := Bool(false),
    "newsletterSub" := Bool(false)]

  /** The state the component starts in; note `passwordValid` starts out true. */
  function Initial(): State {
    State(InitialSignupForm, false, DefaultPreview, true)
  }

  /** An edit of a non-digit telephone number is ignored (`/^\d*$/` fails). */
  predicate Rejected(e: ChangeEvent) {
    e.name == "telNumber" && !OnlyOf(Digit, e.value)
  }

  /** `files && files[0]`: the event carries at least one file. */
  predicate HasFile(e: ChangeEvent) {
    e.files.Some? && |e.files.value| > 0
  }

  /**
   * `type === 'checkbox' ? checked : files ? files[0] : value`; reading
   * `files[0]` of an empty file list gives `undefined`.
   */
  function StoredValue(e: ChangeEvent): Value {
    if e.inputType == "checkbox" then Bool(e.checked)
    else if e.files.Some? then (if |e.files.value| > 0 then FileVal(e.files.value[0]) else Undefined)
    else Str(e.value)
  }

  /** The change event a text-like input sends. */
  function TextEdit(name: string, value: string): ChangeEvent {
    ChangeEvent(name, value, "text", false, None)
  }

  /** `handleChange(event)` as one atomic transition. */
  function Change(st: State, e: ChangeEvent): (r: State)
    ensures Rejected(e) ==> r == st
    ensures !Rejected(e) ==>
      Lookup(r.signupForm, e.name) == if e.name == "password" then Str(e.value) else StoredValue(e)
    ensures forall k :: k != e.name ==> Lookup(r.signupForm, k) == Lookup(st.signupForm, k)
    ensures r.passwordValid == if e.name == "password" then IsStrongPassword(e.value) else st.passwordValid
    ensures r.profilePicturePreview ==
      if e.name == "profilePicture" && HasFile(e) then ObjectUrl(e.files.value[0]) else st.profilePicturePreview
    ensures r.showPassword == st.showPassword
  {
    if Rejected(e) then st
    else
      var preview := if e.name == "profilePicture" && HasFile(e)
        then ObjectUrl(e.files.value[0]) else st.profilePicturePreview;
      if e.name == "password" then
        st.(signupForm := st.signupForm[e.name := Str(e.value)],
            profilePicturePreview := preview,
            passwordValid := IsStrongPassword(e.value))
      else
        st.(signupForm := st.signupForm[e.name := StoredValue(e)],
            profilePicturePreview := preview)
  }

  /** `handlePassword()`: flip the show-password toggle. */
  function TogglePassword(st: State): (r: State)
    ensures r.showPassword != st.showPassword
    ensures r.signupForm == st.signupForm
    ensures r.profilePicturePreview == st.profilePicturePreview
    ensures r.passwordValid == st.passwordValid
  {
    st.(showPassword := !st.showPassword)
  }

  /** The three ways a submit can end. */
  datatype Outcome = SignedUp | PasswordMismatch | PasswordWeak

  /** The decision `handleSubmit` takes; a mismatch is reported before weakness. */
  function Decide(st: State): (o: Outcome)
    ensures o == PasswordMismatch <==>
      Lookup(st.signupForm, "password") != Lookup(st.signupForm, "passwordConfirmation")
    ensures o == PasswordWeak <==>
      Lookup(st.signupForm, "password") == Lookup(st.signupForm, "passwordConfirmation") && !st.passwordValid
    ensures o == SignedUp <==>
      Lookup(st.signupForm, "password") == Lookup(st.signupForm, "passwordConfirmation") && st.passwordValid
  {
    var pw := Lookup(st.signupForm, "password");
    var confirmation := Lookup(st.signupForm, "passwordConfirmation");
    if pw == confirmation && st.passwordValid then SignedUp
    else if pw != confirmation then PasswordMismatch
    else PasswordWeak
  }

  /** A toast notification. */
  datatype Notice = Success(message: string) | Error(message: string)

  const MismatchMessage: string := "Passwords Do Not Match!"
  const WeakMessage: string := "Password's Requirements Aren't Met!"
  const NewsletterMessage: string := "Thanks for joining our newsletter :)"

  /** The welcome text, with both names converted to strings as a template literal does. */
  function WelcomeMessage(firstName: Value, lastName: Value): string {
    "Signup successful! \n Welcome " + ToJsString(firstName) + " " + ToJsString(lastName) + "!"
  }

  /** The notifications a submit issues, in order. */
  function Notices(st: State): (ns: seq<Notice>)
    ensures Decide(st) == PasswordMismatch ==> ns == [Error(MismatchMessage)]
    ensures Decide(st) == PasswordWeak ==> ns == [Error(WeakMessage)]
    ensures Decide(st) == SignedUp ==>
      && |ns| == (if Truthy(Lookup(st.signupForm, "newsletterSub")) then 2 else 1)
      && ns[0] == Success(WelcomeMessage(Lookup(st.signupForm, "firstName"), Lookup(st.signupForm, "lastName")))
      && (|ns| == 2 ==> ns[1] == Success(NewsletterMessage))
    ensures Decide(st) == SignedUp ==> forall i :: 0 <= i < |ns| ==> ns[i].Success?
    ensures Decide(st) != SignedUp ==> |ns| == 1 && ns[0].Error?
  {
    match Decide(st)
    case SignedUp =>
      var welcome := Success(WelcomeMessage(Lookup(st.signupForm, "firstName"), Lookup(st.signupForm, "lastName")));
      if Truthy(Lookup(st.signupForm, "newsletterSub")) then [welcome, Success(NewsletterMessage)] else [welcome]
    case PasswordMismatch => [Error(MismatchMessage)]
    case PasswordWeak => [Error(WeakMessage)]
  }

  /**
   * What every reachable state satisfies: the telephone number never holds a
   * string with a non-digit, the password is always a string, and
   * `passwordValid` is the rule applied to it, unless the password field has
   * never been edited: then the password is still `""` and the flag still has
   * its initial `true`.
   */
  predicate Consistent(st: State) {
    && (Lookup(st.signupForm, "telNumber").Str? ==> OnlyOf(Digit, Lookup(st.signupForm, "telNumber").s))
    && Lookup(st.signupForm, "password").Str?
    && var pw := Lookup(st.signupForm, "password").s;
       st.passwordValid == IsStrongPassword(pw) || (pw == "" && st.passwordValid)
  }

  /** The initial state: every text field empty, both boxes unchecked, no picture, the placeholder preview. */
  lemma InitialState()
    ensures var st := Initial();
      && (forall k :: (k in {"firstName", "lastName", "email", "password", "passwordConfirmation",
                              "dateOfBirth", "telNumber"}) ==> Lookup(st.signupForm, k) == Str(""))
      && Lookup(st.signupForm, "termsAndPolicies") == Bool(false)
      && Lookup(st.signupForm, "newsletterSub") == Bool(false)
      && Lookup(st.signupForm, "profilePicture") == Undefined
      && !st.showPassword && st.passwordValid
      && st.profilePicturePreview == ImagePath("./images/default-pic1.png")
      && Consistent(st)
  {
  }

  /**
   * `passwordValid` starts out true although the rule rejects the empty
   * password, so submitting the untouched form signs up with empty fields.
   * The asserts name the record lookups the notices read; they only spare the
   * solver from unfolding the initial record itself.
   */
  lemma UntouchedFormSignsUp()
    ensures Initial().passwordValid && !IsStrongPassword(Lookup(Initial().signupForm, "password").s)
    ensures Decide(Initial()) == SignedUp
    ensures Notices(Initial()) == [Success(WelcomeMessage(Str(""), Str("")))]
  {
    WeakPasswordExamples("");
    assert Lookup(Initial().signupForm, "firstName") == Str("") && Lookup(Initial().signupForm, "lastName") == Str("");
    assert Lookup(Initial().signupForm, "newsletterSub") == Bool(false);
  }

  /** A password edit stores the typed text and makes the flag the rule applied to that same text. */
  lemma ChangePasswordRecomputes(st: State, e: ChangeEvent)
    requires e.name == "password"
    ensures Lookup(Change(st, e).signupForm, "password") == Str(e.value)
    ensures Change(st, e).passwordValid == IsStrongPassword(e.value)
    ensures Consistent(st) ==> Consistent(Change(st, e))
  {
  }

  /** A telephone edit with any character outside 0-9 is a no-op. */
  lemma ChangeTelNumberRejected(st: State, e: ChangeEvent, i: nat)
    requires e.name == "telNumber" && i < |e.value| && !IsDigitAscii(e.value[i])
    ensures Change(st, e) == st
  {
    OnlyOfIff(Digit, e.value);
  }

  /** A digit-only telephone text, the empty one included, is stored verbatim. */
  lemma ChangeTelNumberStored(st: State, e: ChangeEvent)
    requires e.name == "telNumber" && e.inputType != "checkbox" && e.files.None?
    requires forall i :: 0 <= i < |e.value| ==> IsDigitAscii(e.value[i])
    ensures Lookup(Change(st, e).signupForm, "telNumber") == Str(e.value)
    ensures Change(st, e).passwordValid == st.passwordValid
  {
    OnlyOfIff(Digit, e.value);
  }

  /** Every change keeps the invariant. */
  lemma ChangeKeepsConsistent(st: State, e: ChangeEvent)
    requires Consistent(st)
    ensures Consistent(Change(st, e))
  {
    var r := Change(st, e);
    if !Rejected(e) && e.name == "telNumber" && StoredValue(e).Str? {
      assert Lookup(r.signupForm, "telNumber") == Str(e.value);
    }
  }

  /** Toggling the show-password box twice restores the state. */
  lemma TogglePasswordTwice(st: State)
    ensures TogglePassword(TogglePassword(st)) == st
    ensures Consistent(st) ==> Consistent(TogglePassword(st))
  {
  }

  /** The user actions that change the component's state (a submit changes nothing). */
  datatype Action = Edit(event: ChangeEvent) | ToggleShowPassword

  function Step(st: State, a: Action): State {
    match a
    case Edit(e) => Change(st, e)
    case ToggleShowPassword => TogglePassword(st)
  }

  /** The state reached from `st` by the actions `acts`, in order. */
  function Run(st: State, acts: seq<Action>): State
    decreases |acts|
  {
    if acts == [] then st else Run(Step(st, acts[0]), acts[1..])
  }

  /** Every state the component can reach is consistent. */
  lemma {:induction false} RunKeepsConsistent(st: State, acts: seq<Action>)
    requires Consistent(st)
    ensures Consistent(Run(st, acts))
    decreases |acts|
  {
    if acts != [] {
      match acts[0] {
        case Edit(e) => ChangeKeepsConsistent(st, e);
        case ToggleShowPassword => TogglePasswordTwice(st);
      }
      RunKeepsConsistent(Step(st, acts[0]), acts[1..]);
    }
  }

  /**
   * In any reachable state, a submit that signs up has matching passwords that
   * are strong, unless the password was never typed and is still empty.
   */
  lemma SignedUpPassword(acts: seq<Action>)
    ensures var st := Run(Initial(), acts);
      Decide(st) == SignedUp ==>
        && Lookup(st.signupForm, "password") == Lookup(st.signupForm, "passwordConfirmation")
        && Lookup(st.signupForm, "password").Str?
        && (IsStrongPassword(Lookup(st.signupForm, "password").s) || Lookup(st.signupForm, "password").s == "")
  {
    InitialState();
    RunKeepsConsistent(Initial(), acts);
  }

  /** In any reachable state the telephone number, when it is text, has digits only. */
  lemma TelNumberDigitsOnly(acts: seq<Action>, i: nat)
    requires var tel := Lookup(Run(Initial(), acts).signupForm, "telNumber"); tel.Str? && i < |tel.s|
    ensures IsDigitAscii(Lookup(Run(Initial(), acts).signupForm, "telNumber").s[i])
  {
    InitialState();
    RunKeepsConsistent(Initial(), acts);
    OnlyOfIff(Digit, Lookup(Run(Initial(), acts).signupForm, "telNumber").s);
  }

  // The session lemmas below each follow a few edits of a fresh form. The
  // asserts in their bodies name, state by state, the lookups that `Notices`
  // reads. They carry no logical weight: they are there because without them
  // the solver spends far more effort on each proof.

  /** Any strong password typed twice on a fresh form: one welcome notice with empty names. */
  lemma StrongPasswordSession(p: string)
    requires IsStrongPassword(p)
    ensures Notices(Change(Change(Initial(), TextEdit("password", p)), TextEdit("passwordConfirmation", p)))
         == [Success(WelcomeMessage(Str(""), Str("")))]
  {
    var s1 := Change(Initial(), TextEdit("password", p));
    assert Lookup(s1.signupForm, "firstName") == Str("") && Lookup(s1.signupForm, "lastName") == Str("");
    assert Lookup(s1.signupForm, "newsletterSub") == Bool(false);
    var s2 := Change(s1, TextEdit("passwordConfirmation", p));
    assert Lookup(s2.signupForm, "firstName") == Str("") && Lookup(s2.signupForm, "lastName") == Str("");
    assert Lookup(s2.signupForm, "newsletterSub") == Bool(false);
    assert Lookup(s2.signupForm, "password") == Lookup(s2.signupForm, "passwordConfirmation");
  }

  /** A confirmation that differs from the password: the mismatch error, whatever the password's strength. */
  lemma MismatchSession(p: string, confirmation: string)
    requires p != confirmation
    ensures Notices(Change(Change(Initial(), TextEdit("password", p)), TextEdit("passwordConfirmation", confirmation)))
         == [Error(MismatchMessage)]
  {
    var s1 := Change(Initial(), TextEdit("password", p));
    assert Lookup(s1.signupForm, "password") == Str(p);
  }

  /** A weak password typed twice: the requirements error. */
  lemma WeakPasswordSession(p: string)
    requires !IsStrongPassword(p)
    ensures Notices(Change(Change(Initial(), TextEdit("password", p)), TextEdit("passwordConfirmation", p)))
         == [Error(WeakMessage)]
  {
    var s1 := Change(Initial(), TextEdit("password", p));
    assert Lookup(s1.signupForm, "password") == Str(p) && !s1.passwordValid;
  }

  /** The edits of a user who fills in names and a password and subscribes to the newsletter. */
  function NewsletterEdits(firstName: string, lastName: string, p: string): seq<ChangeEvent> {
    [TextEdit("firstName", firstName), TextEdit("lastName", lastName),
     TextEdit("password", p), TextEdit("passwordConfirmation", p),
     ChangeEvent("newsletterSub", "on", "checkbox", true, None)]
  }

  /** After those edits a submit gives the welcome naming the user, then the newsletter notice. */
  lemma NewsletterSession(firstName: string, lastName: string, p: string)
    requires IsStrongPassword(p)
    ensures var es := NewsletterEdits(firstName, lastName, p);
      Notices(Change(Change(Change(Change(Change(Initial(), es[0]), es[1]), es[2]), es[3]), es[4]))
      == [Success(WelcomeMessage(Str(firstName), Str(lastName))), Success(NewsletterMessage)]
  {
    var es := NewsletterEdits(firstName, lastName, p);
    var s2 := Change(Change(Initial(), es[0]), es[1]);
    assert Lookup(s2.signupForm, "firstName") == Str(firstName);
    var s3 := Change(s2, es[2]);
    assert Lookup(s3.signupForm, "firstName") == Str(firstName) && Lookup(s3.signupForm, "lastName") == Str(lastName);
    var s4 := Change(s3, es[3]);
    assert Lookup(s4.signupForm, "firstName") == Str(firstName) && Lookup(s4.signupForm, "lastName") == Str(lastName);
    assert Lookup(s4.signupForm, "password") == Lookup(s4.signupForm, "passwordConfirmation") && s4.passwordValid;
    var s5 := Change(s4, es[4]);
    assert Lookup(s5.signupForm, "firstName") == Str(firstName) && Lookup(s5.signupForm, "lastName") == Str(lastName);
    assert Lookup(s5.signupForm, "password") == Lookup(s5.signupForm, "passwordConfirmation") && s5.passwordValid;
    assert Lookup(s5.signupForm, "newsletterSub") == Bool(true);
  }
}
