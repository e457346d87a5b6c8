/**
 * The `App` component: its state hooks become fields that the handlers update
 * in place. Each handler is proved to perform exactly the transition of module
 * SignupForm, so everything proved there about those transitions holds of it.
 */
module AppComponent {
  import opened PasswordRule
  import opened SignupForm

  class App {
    var signupForm: map<string, Value>
    var showPassword: bool
    var profilePicturePreview: Preview
    var passwordValid: bool

    /** The component's state as a value. */
    function Snapshot(): State
      reads this
    {
      State(signupForm, showPassword, profilePicturePreview, passwordValid)
    }

    /** The first render: the `useState` initial values. */
    constructor ()
      ensures Snapshot() == Initial()
      ensures Consistent(Snapshot())
    {
      signupForm := InitialSignupForm;
      showPassword := false;
      profilePicturePreview := DefaultPreview;
      passwordValid := true;
      InitialState();
    }

    /** `handleChange(event)` */
    method HandleChange(e: ChangeEvent)
      modifies this
      ensures Snapshot() == Change(old(Snapshot()), e)
      ensures old(Consistent(Snapshot())) ==> Consistent(Snapshot())
    {
      ghost var before := Snapshot();
      if e.name == "telNumber" && !OnlyOf(Digit, e.value) {
        return;
      }
      if e.name == "profilePicture" && e.files.Some? && |e.files.value| > 0 {
        profilePicturePreview := ObjectUrl(e.files.value[0]);
      }
      if e.name == "password" {
        var isValid := IsStrongPassword(e.value);
        passwordValid := isValid;
        signupForm := signupForm[e.name := Str(e.value)];
      } else {
        var stored := if e.inputType == "checkbox" then Bool(e.checked)
          else if e.files.Some? then (if |e.files.value| > 0 then FileVal(e.files.value[0]) else Undefined)
          else Str(e.value);
        signupForm := signupForm[e.name := stored];
      }
      if Consistent(before) {
        ChangeKeepsConsistent(before, e);
      }
    }

    /** `handlePassword()` */
    method HandlePassword()
      modifies this
      ensures Snapshot() == TogglePassword(old(Snapshot()))
      ensures old(Consistent(Snapshot())) ==> Consistent(Snapshot())
    {
      showPassword := !showPassword;
    }

    /**
     * `handleSubmit(event)`: the notifications it issues, in order. With no
     * `modifies` clause it cannot change the record, the flag or the toggle.
     */
    method HandleSubmit() returns (notices: seq<Notice>)
      ensures notices == Notices(Snapshot())
    {
      notices := [];
      if Lookup(signupForm, "password") == Lookup(signupForm, "passwordConfirmation") && passwordValid {
        notices := notices + [Success(WelcomeMessage(Lookup(signupForm, "firstName"), Lookup(signupForm, "lastName")))];
        if Truthy(Lookup(signupForm, "newsletterSub")) {
          notices := notices + [Success(NewsletterMessage)];
        }
      } else if Lookup(signupForm, "password") != Lookup(signupForm, "passwordConfirmation") {
        notices := notices + [Error(MismatchMessage)];
      } else {
        notices := notices + [Error(WeakMessage)];
      }
    }
  }

  /** Any strong password, confirmed, on an otherwise untouched form: one welcome notice. */
  method SubmitMatchingStrongPasswords(p: string) returns (notices: seq<Notice>)
    requires IsStrongPassword(p)
    ensures notices == [Success(WelcomeMessage(Str(""), Str("")))]
  {
    var app := new App();
    app.HandleChange(TextEdit("password", p));
    app.HandleChange(TextEdit("passwordConfirmation", p));
    notices := app.HandleSubmit();
    StrongPasswordSession(p);
  }

  /** A confirmation different from the password is reported as a mismatch, however strong the password. */
  method SubmitMismatchedPasswords(p: string, confirmation: string) returns (notices: seq<Notice>)
    requires p != confirmation
    ensures notices == [Error(MismatchMessage)]
  {
    var app := new App();
    app.HandleChange(TextEdit("password", p));
    app.HandleChange(TextEdit("passwordConfirmation", confirmation));
    notices := app.HandleSubmit();
    MismatchSession(p, confirmation);
  }

  /** A weak password confirmed correctly is reported as weak. */
  method SubmitWeakPassword(p: string) returns (notices: seq<Notice>)
    requires !IsStrongPassword(p)
    ensures notices == [Error(WeakMessage)]
  {
    var app := new App();
    app.HandleChange(TextEdit("password", p));
    app.HandleChange(TextEdit("passwordConfirmation", p));
    notices := app.HandleSubmit();
    WeakPasswordSession(p);
  }

  /** With the newsletter box checked, the welcome naming the user is followed by the newsletter notice. */
  method SubmitWithNewsletter(firstName: string, lastName: string, p: string) returns (notices: seq<Notice>)
    requires IsStrongPassword(p)
    ensures notices == [Success(WelcomeMessage(Str(firstName), Str(lastName))), Success(NewsletterMessage)]
  {
    var es := NewsletterEdits(firstName, lastName, p);
    var app := new App();
    app.HandleChange(es[0]);
    app.HandleChange(es[1]);
    app.HandleChange(es[2]);
    app.HandleChange(es[3]);
    app.HandleChange(es[4]);
    notices := app.HandleSubmit();
    NewsletterSession(firstName, lastName, p);
  }

  /** Once a digit-only number is stored, an edit with a non-digit leaves it in place. */
  method RejectedTelephoneEdit(tel: string, edit: string, i: nat) returns (stored: Value)
    requires forall j :: 0 <= j < |tel| ==> IsDigitAscii(tel[j])
    requires i < |edit| && !IsDigitAscii(edit[i])
    ensures stored == Str(tel)
  {
    var app := new App();
    app.HandleChange(TextEdit("telNumber", tel));
    ChangeTelNumberStored(Initial(), TextEdit("telNumber", tel));
    ChangeTelNumberRejected(app.Snapshot(), TextEdit("telNumber", edit), i);
    app.HandleChange(TextEdit("telNumber", edit));
    stored := Lookup(app.signupForm, "telNumber");
  }
}
