/** The registration form of client/src/pages/Register.jsx: its four fields, the error
    messages `validateForm` assigns field by field, the clearing of a field's message
    when the field is edited, and the submit guard in front of `register`. */
module RegisterForm {
  import opened Values
  import opened JsText
  import opened AuthContext

  datatype Field = Name | Email | Password | ConfirmPassword

  /** The keys of the `errors` object: one per field, and `general` for a failed submit. */
  datatype ErrorKey = FieldKey(field: Field) | General

  const NameRequired := "Name is required"
  const NameTooShort := "Name must be at least 2 characters"
  const EmailRequired := "Email is required"
  const EmailInvalid := "Please enter a valid email"
  const PasswordRequired := "Password is required"
  const PasswordTooShort := "Password must be at least 6 characters"
  const PasswordTooWeak := "Password must contain at least one uppercase letter, one lowercase letter, and one number"
  const ConfirmRequired := "Please confirm your password"
  const PasswordsDiffer := "Passwords do not match"

  // ---------------------------------------------------------------------------------
  // The email pattern /\S+@\S+\.\S+/, searched anywhere in the string

  /** No white space in `s[from..to]`. */
  predicate NoWhite(s: string, from: int, to: int)
    requires 0 <= from <= to <= |s|
  {
    forall j | from <= j < to :: !IsWhite(s[j])
  }

  /** The pattern matches with its "@" at `at` and its "." at `dot`: a non-space
      character before the "@", only non-space characters (at least one) between them,
      and a non-space character after the ".". */
  predicate EmailMatchAt(s: string, at: int, dot: int) {
    && 0 < at && at + 1 < dot && dot + 1 < |s|
    && s[at] == '@' && s[dot] == '.'
    && !IsWhite(s[at - 1]) && NoWhite(s, at + 1, dot) && !IsWhite(s[dot + 1])
  }

  predicate EmailPattern(s: string) {
    exists at, dot | 0 <= at < |s| && 0 <= dot < |s| :: EmailMatchAt(s, at, dot)
  }

  /** An address of the form local@domain.tld with non-space parts matches. */
  lemma SimpleAddressMatches(local: string, domain: string, tld: string)
    requires local != [] && domain != [] && tld != []
    requires forall c | c in local + domain + tld :: !IsWhite(c)
    ensures EmailPattern(local + "@" + domain + "." + tld)
  {
    var s := local + "@" + domain + "." + tld;
    var at := |local|;
    var dot := |local| + 1 + |domain|;
    assert s[at - 1] == local[at - 1];
    assert s[dot + 1] == tld[0];
    forall j | at + 1 <= j < dot ensures !IsWhite(s[j]) {
      assert s[j] == domain[j - at - 1];
    }
    assert EmailMatchAt(s, at, dot);
  }

  /** An address without "@" never matches. */
  lemma NoAtNoMatch(s: string)
    requires '@' !in s
    ensures !EmailPattern(s)
  {
  }

  // ---------------------------------------------------------------------------------
  // The password pattern /(?=.*[a-z])(?=.*[A-Z])(?=.*\d)/

  datatype CharClass = LowerLetter | UpperLetter | Digit

  predicate InClass(c: char, k: CharClass) {
    match k
    case LowerLetter => IsAsciiLower(c)
    case UpperLetter => IsAsciiUpper(c)
    case Digit => IsDigit(c)
  }

  /** No line terminator in `s[from..to]`: the stretch a `.*` can cross. */
  predicate OneLine(s: string, from: int, to: int)
    requires 0 <= from <= to <= |s|
  {
    forall j | from <= j < to :: !IsLineTerminator(s[j])
  }

  /** The lookahead `(?=.*k)` holds at position `p`. */
  predicate LookaheadAt(s: string, p: int, k: CharClass)
    requires 0 <= p <= |s|
  {
    exists i | p <= i < |s| :: InClass(s[i], k) && OneLine(s, p, i)
  }

  /** The three lookaheads hold together at some position. */
  predicate PasswordPattern(s: string) {
    exists p | 0 <= p <= |s| ::
      LookaheadAt(s, p, LowerLetter) && LookaheadAt(s, p, UpperLetter) && LookaheadAt(s, p, Digit)
  }

  predicate HasClass(s: string, k: CharClass) {
    exists i | 0 <= i < |s| :: InClass(s[i], k)
  }

  /** For a password on one line the pattern says: a lower-case letter, an upper-case
      letter and a digit, anywhere. */
  lemma PasswordPatternOneLine(s: string)
    requires OneLine(s, 0, |s|)
    ensures PasswordPattern(s) <==> HasClass(s, LowerLetter) && HasClass(s, UpperLetter) && HasClass(s, Digit)
  {
    if HasClass(s, LowerLetter) && HasClass(s, UpperLetter) && HasClass(s, Digit) {
      forall k: CharClass ensures LookaheadAt(s, 0, k) {
        var i :| 0 <= i < |s| && InClass(s[i], k);
        assert OneLine(s, 0, i);
      }
      assert LookaheadAt(s, 0, LowerLetter) && LookaheadAt(s, 0, UpperLetter) && LookaheadAt(s, 0, Digit);
    }
  }

  /** The pattern never holds without a digit. */
  lemma NoDigitNoMatch(s: string)
    requires !HasClass(s, Digit)
    ensures !PasswordPattern(s)
  {
  }

  // ---------------------------------------------------------------------------------
  // The checks of each field, first failing check first

  /** The bound is on the length of the trimmed name, in UTF-16 code units. */
  function NameError(name: string): (e: Option<string>)
    ensures e.None? <==> Length(Trim(name)) >= 2
    ensures e == Some(NameRequired) <==> Trim(name) == ""
    ensures e == Some(NameTooShort) <==> Length(Trim(name)) == 1
  {
    if Trim(name) == "" then Some(NameRequired)
    else if Length(Trim(name)) < 2 then Some(NameTooShort)
    else None
  }

  /** A single character outside the Basic Multilingual Plane is two code units long,
      so it is a long enough name. */
  lemma AstralNameIsLongEnough()
    ensures NameError("\U{1F600}") == None
  {
    assert Trim("\U{1F600}") == "\U{1F600}";
  }

  function EmailError(email: string): (e: Option<string>)
    ensures e.None? <==> email != "" && EmailPattern(email)
    ensures e == Some(EmailRequired) <==> email == ""
    ensures e == Some(EmailInvalid) <==> email != "" && !EmailPattern(email)
  {
    if email == "" then Some(EmailRequired)
    else if !EmailPattern(email) then Some(EmailInvalid)
    else None
  }

  /** The length bound is on the untrimmed password, in UTF-16 code units. */
  function PasswordError(password: string): (e: Option<string>)
    ensures e.None? <==> Length(password) >= 6 && PasswordPattern(password)
    ensures e == Some(PasswordRequired) <==> password == ""
    ensures e == Some(PasswordTooShort) <==> password != "" && Length(password) < 6
    ensures e == Some(PasswordTooWeak) <==> Length(password) >= 6 && !PasswordPattern(password)
  {
    if password == "" then Some(PasswordRequired)
    else if Length(password) < 6 then Some(PasswordTooShort)
    else if !PasswordPattern(password) then Some(PasswordTooWeak)
    else None
  }

  function ConfirmError(password: string, confirm: string): (e: Option<string>)
    ensures e.None? <==> confirm != "" && confirm == password
    ensures e == Some(ConfirmRequired) <==> confirm == ""
    ensures e == Some(PasswordsDiffer) <==> confirm != "" && confirm != password
  {
    if confirm == "" then Some(ConfirmRequired)
    else if password != confirm then Some(PasswordsDiffer)
    else None
  }

  /** All four fields are present in the form data. */
  predicate Complete(data: map<Field, string>) {
    Name in data && Email in data && Password in data && ConfirmPassword in data
  }

  /** The message `validateForm` assigns to field `f` of `data`, if any. */
  function FieldError(data: map<Field, string>, f: Field): Option<string>
    requires Complete(data)
  {
    match f
    case Name => NameError(data[Name])
    case Email => EmailError(data[Email])
    case Password => PasswordError(data[Password])
    case ConfirmPassword => ConfirmError(data[Password], data[ConfirmPassword])
  }

  /** Every check passes. */
  predicate FormValid(data: map<Field, string>)
    requires Complete(data)
  {
    forall f: Field :: FieldError(data, f).None?
  }

  /** `m` with `k` set to the message, when there is one. */
  function Note(m: map<ErrorKey, string>, k: ErrorKey, e: Option<string>): map<ErrorKey, string> {
    if e.Some? then m[k := e.value] else m
  }

  /** The error object `validateForm` builds, one check after the other. */
  function FormErrors(data: map<Field, string>): map<ErrorKey, string>
    requires Complete(data)
  {
    var m1 := Note(map[], FieldKey(Name), FieldError(data, Name));
    var m2 := Note(m1, FieldKey(Email), FieldError(data, Email));
    var m3 := Note(m2, FieldKey(Password), FieldError(data, Password));
    Note(m3, FieldKey(ConfirmPassword), FieldError(data, ConfirmPassword))
  }

  /** The error object holds exactly one message per failing field, that field's own
      message, and no general message; it is empty exactly when the form is valid. */
  lemma FormErrorsMeaning(data: map<Field, string>)
    requires Complete(data)
    ensures forall f: Field :: FieldKey(f) in FormErrors(data) <==> FieldError(data, f).Some?
    ensures forall f: Field :: FieldKey(f) in FormErrors(data) ==> FormErrors(data)[FieldKey(f)] == FieldError(data, f).value
    ensures General !in FormErrors(data)
    ensures FormErrors(data) == map[] <==> FormValid(data)
  {
    var m := FormErrors(data);
    forall f: Field ensures FieldKey(f) in m <==> FieldError(data, f).Some? {
      match f
      case Name =>
      case Email =>
      case Password =>
      case ConfirmPassword =>
    }
    if m == map[] {
      forall f: Field ensures FieldError(data, f).None? {
        assert FieldKey(f) !in m;
      }
    }
  }

  /** A valid form has a name, an email and a password, so `register` accepts it. */
  lemma ValidFormHasAllFields(data: map<Field, string>)
    requires Complete(data)
    requires FormValid(data)
    ensures data[Name] != "" && data[Email] != "" && data[Password] != ""
  {
    assert FieldError(data, Name).None? && FieldError(data, Email).None?;
    assert FieldError(data, Password).None?;
  }

  class RegisterFormState {
    var formData: map<Field, string>
    var errors: map<ErrorKey, string>

    predicate Valid()
      reads this
    {
      Complete(formData)
    }

    constructor()
      ensures Valid()
      ensures formData == map[Name := "", Email := "", Password := "", ConfirmPassword := ""]
      ensures errors == map[]
    {
      formData := map[Name := "", Email := "", Password := "", ConfirmPassword := ""];
      errors := map[];
    }

    /** `handleChange`: the edited field takes the new value, and its message, when it
        has a non-empty one, is cleared; nothing else changes. */
    method HandleChange(f: Field, value: string)
      requires Valid()
      modifies this
      ensures Valid()
      ensures formData == old(formData)[f := value]
      ensures FieldKey(f) in old(errors) && old(errors)[FieldKey(f)] != "" ==>
        errors == old(errors)[FieldKey(f) := ""]
      ensures !(FieldKey(f) in old(errors) && old(errors)[FieldKey(f)] != "") ==> errors == old(errors)
    {
      formData := formData[f := value];
      if FieldKey(f) in errors && errors[FieldKey(f)] != "" {
        errors := errors[FieldKey(f) := ""];
      }
    }

    /** `validateForm`: a fresh error object with one message per failing field replaces
        the old one; the answer is whether it is empty. */
    method ValidateForm() returns (ok: bool)
      requires Valid()
      modifies this
      ensures Valid() && formData == old(formData)
      ensures errors == FormErrors(formData)
      ensures ok <==> FormValid(formData)
    {
      var newErrors: map<ErrorKey, string> := map[];
      var name := NameError(formData[Name]);
      if name.Some? { newErrors := newErrors[FieldKey(Name) := name.value]; }
      var email := EmailError(formData[Email]);
      if email.Some? { newErrors := newErrors[FieldKey(Email) := email.value]; }
      var password := PasswordError(formData[Password]);
      if password.Some? { newErrors := newErrors[FieldKey(Password) := password.value]; }
      var confirm := ConfirmError(formData[Password], formData[ConfirmPassword]);
      if confirm.Some? { newErrors := newErrors[FieldKey(ConfirmPassword) := confirm.value]; }
      errors := newErrors;
      FormErrorsMeaning(formData);
      ok := |newErrors| == 0;
    }

    /** `handleSubmit` at time `now` with the token the session would generate: an invalid
        form is never sent and leaves the session as it was; a valid one always registers
        the entered name and email. `register` fails only on an empty name, email or
        password, which a valid form never has, so the general message is never set. */
    method HandleSubmit(auth: AuthState, now: int, token: string) returns (submitted: bool)
      requires Valid()
      modifies this, auth
      ensures Valid() && formData == old(formData)
      ensures submitted <==> FormValid(formData)
      ensures errors == FormErrors(formData)
      ensures !submitted ==>
        && auth.isAuthenticated == old(auth.isAuthenticated) && auth.user == old(auth.user)
        && auth.authToken == old(auth.authToken) && auth.userData == old(auth.userData)
      ensures submitted ==>
        auth.isAuthenticated && auth.user == Some(User(now, formData[Email], formData[Name]))
    {
      var ok := ValidateForm();
      if !ok {
        return false;
      }
      ValidFormHasAllFields(formData);
      var result := auth.Register(formData[Name], formData[Email], formData[Password], now, token);
      return true;
    }
  }
}
