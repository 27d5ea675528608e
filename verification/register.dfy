/** The registration form's submit handler
    (components/auth/RegisterSection.tsx): a chain of checks, the first
    failing one of which sets the form error, then the register and sign-in
    calls. */
module Register {
  import opened Models
  import opened Text
  import Global

  // ---------------------------------------------------------------------
  // The email pattern /^[^\s@]+@[^\s@]+\.[^\s@]+$/
  // ---------------------------------------------------------------------

  /** `\s` of ECMAScript regular expressions: the white space and line
      terminator characters. */
  predicate IsWhitespace(c: char) {
    || c == ' ' || c == '\t' || c == '\n' || c == '\r'
    || c == '\U{B}' || c == '\U{C}' || c == '\U{A0}' || c == '\U{1680}'
    || ('\U{2000}' <= c <= '\U{200A}')
    || c == '\U{2028}' || c == '\U{2029}' || c == '\U{202F}' || c == '\U{205F}'
    || c == '\U{3000}' || c == '\U{FEFF}'
  }

  /** The class `[^\s@]`. */
  predicate Plain(c: char) {
    !IsWhitespace(c) && c != '@'
  }

  /** `[^\s@]+` matches all of `t`. */
  predicate PlainRun(t: string) {
    |t| > 0 && forall i :: 0 <= i < |t| ==> Plain(t[i])
  }

  /** The pattern matches `s` with the "@" at `at` and the literal "." at
      `dot`. */
  predicate EmailMatchAt(s: string, at: int, dot: int) {
    0 <= at < dot < |s| && s[at] == '@' && s[dot] == '.'
    && PlainRun(s[..at]) && PlainRun(s[at + 1..dot]) && PlainRun(s[dot + 1..])
  }

  /** `emailRegex.test(s)`, as the regular expression defines it. */
  ghost predicate EmailPattern(s: string) {
    exists at, dot :: EmailMatchAt(s, at, dot)
  }

  /** The first index of `c` in `s`, or |s|. */
  function IndexOf(s: string, c: char): (k: nat)
    ensures k <= |s|
    ensures k < |s| ==> s[k] == c
    ensures forall i :: 0 <= i < k ==> s[i] != c
  {
    if |s| == 0 then 0
    else if s[0] == c then 0
    else 1 + IndexOf(s[1..], c)
  }

  /** The scan that decides the pattern: no white space, one "@" with text
      before it, and a "." after the "@" with text on both sides of it. */
  predicate EmailScan(s: string) {
    var at := IndexOf(s, '@');
    && (forall i :: 0 <= i < |s| ==> !IsWhitespace(s[i]))
    && 0 < at && at + 3 < |s|
    && '@' !in s[at + 1..]
    && '.' in s[at + 2..|s| - 1]
  }

  /** The scan accepts exactly the strings the pattern matches. */
  lemma EmailScanIffPattern(s: string)
    ensures EmailScan(s) <==> EmailPattern(s)
  {
    if EmailScan(s) {
      var at := IndexOf(s, '@');
      var m := s[at + 2..|s| - 1];
      var j := IndexOf(m, '.');
      var dot := at + 2 + j;
      assert s[dot] == m[j];
      forall i | 0 <= i < |s| && i != at
        ensures Plain(s[i])
      {
        if i > at {
          assert s[i] == s[at + 1..][i - at - 1];
        }
      }
      assert EmailMatchAt(s, at, dot);
    }
    if EmailPattern(s) {
      var at, dot :| EmailMatchAt(s, at, dot);
      forall i | 0 <= i < |s|
        ensures !IsWhitespace(s[i])
        ensures i != at ==> s[i] != '@'
      {
        if i < at {
          assert s[i] == s[..at][i];
        } else if at < i < dot {
          assert s[i] == s[at + 1..dot][i - at - 1];
        } else if dot < i {
          assert s[i] == s[dot + 1..][i - dot - 1];
        }
      }
      assert IndexOf(s, '@') == at;
      assert s[at + 2..|s| - 1][dot - at - 2] == '.';
    }
  }

  /** `emailRegex.test(s)`, computed by the scan. */
  function EmailValid(s: string): (r: bool)
    ensures r <==> EmailPattern(s)
  {
    EmailScanIffPattern(s);
    EmailScan(s)
  }

  /** `/^\d{10}$/.test(phone)`: exactly ten ASCII digits. */
  function PhoneValid(phone: string): (r: bool)
    ensures r <==> |phone| == 10 && KeepDigits(phone) == phone
    ensures r ==> PadStart(NatToString(DigitsValue(phone)), 10, '0') == phone
  {
    if |phone| == 10 && AllDigits(phone) then
      DigitsArePaddedValue(phone);
      true
    else false
  }

  // ---------------------------------------------------------------------
  // handleRegister
  // ---------------------------------------------------------------------

  datatype RegisterForm = RegisterForm(
    name: string,
    email: string,
    username: string,
    password: string,
    confirmPassword: string,
    phone: string,
    agreedToTerms: bool)

  /** RegisterUserState. */
  datatype RegisterPayload = RegisterPayload(
    address: string,
    avatarUrl: string,
    email: string,
    name: string,
    password: string,
    phone: string,
    roleId: int,
    username: string)

  const MSG_EMPTY: string := "Please fill out your full name, email, phone, username, password and confirm password!"
  const MSG_EMAIL: string := "Please enter a valid email address!"
  const MSG_PHONE: string := "Please enter a valid 10-digit phone number!"
  const MSG_MISMATCH: string := "Passwords do not match!"
  const MSG_TERMS: string := "Please agree to the terms and policies before registering!"

  datatype Validation = Rejected(message: string) | Accepted(payload: RegisterPayload)

  predicate AnyEmpty(f: RegisterForm) {
    f.username == "" || f.password == "" || f.name == "" || f.confirmPassword == "" || f.email == "" || f.phone == ""
  }

  /** The checks of handleRegister, in order; the first that fails alone
      decides the message. A form that passes them all becomes the register
      payload of a customer with no address and no avatar. */
  function ValidateRegistration(f: RegisterForm): (v: Validation)
    ensures v == Rejected(MSG_EMPTY) <==> AnyEmpty(f)
    ensures v == Rejected(MSG_EMAIL) <==> !AnyEmpty(f) && !EmailPattern(f.email)
    ensures v == Rejected(MSG_PHONE) <==> !AnyEmpty(f) && EmailPattern(f.email) && !PhoneValid(f.phone)
    ensures v == Rejected(MSG_MISMATCH) <==>
      !AnyEmpty(f) && EmailPattern(f.email) && PhoneValid(f.phone) && f.password != f.confirmPassword
    ensures v == Rejected(MSG_TERMS) <==>
      !AnyEmpty(f) && EmailPattern(f.email) && PhoneValid(f.phone) && f.password == f.confirmPassword && !f.agreedToTerms
    ensures v.Accepted? <==>
      !AnyEmpty(f) && EmailPattern(f.email) && PhoneValid(f.phone) && f.password == f.confirmPassword && f.agreedToTerms
    ensures v.Accepted? ==> v.payload.roleId == ROLE_USER && v.payload.address == "" && v.payload.avatarUrl == ""
    ensures v.Accepted? ==>
      && v.payload.name == f.name && v.payload.email == f.email && v.payload.phone == f.phone
      && v.payload.username == f.username && v.payload.password == f.password
  {
    if AnyEmpty(f) then Rejected(MSG_EMPTY)
    else if !EmailValid(f.email) then Rejected(MSG_EMAIL)
    else if !PhoneValid(f.phone) then Rejected(MSG_PHONE)
    else if f.password != f.confirmPassword then Rejected(MSG_MISMATCH)
    else if !f.agreedToTerms then Rejected(MSG_TERMS)
    else Accepted(RegisterPayload("", "", f.email, f.name, f.password, f.phone, 1, f.username))
  }

  /** The result of the register request and of the sign-in that follows. */
  datatype RegisterCall = RegisterThrew(error: Global.ErrorValue) | Registered(signInError: bool)

  /** What the handler leaves behind: the form error, whether the register
      request was sent, where the router goes and the error toast. */
  datatype RegisterOutcome = RegisterOutcome(
    formError: string,
    requestSent: bool,
    navigate: Option<string>,
    toast: Option<string>)

  /** handleRegister. A rejected form sends nothing. An accepted one sends
      the payload; a thrown error is toasted, and a successful sign-in moves
      to the account page (a failed one stays silently on the form). */
  function HandleRegister(f: RegisterForm, call: RegisterCall): (o: RegisterOutcome)
    ensures ValidateRegistration(f).Rejected? ==>
      o == RegisterOutcome(ValidateRegistration(f).message, false, None, None)
    ensures ValidateRegistration(f).Accepted? ==> o.requestSent && o.formError == ""
    ensures o.navigate.Some? <==> ValidateRegistration(f).Accepted? && call == Registered(false)
    ensures o.navigate.Some? ==> o.navigate.value == "/account"
    ensures o.toast.Some? <==> ValidateRegistration(f).Accepted? && call.RegisterThrew?
    ensures ValidateRegistration(f).Accepted? && call.RegisterThrew? ==> o.toast == Some(Global.ToastError(call.error))
  {
    match ValidateRegistration(f)
    case Rejected(msg) => RegisterOutcome(msg, false, None, None)
    case Accepted(_) =>
      match call
      case RegisterThrew(e) => RegisterOutcome("", true, None, Some(Global.ToastError(e)))
      case Registered(signInError) =>
        RegisterOutcome("", true, if signInError then None else Some("/account"), None)
  }

  /** A form that gets through every check. */
  lemma RegistrationExample()
    ensures ValidateRegistration(RegisterForm("An", "a@b.vn", "an", "pw", "pw", "0901234567", true)).Accepted?
  {
    EmailExample();
    PhoneExample();
    FilledExample();
  }

  lemma FilledExample()
    ensures !AnyEmpty(RegisterForm("An", "a@b.vn", "an", "pw", "pw", "0901234567", true))
  {
    assert |"pw"| > 0 && |"An"| > 0 && |"an"| > 0;
  }

  lemma EmailExample()
    ensures EmailPattern("a@b.vn")
  {
    var s := "a@b.vn";
    assert s[..1] == "a" && s[2..3] == "b" && s[4..] == "vn";
    assert EmailMatchAt(s, 1, 3);
  }

  lemma PhoneExample()
    ensures PhoneValid("0901234567")
  {
    assert AllDigits("0901234567");
  }

  /** Addresses the pattern turns away: no dot after the "@", a second "@",
      and a space. */
  lemma EmailRejections()
    ensures !EmailPattern("a@bvn")
    ensures !EmailPattern("a@b@c.vn")
    ensures !EmailPattern("a @b.vn")
  {
    EmailScanIffPattern("a@bvn");
    EmailScanIffPattern("a@b@c.vn");
    EmailScanIffPattern("a @b.vn");
    assert "a@bvn"[1] == '@';
    assert "a@b@c.vn"[1] == '@' && "a@b@c.vn"[2..][1] == '@';
    assert "a @b.vn"[1] == ' ';
  }
}
