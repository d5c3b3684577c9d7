/** The registration page (app/register/page): input normalisation, validation and the submitted payload. */
module RegisterForm {
  import opened Wrappers
  import opened Text
  import opened JsValues
  import opened Domain
  import opened AuthSession
  import opened SignIn

  datatype RegisterInput = RegisterInput(username: string, email: string, password: string, phoneNumber: string)

  /** The `name` attribute of the edited input. */
  datatype Field = Username | Email | Password | PhoneNumber

  function FieldOf(f: RegisterInput, name: Field): string {
    match name
    case Username => f.username
    case Email => f.email
    case Password => f.password
    case PhoneNumber => f.phoneNumber
  }

  /** `handleChange`: the edited field takes the typed value, without leading white space unless it is the password. */
  function HandleChange(f: RegisterInput, name: Field, value: string): (r: RegisterInput)
    ensures name == Password ==> FieldOf(r, name) == value
    ensures name != Password ==> FieldOf(r, name) == TrimStart(value)
    ensures name != Username ==> r.username == f.username
    ensures name != Email ==> r.email == f.email
    ensures name != Password ==> r.password == f.password
    ensures name != PhoneNumber ==> r.phoneNumber == f.phoneNumber
  {
    match name
    case Username => f.(username := TrimStart(value))
    case Email => f.(email := TrimStart(value))
    case Password => f.(password := value)
    case PhoneNumber => f.(phoneNumber := TrimStart(value))
  }

  const UsernameError := "Username must be at least 3 characters."
  const EmailError := "Enter a valid email address."
  const PhoneError := "Enter a valid phone number in international format."
  const PasswordError := "Password must be at least 6 characters."

  /** Not blank after trimming, and at least three UTF-16 code units before it. */
  predicate UsernameOk(u: string) {
    !AllSpace(u) && JsLength(u) >= 3
  }

  /** The password rule: at least six UTF-16 code units. */
  predicate PasswordOk(p: string) {
    JsLength(p) >= 6
  }

  /** The regex class `[^\s@]`. */
  predicate Plain(c: char) {
    !IsSpace(c) && c != '@'
  }

  /** Every character of `s[lo..hi]` is plain. */
  predicate PlainBetween(s: string, lo: int, hi: int)
    requires 0 <= lo <= hi <= |s|
  {
    forall k :: lo <= k < hi ==> Plain(s[k])
  }

  /** `s` splits at `i` and `j` as `[^\s@]+ @ [^\s@]+ \. [^\s@]+`. */
  predicate EmailSplit(s: string, i: int, j: int) {
    0 < i && i + 1 < j && j + 1 < |s| && s[i] == '@' && s[j] == '.' &&
    PlainBetween(s, 0, i) && PlainBetween(s, i + 1, j) && PlainBetween(s, j + 1, |s|)
  }

  /** The email pattern `^[^\s@]+@[^\s@]+\.[^\s@]+$`. */
  ghost predicate EmailPattern(s: string) {
    exists i, j :: EmailSplit(s, i, j)
  }

  /** The position of the first '@', or `|s|` when there is none. */
  function FirstAt(s: string): (i: nat)
    ensures i <= |s|
    ensures i < |s| ==> s[i] == '@'
    ensures forall k :: 0 <= k < i ==> s[k] != '@'
  {
    if s == [] then 0 else if s[0] == '@' then 0 else 1 + FirstAt(s[1..])
  }

  /** The email check as a scan: one '@' with plain text before it, and a '.' strictly inside the plain text after it. */
  predicate EmailOk(s: string) {
    var i := FirstAt(s);
    0 < i && i + 3 < |s| && PlainBetween(s, 0, i) && PlainBetween(s, i + 1, |s|) && '.' in s[i + 2..|s| - 1]
  }

  /** The scan accepts exactly the strings the email pattern matches. */
  lemma EmailOkIff(s: string)
    ensures EmailOk(s) <==> EmailPattern(s)
  {
    var i := FirstAt(s);
    if EmailOk(s) {
      var t := s[i + 2..|s| - 1];
      var k :| 0 <= k < |t| && t[k] == '.';
      var j := i + 2 + k;
      assert s[j] == '.';
      assert EmailSplit(s, i, j);
    }
    if EmailPattern(s) {
      var a, b :| EmailSplit(s, a, b);
      assert s[a] == '@';
      assert i == a;
      assert Plain(s[b]);
      assert PlainBetween(s, i + 1, |s|);
      assert s[i + 2..|s| - 1][b - i - 2] == '.';
    }
  }

  /** The phone digits `[1-9]\d{6,14}`: seven to fifteen digits, the first not zero. */
  predicate PhoneDigits(d: string) {
    7 <= |d| <= 15 && AllDigits(d) && d[0] != '0'
  }

  /** The phone pattern `^\+?[1-9]\d{6,14}$`. */
  predicate PhonePattern(s: string) {
    PhoneDigits(s) || (|s| > 0 && s[0] == '+' && PhoneDigits(s[1..]))
  }

  /** `validate`: username, email, phone and password in that order; the first failure's message, or none. */
  function Validate(f: RegisterInput): (r: Option<string>)
    ensures r.None? <==> UsernameOk(f.username) && EmailPattern(f.email) && PhonePattern(f.phoneNumber) && PasswordOk(f.password)
    ensures r == Some(UsernameError) <==> !UsernameOk(f.username)
    ensures r == Some(EmailError) <==> UsernameOk(f.username) && !EmailPattern(f.email)
    ensures r == Some(PhoneError) <==> UsernameOk(f.username) && EmailPattern(f.email) && !PhonePattern(f.phoneNumber)
    ensures r == Some(PasswordError) <==>
      UsernameOk(f.username) && EmailPattern(f.email) && PhonePattern(f.phoneNumber) && !PasswordOk(f.password)
  {
    TrimEmptyIff(f.username);
    EmailOkIff(f.email);
    if Trim(f.username) == "" || JsLength(f.username) < 3 then Some(UsernameError)
    else if !EmailOk(f.email) then Some(EmailError)
    else if !PhonePattern(f.phoneNumber) then Some(PhoneError)
    else if JsLength(f.password) < 6 then Some(PasswordError)
    else None
  }

  /** Lengths are UTF-16 code units: three characters outside the Basic Multilingual Plane make a long enough password. */
  lemma AstralPasswordAccepted(f: RegisterInput)
    requires UsernameOk(f.username) && EmailPattern(f.email) && PhonePattern(f.phoneNumber)
    ensures Validate(f.(password := "\U{1F511}\U{1F511}\U{1F511}")).None?
    ensures |"\U{1F511}\U{1F511}\U{1F511}"| == 3
  {
    var p := "\U{1F511}\U{1F511}\U{1F511}";
    assert p[1..][1..][1..] == [];
    assert JsLength(p) == 6;
  }

  /** The payload: every field but the password trimmed. */
  function Payload(f: RegisterInput): RegisterInput {
    RegisterInput(Trim(f.username), Trim(f.email), f.password, Trim(f.phoneNumber))
  }

  /** `handleSubmit`: a validation failure shows its message and sends nothing; else the trimmed payload is sent. */
  function HandleSubmit(ss: Session, routes: Routes, f: RegisterInput,
                        api: RegisterInput -> Result<AuthResponse, JsValue>,
                        stringify: UserDetails -> string): (r: Submission<RegisterInput>)
    ensures r.request.None? <==> Validate(f).Some?
    ensures r.request.None? ==> r.errMsg == Validate(f).value && r.session == ss && r.navigate.None?
    ensures r.request.Some? ==> r.request.value.password == f.password
    ensures r.request.Some? ==> r.request.value.username == Trim(f.username)
    ensures r.request.Some? ==> r.request.value.email == Trim(f.email) && r.request.value.phoneNumber == Trim(f.phoneNumber)
    ensures r.request.Some? ==> r == Answered(ss, routes, r.request.value, api(r.request.value), stringify)
  {
    match Validate(f)
    case Some(msg) => Submission(None, ss, msg, None)
    case None =>
      var payload := Payload(f);
      Answered(ss, routes, payload, api(payload), stringify)
  }

  /** Edits never leave leading white space on the username, so a validated username only loses trailing space when sent. */
  lemma EditedUsernameTrimsAtEnd(f: RegisterInput, value: string)
    ensures Trim(HandleChange(f, Username, value).username) == TrimEnd(TrimStart(value))
    ensures TrimStart(HandleChange(f, Username, value).username) == HandleChange(f, Username, value).username
  {
    var u := TrimStart(value);
    assert u == "" || !IsSpace(u[0]);
  }
}
