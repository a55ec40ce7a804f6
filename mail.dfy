/**
 * The e-mail side of the server: the required-field check of `POST /send-email`, the
 * choice between the configured SMTP relay and a throw-away test account in
 * `makeTransport`, and the text the `send_email` tool answers with.
 */
module Mail {
  import opened Wrappers
  import opened JsText

  // ---------------------------------------------------------------------------
  // The `/send-email` request body

  /** A parsed JSON value. Numbers are finite, so NaN does not arise. */
  datatype JsValue =
    | Undefined
    | Null
    | Bool(b: bool)
    | Num(n: real)
    | Str(s: string)
    | Arr(items: seq<JsValue>)
    | Obj(fields: map<string, JsValue>)

  /** JavaScript truthiness. */
  predicate Truthy(v: JsValue) {
    match v
    case Undefined => false
    case Null => false
    case Bool(b) => b
    case Num(n) => n != 0.0
    case Str(s) => s != ""
    case Arr(_) => true
    case Obj(_) => true
  }

  /**
   * The property `name` of `(v || {})`, as a destructuring reads it: the field's value when
   * an object holds it, `undefined` otherwise. This holds for names no prototype carries,
   * such as `to`, `subject` and `body`; `length` or `constructor` would read inherited members.
   */
  function Field(v: JsValue, name: string): (f: JsValue)
    ensures !v.Obj? ==> f == Undefined
    ensures v.Obj? && name in v.fields ==> f == v.fields[name]
    ensures v.Obj? && name !in v.fields ==> f == Undefined
  {
    match v
    case Obj(fields) => if name in fields then fields[name] else Undefined
    case _ => Undefined
  }

  const MissingFieldsError := "to, subject, body are required"

  datatype SendRequest =
    | MissingFields(status: nat, error: string)
    | Send(to: JsValue, subject: JsValue, body: JsValue)

  /**
   * The field check: a request goes on to be sent, with its three fields as given, exactly
   * when `to`, `subject` and `body` are all truthy; otherwise it is answered 400.
   */
  function CheckSendEmail(request: JsValue): (r: SendRequest)
    ensures r.Send? <==>
      Truthy(Field(request, "to")) && Truthy(Field(request, "subject")) && Truthy(Field(request, "body"))
    ensures r.Send? ==>
      r.to == Field(request, "to") && r.subject == Field(request, "subject") && r.body == Field(request, "body")
    ensures r.MissingFields? ==> r.status == 400 && r.error == MissingFieldsError
  {
    var to := Field(request, "to");
    var subject := Field(request, "subject");
    var body := Field(request, "body");
    if !Truthy(to) || !Truthy(subject) || !Truthy(body) then MissingFields(400, MissingFieldsError)
    else Send(to, subject, body)
  }

  /** A body that is not an object, or an empty object, is always refused. */
  lemma NonObjectBodyIsRefused(request: JsValue)
    requires !request.Obj? || request.fields == map[]
    ensures CheckSendEmail(request) == MissingFields(400, MissingFieldsError)
  {
    assert !Truthy(Field(request, "to"));
  }

  /** Three non-empty strings pass the check and are handed on unchanged. */
  lemma StringFieldsAreSent(to: string, subject: string, body: string, extra: map<string, JsValue>)
    requires to != "" && subject != "" && body != ""
    ensures
      var request := Obj(extra["to" := Str(to)]["subject" := Str(subject)]["body" := Str(body)]);
      CheckSendEmail(request) == Send(Str(to), Str(subject), Str(body))
  {
    var request := Obj(extra["to" := Str(to)]["subject" := Str(subject)]["body" := Str(body)]);
    assert Field(request, "to") == Str(to);
    assert Field(request, "subject") == Str(subject);
  }

  // ---------------------------------------------------------------------------
  // `makeTransport`

  /** `process.env[name]`, with an absent variable read as "" (both are falsy). */
  function Env(env: map<string, string>, name: string): string {
    if name in env then env[name] else ""
  }

  /** The throw-away account `nodemailer.createTestAccount()` hands out. */
  datatype TestAccount = TestAccount(host: string, port: nat, secure: bool, user: string, pass: string)

  /**
   * Where mail goes and who sends it. `port` is None when `Number(SMTP_PORT)` is not a
   * decimal numeral.
   */
  datatype Channel = Channel(
    host: string, port: Option<nat>, secure: bool, user: string, pass: string,
    from: string, isTest: bool)

  const DefaultPort: nat := 587

  /** The SMTP relay is used only when host, user and password are all set. */
  predicate HasSmtpConfig(env: map<string, string>) {
    Env(env, "SMTP_HOST") != "" && Env(env, "SMTP_USER") != "" && Env(env, "SMTP_PASS") != ""
  }

  /** `Number(SMTP_PORT || 587)`. */
  function SmtpPort(env: map<string, string>): (p: Option<nat>)
    ensures Env(env, "SMTP_PORT") == "" ==> p == Some(DefaultPort)
    ensures Env(env, "SMTP_PORT") != "" ==> p == JsNumber(Env(env, "SMTP_PORT"))
  {
    var raw := Env(env, "SMTP_PORT");
    if raw == "" then Some(DefaultPort) else JsNumber(raw)
  }

  /**
   * `makeTransport()`. `account` is the outcome of asking for a test account, which is
   * asked for only when the relay is not configured; a failure there is the failure of
   * the whole call.
   */
  function MakeTransport(env: map<string, string>, account: Result<TestAccount, string>): (r: Result<Channel, string>)
    ensures r.Failure? <==> !HasSmtpConfig(env) && account.Failure?
    ensures r.Success? ==> r.value.isTest == !HasSmtpConfig(env) && r.value.from != ""
    ensures r.Success? && r.value.isTest ==>
      && r.value.from == "Demo Sender <" + account.value.user + ">"
      && r.value.host == account.value.host && r.value.port == Some(account.value.port)
      && r.value.secure == account.value.secure
      && r.value.user == account.value.user && r.value.pass == account.value.pass
    ensures r.Success? && !r.value.isTest ==>
      && r.value.host == Env(env, "SMTP_HOST") && r.value.port == SmtpPort(env) && !r.value.secure
      && r.value.user == Env(env, "SMTP_USER") && r.value.pass == Env(env, "SMTP_PASS")
      && r.value.from == (if Env(env, "SMTP_FROM") != "" then Env(env, "SMTP_FROM") else Env(env, "SMTP_USER"))
  {
    if !HasSmtpConfig(env) then
      match account
      case Failure(e) => Failure(e)
      case Success(test) =>
        Success(Channel(test.host, Some(test.port), test.secure, test.user, test.pass,
                        "Demo Sender <" + test.user + ">", true))
    else
      var user := Env(env, "SMTP_USER");
      var from := Env(env, "SMTP_FROM");
      Success(Channel(Env(env, "SMTP_HOST"), SmtpPort(env), false, user, Env(env, "SMTP_PASS"),
                      if from != "" then from else user, false))
  }

  /** A configured relay never depends on the test account: any two outcomes give the same channel. */
  lemma ConfiguredRelayIgnoresTestAccount(env: map<string, string>, a: Result<TestAccount, string>, b: Result<TestAccount, string>)
    requires HasSmtpConfig(env)
    ensures MakeTransport(env, a) == MakeTransport(env, b)
  {
  }

  /** A port written as a decimal numeral is the port used. */
  lemma ConfiguredPortIsUsed(env: map<string, string>, n: nat)
    requires Env(env, "SMTP_PORT") == Decimal(n)
    ensures SmtpPort(env) == Some(n)
  {
    JsNumberDecimal(n);
  }

  // ---------------------------------------------------------------------------
  // The `send_email` tool's answer

  const QueuedPrefix := "Queued email: "
  const PreviewPrefix := "\nPreview (Ethereal): "

  /**
   * The tool's text: the message id, and on a second line the preview address when the
   * mail went through a test account and a preview address exists ("" when there is none).
   */
  function SendEmailToolText(messageId: string, previewUrl: string, isTest: bool): (text: string)
    ensures |QueuedPrefix| + |messageId| <= |text| && text[..|QueuedPrefix| + |messageId|] == QueuedPrefix + messageId
  {
    QueuedPrefix + messageId + (if isTest && previewUrl != "" then PreviewPrefix + previewUrl else "")
  }

  /** Reads a tool text back into its message id and preview address ("" when absent). */
  function ReadToolText(text: string): Option<(string, string)> {
    if |text| < |QueuedPrefix| || text[..|QueuedPrefix|] != QueuedPrefix then None
    else
      var rest := text[|QueuedPrefix|..];
      var k := IndexOf(rest, '\n');
      if k < 0 then Some((rest, ""))
      else
        var line2 := rest[k..];
        if |line2| >= |PreviewPrefix| && line2[..|PreviewPrefix|] == PreviewPrefix then
          Some((rest[..k], line2[|PreviewPrefix|..]))
        else None
  }

  /**
   * The text carries the message id intact, and the preview address exactly when the
   * mail went to a test account that produced one.
   */
  lemma ToolTextRoundTrip(messageId: string, previewUrl: string, isTest: bool)
    requires '\n' !in messageId
    ensures ReadToolText(SendEmailToolText(messageId, previewUrl, isTest))
         == Some((messageId, if isTest && previewUrl != "" then previewUrl else ""))
  {
    var text := SendEmailToolText(messageId, previewUrl, isTest);
    assert text[..|QueuedPrefix|] == QueuedPrefix;
    var rest := text[|QueuedPrefix|..];
    if isTest && previewUrl != "" {
      assert rest == messageId + PreviewPrefix + previewUrl;
      assert rest[|messageId|] == '\n';
      assert rest[..|messageId|] == messageId;
      assert IndexOf(rest, '\n') == |messageId|;
      assert rest[|messageId|..] == PreviewPrefix + previewUrl;
    } else {
      assert rest == messageId;
    }
  }

  /** The preview line is present exactly for a test account with a preview address. */
  lemma PreviewLineIffTestWithPreview(messageId: string, previewUrl: string, isTest: bool)
    requires '\n' !in messageId
    ensures '\n' in SendEmailToolText(messageId, previewUrl, isTest) <==> isTest && previewUrl != ""
  {
    var text := SendEmailToolText(messageId, previewUrl, isTest);
    if isTest && previewUrl != "" {
      assert text[|QueuedPrefix| + |messageId|] == '\n';
    } else {
      assert text == QueuedPrefix + messageId;
      assert '\n' !in QueuedPrefix;
    }
  }
}
