/** `send_email_alert`: the credential gate in front of SMTP delivery, and a
    mailer object that records what it was asked to send and which deliveries
    it attempted. The SMTP exchange itself is not modelled; its outcome is
    supplied by the caller and swallowed, as the source's handlers do. */
module Mail {
  import opened Wrappers

  /** A value read with `os.environ.get`: absent, or a string. */
  type EnvValue = Option<string>

  /** Python truthiness of such a value: `None` and `""` are false. */
  predicate Truthy(v: EnvValue)
  {
    v.Some? && v.value != ""
  }

  /** Python's `all(values)`. */
  function All(values: seq<EnvValue>): (r: bool)
    ensures r <==> forall i :: 0 <= i < |values| ==> Truthy(values[i])
    decreases |values|
  {
    if values == [] then true
    else Truthy(values[0]) && All(values[1..])
  }

  datatype Credentials = Credentials(sender: EnvValue, password: EnvValue, receiver: EnvValue)

  /** The gate `all([SENDER_EMAIL, SENDER_PASSWORD, RECEIVER_EMAIL])`. */
  function CredentialsPresent(c: Credentials): bool
  {
    All([c.sender, c.password, c.receiver])
  }

  /** The gate is closed exactly when one of the three values is missing or
      empty. */
  lemma GateClosedIff(c: Credentials)
    ensures !CredentialsPresent(c)
        <==> c.sender in {None, Some("")} || c.password in {None, Some("")} || c.receiver in {None, Some("")}
  {
    var vs := [c.sender, c.password, c.receiver];
    assert vs[0] == c.sender && vs[1] == c.password && vs[2] == c.receiver;
  }

  /** What `send_email_alert` is called with. */
  datatype Email = Email(subject: string, body: string)

  /** How the SMTP exchange ends: the two handled failures are swallowed. */
  datatype DeliveryStatus = Delivered | AuthenticationFailed | OtherFailure(message: string)

  /** One attempt at SMTP delivery: envelope sender and receiver, the alert,
      and how the exchange ended. */
  datatype Attempt = Attempt(from: string, to: string, email: Email, status: DeliveryStatus)

  /** The delivery attempts one call of `send_email_alert` makes: one when the
      gate is open, none otherwise. */
  function AttemptsFor(c: Credentials, email: Email, status: DeliveryStatus): (r: seq<Attempt>)
    ensures |r| <= 1
    ensures |r| == 1 <==> CredentialsPresent(c)
    ensures |r| == 1 ==>
      r[0].email == email && r[0].status == status && Some(r[0].from) == c.sender && Some(r[0].to) == c.receiver
  {
    if CredentialsPresent(c) then
      assert Truthy([c.sender, c.password, c.receiver][0]) && Truthy([c.sender, c.password, c.receiver][2]);
      [Attempt(c.sender.value, c.receiver.value, email, status)]
    else []
  }

  /** The alert sender, with credentials fixed when it is created (the
      source reads them from the environment once, at start-up). */
  class Mailer {
    const credentials: Credentials
    /** Every call of `send_email_alert`, in order. */
    var calls: seq<Email>
    /** Every delivery attempted over SMTP, in order. */
    var attempts: seq<Attempt>

    constructor (credentials: Credentials)
      ensures this.credentials == credentials
      ensures calls == [] && attempts == []
    {
      this.credentials := credentials;
      calls := [];
      attempts := [];
    }

    /** `send_email_alert(subject, body)`: returns nothing on every path.
        Without full credentials it attempts no delivery; otherwise it attempts
        exactly one, whose outcome `status` is swallowed. */
    method SendEmailAlert(subject: string, body: string, status: DeliveryStatus)
      modifies this
      ensures calls == old(calls) + [Email(subject, body)]
      ensures attempts == old(attempts) + AttemptsFor(credentials, Email(subject, body), status)
    {
      calls := calls + [Email(subject, body)];
      if !CredentialsPresent(credentials) {
        return;
      }
      assert Truthy([credentials.sender, credentials.password, credentials.receiver][0]);
      assert Truthy([credentials.sender, credentials.password, credentials.receiver][2]);
      attempts := attempts + [Attempt(credentials.sender.value, credentials.receiver.value, Email(subject, body), status)];
    }
  }
}
