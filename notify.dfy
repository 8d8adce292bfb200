/**
 * The e-mail notification sent after a submission (send_order_email and
 * send_contact_email), reduced to its outcome. Reading the environment and talking
 * to the mail relay are inputs here: `env` holds the process environment and
 * `relay` says whether connecting, STARTTLS, login and sending all succeed.
 */
module Notify {
  import opened Wrappers
  import opened Decimal
  import opened Json

  type Env = map<string, string>

  /** Whether the relay session (connect, STARTTLS, login, send, quit) goes through. */
  datatype Relay = RelayAccepts | RelayFails

  /** What a sender does. `Raised` is an exception that escapes the sender to its caller. */
  datatype MailOutcome =
    | Skipped   // SMTP_USER or SMTP_PASSWORD is empty: logged, nothing sent
    | Sent      // the message went out
    | Failed    // the relay session failed; the sender caught and logged the exception
    | Raised    // int(SMTP_PORT) failed before the sender's own try block

  const DefaultPort: string := "587"

  /**
   * The outcome of one notification. Both senders read SMTP_PORT with int() outside their
   * try block, then skip when a credential is empty, and catch every failure of the relay.
   */
  function SendEmail(env: Env, relay: Relay): (m: MailOutcome)
    ensures m == Raised <==> ParseIntLiteral(GetOrDefault(env, "SMTP_PORT", DefaultPort)).None?
    ensures m == Skipped <==>
      && ParseIntLiteral(GetOrDefault(env, "SMTP_PORT", DefaultPort)).Some?
      && (GetOrDefault(env, "SMTP_USER", "") == "" || GetOrDefault(env, "SMTP_PASSWORD", "") == "")
    ensures m == Sent <==>
      && ParseIntLiteral(GetOrDefault(env, "SMTP_PORT", DefaultPort)).Some?
      && GetOrDefault(env, "SMTP_USER", "") != "" && GetOrDefault(env, "SMTP_PASSWORD", "") != ""
      && relay == RelayAccepts
  {
    if ParseIntLiteral(GetOrDefault(env, "SMTP_PORT", DefaultPort)).None? then Raised
    else if GetOrDefault(env, "SMTP_USER", "") == "" || GetOrDefault(env, "SMTP_PASSWORD", "") == "" then Skipped
    else if relay == RelayAccepts then Sent
    else Failed
  }

  /** With no credentials configured, and the default port, nothing is attempted. */
  lemma NoCredentialsSkips(env: Env, relay: Relay)
    requires "SMTP_PORT" !in env && "SMTP_USER" !in env
    ensures SendEmail(env, relay) == Skipped
  {
    assert DefaultPort[1..] == "87";
    assert AllDigits(DefaultPort);
  }
}
