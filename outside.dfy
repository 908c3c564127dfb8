/**
 * The two outside collaborators the workflows call: the alias provider
 * (an HTTP API) and the SMTP server. Each call's outcome is an input
 * (`accepted`); what each side has accepted so far is its state.
 */
module Outside {
  import opened Wrappers

  /** A forwarding rule held by the provider: mail to prefix@domain goes to target. */
  datatype Rule = Rule(domain: string, prefix: string, target: string)

  class Provider {
    var rules: seq<Rule>

    constructor ()
      ensures rules == []
    {
      rules := [];
    }

    /** `ovhClient.CreateEmailAlias(domain, alias, target)`. */
    method CreateEmailAlias(domain: string, alias: string, target: string, accepted: bool)
      returns (err: Option<Error>)
      modifies this
      ensures accepted ==> rules == old(rules) + [Rule(domain, alias, target)] && err == None
      ensures !accepted ==> rules == old(rules) && err == Some(ProviderFailure)
    {
      if accepted {
        rules := rules + [Rule(domain, alias, target)];
        err := None;
      } else {
        err := Some(ProviderFailure);
      }
    }
  }

  /** A value that may stand on one protocol line: it holds no CR and no LF. */
  predicate NoLineBreak(s: string) {
    forall k :: 0 <= k < |s| ==> s[k] != '\r' && s[k] != '\n'
  }

  /** What `smtp.SendMail` checks before it connects: the sender and every recipient are single lines. */
  predicate ValidAddresses(from: string, to: seq<string>) {
    NoLineBreak(from) && forall i :: 0 <= i < |to| ==> NoLineBreak(to[i])
  }

  /** One message handed to `smtp.SendMail(server, auth, from, to, msg)`. */
  datatype Envelope = Envelope(server: string, username: string, from: string, to: seq<string>, msg: string)

  class Mailer {
    var sent: seq<Envelope>

    constructor ()
      ensures sent == []
    {
      sent := [];
    }

    method SendMail(server: string, username: string, from: string, to: seq<string>, msg: string, accepted: bool)
      returns (err: Option<Error>)
      modifies this
      ensures accepted && ValidAddresses(from, to) ==>
                sent == old(sent) + [Envelope(server, username, from, to, msg)] && err == None
      ensures !(accepted && ValidAddresses(from, to)) ==> sent == old(sent) && err == Some(MailFailure)
    {
      if !ValidAddresses(from, to) {
        err := Some(MailFailure);
      } else if accepted {
        sent := sent + [Envelope(server, username, from, to, msg)];
        err := None;
      } else {
        err := Some(MailFailure);
      }
    }
  }
}
