/**
 * The first email service implementation: alias records written straight
 * to the store (no verification gate, no provider call) and the
 * composition of the verification message that is handed to SMTP.
 */
module EmailSvc {
  import opened Wrappers
  import opened Models
  import opened Store
  import opened Proto
  import opened Outside

  datatype Config = Config(smtpHost: string, smtpPort: string, smtpUsername: string, smtpPassword: string,
                           fromEmail: string)

  const CRLF: string := "\r\n"
  const VerificationSubject: string := "Verify your email address"

  /** The link the recipient follows; `baseUrl` is the BASE_URL environment value. */
  function VerificationLink(baseUrl: string, token: string): string {
    baseUrl + "/verify?token=" + token
  }

  predicate OccursAt(s: string, part: string, k: nat) {
    k + |part| <= |s| && s[k..k + |part|] == part
  }

  predicate Contains(s: string, part: string) {
    exists k: nat :: k <= |s| && OccursAt(s, part, k)
  }

  /** The text before and after the verification link in the message body. */
  const BodyHead: string := "\n\t\tHello,\n\n\t\tPlease verify your email address by clicking the following link:\n\t\t"
  const BodyTail: string := "\n\n\t\tThis link will expire in 24 hours.\n\n\t\tBest regards,\n\t\tThe AliasMe Team\n\t"

  /** The message body: a greeting, the verification link on its own line, and a sign-off. */
  function VerificationBody(baseUrl: string, token: string): (body: string)
    ensures Contains(body, VerificationLink(baseUrl, token))
  {
    var head := BodyHead;
    var tail := BodyTail;
    var link := VerificationLink(baseUrl, token);
    assert OccursAt(head + link + tail, link, |head|);
    head + link + tail
  }

  /** The message text: From, To and Subject header lines, a blank line, the body and a final line break. */
  function ComposeMessage(from: string, to: string, subject: string, body: string): string {
    "From: " + from + CRLF + "To: " + to + CRLF + "Subject: " + subject + CRLF + CRLF + body + CRLF
  }

  /** Splits off the first line (up to the first CRLF) of a message. */
  function SplitLine(s: string): (r: Option<(string, string)>)
    ensures r.Some? ==> |r.value.1| <= |s| - 2
    decreases |s|
  {
    if |s| < 2 then None
    else if s[0] == '\r' && s[1] == '\n' then Some(([], s[2..]))
    else
      match SplitLine(s[1..])
      case None => None
      case Some((line, rest)) => Some(([s[0]] + line, rest))
  }

  /** The header lines of a message (those before the first empty line) and what follows the empty line. */
  function HeaderLines(s: string): (r: Option<(seq<string>, string)>)
    decreases |s|
  {
    match SplitLine(s)
    case None => None
    case Some((line, rest)) =>
      if line == [] then Some(([], rest))
      else
        match HeaderLines(rest)
        case None => None
        case Some((lines, body)) => Some(([line] + lines, body))
  }

  lemma {:induction false} SplitLineAt(line: string, rest: string)
    requires NoLineBreak(line)
    ensures SplitLine(line + CRLF + rest) == Some((line, rest))
    decreases |line|
  {
    var s := line + CRLF + rest;
    if line == [] {
      assert s == CRLF + rest;
      assert s[2..] == rest;
    } else {
      assert s[1..] == line[1..] + CRLF + rest;
      SplitLineAt(line[1..], rest);
      assert [s[0]] + line[1..] == line;
    }
  }

  /** One header line in front of a parsable rest adds that line in front of the rest's header lines. */
  lemma HeaderStep(line: string, rest: string)
    requires NoLineBreak(line) && line != []
    requires HeaderLines(rest).Some?
    ensures HeaderLines(line + CRLF + rest) == Some(([line] + HeaderLines(rest).value.0, HeaderLines(rest).value.1))
  {
    SplitLineAt(line, rest);
  }

  /** A message whose first line is empty has no header lines. */
  lemma NoHeaders(rest: string)
    ensures HeaderLines(CRLF + rest) == Some(([], rest))
  {
    SplitLineAt([], rest);
    assert [] + CRLF + rest == CRLF + rest;
  }

  /**
   * A message composed from header values without line breaks has exactly
   * the three header lines From, To, Subject, in that order, followed by
   * the body.
   */
  lemma ComposeParses(from: string, to: string, subject: string, body: string)
    requires NoLineBreak(from) && NoLineBreak(to) && NoLineBreak(subject)
    ensures HeaderLines(ComposeMessage(from, to, subject, body))
            == Some((["From: " + from, "To: " + to, "Subject: " + subject], body + CRLF))
  {
    var l1, l2, l3 := "From: " + from, "To: " + to, "Subject: " + subject;
    var r3 := CRLF + body + CRLF;
    var r2 := l3 + CRLF + r3;
    var r1 := l2 + CRLF + r2;
    assert ComposeMessage(from, to, subject, body) == l1 + CRLF + r1;
    assert NoLineBreak(l1) && NoLineBreak(l2) && NoLineBreak(l3);
    NoHeaders(body + CRLF);
    assert r3 == CRLF + (body + CRLF);
    HeaderStep(l3, r3);
    HeaderStep(l2, r2);
    HeaderStep(l1, r1);
    assert [l1] + ([l2] + ([l3] + [])) == [l1, l2, l3];
  }

  /**
   * The To value is not checked when the text is composed: an address
   * carrying a line break would put a header line of the requester's
   * choosing into the message. `Sendable` fails for such an address, so
   * SendMail refuses it before anything is sent.
   */
  lemma AddressInjectsHeader(from: string, address: string, extra: string, subject: string, body: string)
    requires NoLineBreak(from) && NoLineBreak(address) && NoLineBreak(extra) && NoLineBreak(subject)
    requires extra != []
    ensures HeaderLines(ComposeMessage(from, address + CRLF + extra, subject, body))
            == Some((["From: " + from, "To: " + address, extra, "Subject: " + subject], body + CRLF))
  {
    var l1, l2, l3, l4 := "From: " + from, "To: " + address, extra, "Subject: " + subject;
    var r4 := CRLF + body + CRLF;
    var r3 := l4 + CRLF + r4;
    var r2 := l3 + CRLF + r3;
    var r1 := l2 + CRLF + r2;
    assert ComposeMessage(from, address + CRLF + extra, subject, body) == l1 + CRLF + r1;
    assert NoLineBreak(l1) && NoLineBreak(l2) && NoLineBreak(l4);
    NoHeaders(body + CRLF);
    assert r4 == CRLF + (body + CRLF);
    HeaderStep(l4, r4);
    HeaderStep(l3, r3);
    HeaderStep(l2, r2);
    HeaderStep(l1, r1);
    assert [l1] + ([l2] + ([l3] + ([l4] + []))) == [l1, l2, l3, l4];
  }

  /** The verification mail passes SMTP's own check: sender and recipient are single lines. */
  predicate Sendable(cfg: Config, to: string) {
    NoLineBreak(cfg.fromEmail) && NoLineBreak(to)
  }

  /** What SendVerificationEmail hands to SMTP: server, account, sender, the one recipient and the message. */
  function VerificationEnvelope(cfg: Config, baseUrl: string, to: string, token: string): Envelope {
    Envelope(cfg.smtpHost + ":" + cfg.smtpPort, cfg.smtpUsername, cfg.fromEmail, [to],
             ComposeMessage(cfg.fromEmail, to, VerificationSubject, VerificationBody(baseUrl, token)))
  }

  /** The verification envelope goes to the address alone and its body carries the link with the token. */
  lemma EnvelopeCarriesToken(cfg: Config, baseUrl: string, to: string, token: string)
    requires NoLineBreak(cfg.fromEmail) && NoLineBreak(to)
    ensures var env := VerificationEnvelope(cfg, baseUrl, to, token);
            && env.to == [to]
            && HeaderLines(env.msg) == Some((["From: " + cfg.fromEmail, "To: " + to, "Subject: " + VerificationSubject],
                                             VerificationBody(baseUrl, token) + CRLF))
            && Contains(VerificationBody(baseUrl, token), VerificationLink(baseUrl, token))
  {
    ComposeParses(cfg.fromEmail, to, VerificationSubject, VerificationBody(baseUrl, token));
  }

  /** Selects the live alias with primary key `id`. */
  function AliasIdIs(id: string): Alias -> bool {
    (a: Alias) => AliasLive(a) && a.id == id
  }

  /** Selects the live aliases of a user (`"user_id = ?"`). */
  function OwnedBy(userId: string): Alias -> bool {
    (a: Alias) => AliasLive(a) && a.userId == userId
  }

  /** A live-alias lookup by id finds exactly the row with that id. */
  lemma FirstAliasById(aliases: seq<Alias>, id: string, i: nat)
    requires UniqueKeys(aliases, AliasKeys)
    requires i < |aliases| && AliasLive(aliases[i]) && aliases[i].id == id
    ensures First(aliases, AliasId, AliasIdIs(id)) == Some(i)
  {
    var r := First(aliases, AliasId, AliasIdIs(id));
    AliasKeysUnique(aliases, r.value, i);
  }

  /**
   * CreateAlias of this implementation: no check of the email reference or
   * its verification, and the stored alias address is the bare prefix.
   */
  function CreateAliasSpec(aliases: seq<Alias>, req: CreateAliasRequest, id: string, now: Time)
    : (r: (seq<Alias>, Result<AliasMsg>))
    ensures r.1.Err? ==> r.0 == aliases && r.1.error == UniqueViolation
    ensures (forall j :: 0 <= j < |aliases| ==> aliases[j].id != id && aliases[j].aliasAddress != req.aliasPrefix)
            ==> r.1.Ok?
    ensures r.1.Ok? ==> |r.0| == |aliases| + 1 && r.0[..|aliases|] == aliases
                        && r.0[|aliases|] == Alias(id, req.userId, req.emailId, req.aliasPrefix, now, now, None)
                        && r.1.value == AliasToMsg(r.0[|aliases|])
    ensures UniqueKeys(aliases, AliasKeys) ==> UniqueKeys(r.0, AliasKeys)
  {
    var alias := Alias(id, req.userId, req.emailId, req.aliasPrefix, now, now, None);
    match Insert(aliases, AliasKeys, alias)
    case Err(e) => (aliases, Err(e))
    case Ok(rows) => (rows, Ok(AliasToMsg(alias)))
  }

  /** GetAlias: not-found exactly when no live alias has the id; otherwise that row's fields. */
  function GetAliasSpec(aliases: seq<Alias>, id: string): (r: Result<AliasMsg>)
    ensures r.Err? <==> forall k :: 0 <= k < |aliases| ==> !(AliasLive(aliases[k]) && aliases[k].id == id)
    ensures r.Err? ==> r.error == RecordNotFound
    ensures r.Ok? ==> exists k :: 0 <= k < |aliases| && AliasLive(aliases[k]) && aliases[k].id == id
                                  && r.value == AliasToMsg(aliases[k])
  {
    match First(aliases, AliasId, AliasIdIs(id))
    case None => Err(RecordNotFound)
    case Some(i) => Ok(AliasToMsg(aliases[i]))
  }

  /**
   * UpdateAlias (both implementations): overwrites the email reference, the
   * alias address (with the bare prefix) and the update time of the live
   * row with the id; everything else about the row, and every other row,
   * is kept. The provider is not told.
   */
  function UpdateAliasSpec(aliases: seq<Alias>, req: UpdateAliasRequest, now: Time)
    : (r: (seq<Alias>, Result<AliasMsg>))
    ensures r.1.Err? ==> r.0 == aliases && (r.1.error == RecordNotFound || r.1.error == UniqueViolation)
    ensures r.1 == Err(RecordNotFound) <==>
            forall k :: 0 <= k < |aliases| ==> !(AliasLive(aliases[k]) && aliases[k].id == req.id)
    ensures UniqueKeys(aliases, AliasKeys) ==>
            forall i :: 0 <= i < |aliases| && AliasLive(aliases[i]) && aliases[i].id == req.id
                        && (forall k :: 0 <= k < |aliases| && k != i ==> aliases[k].aliasAddress != req.aliasPrefix)
                        ==> r.1.Ok?
    ensures r.1.Ok? ==> |r.0| == |aliases|
                        && (exists i :: 0 <= i < |aliases| && AliasLive(aliases[i]) && aliases[i].id == req.id
                              && r.0[i] == aliases[i].(emailId := req.emailId, aliasAddress := req.aliasPrefix,
                                                       updatedAt := now)
                              && r.1.value == AliasToMsg(r.0[i])
                              && forall k :: 0 <= k < |aliases| && k != i ==> r.0[k] == aliases[k])
    ensures UniqueKeys(aliases, AliasKeys) ==> UniqueKeys(r.0, AliasKeys)
  {
    match First(aliases, AliasId, AliasIdIs(req.id))
    case None => (aliases, Err(RecordNotFound))
    case Some(i) =>
      var alias := aliases[i].(emailId := req.emailId, aliasAddress := req.aliasPrefix, updatedAt := now);
      match Save(aliases, AliasKeys, i, alias)
      case Err(e) => (aliases, Err(e))
      case Ok(rows) => (rows, Ok(AliasToMsg(alias)))
  }

  /** The rows ListAliases reports for a user: its live aliases, in rowid order. */
  function ListedRows(aliases: seq<Alias>, userId: string): (rows: seq<Alias>)
    ensures forall a :: multiset(rows)[a] == if AliasLive(a) && a.userId == userId then multiset(aliases)[a] else 0
  {
    Filter(aliases, OwnedBy(userId))
  }

  /** After DeleteAlias(id) the row is still stored, yet no listing reports it. */
  lemma DeletedAliasNotListed(aliases: seq<Alias>, id: string, now: Time, userId: string)
    ensures |DeleteAliases(aliases, id, now)| == |aliases|
    ensures forall a :: a in ListedRows(DeleteAliases(aliases, id, now), userId) ==> a.id != id
  {
    var after := DeleteAliases(aliases, id, now);
    forall a | a in ListedRows(after, userId)
      ensures a.id != id
    {
      assert multiset(ListedRows(after, userId))[a] > 0;
      assert a in after;
    }
  }

  /** After DeleteAlias(id), GetAlias(id) fails. */
  lemma DeletedAliasNotFound(aliases: seq<Alias>, id: string, now: Time)
    ensures GetAliasSpec(DeleteAliases(aliases, id, now), id) == Err(RecordNotFound)
  {
  }

  /** Fills the response list one element per stored row, as the source's `for i, alias := range` loop does. */
  method AliasMessages(rows: seq<Alias>) returns (out: seq<AliasMsg>)
    ensures |out| == |rows|
    ensures forall i :: 0 <= i < |rows| ==> out[i] == AliasToMsg(rows[i])
  {
    var msgs := new AliasMsg[|rows|];
    for i := 0 to |rows|
      invariant forall k :: 0 <= k < i ==> msgs[k] == AliasToMsg(rows[k])
    {
      msgs[i] := AliasToMsg(rows[i]);
    }
    out := msgs[..];
  }

  class Service {
    const db: Db
    const config: Config
    const mailer: Mailer

    constructor (db: Db, config: Config, mailer: Mailer)
      ensures this.db == db && this.config == config && this.mailer == mailer
    {
      this.db := db;
      this.config := config;
      this.mailer := mailer;
    }

    method CreateAlias(req: CreateAliasRequest, id: string, now: Time) returns (r: Result<AliasMsg>)
      requires db.Valid()
      modifies db
      ensures db.Valid() && db.users == old(db.users) && db.emails == old(db.emails)
      ensures (db.aliases, r) == CreateAliasSpec(old(db.aliases), req, id, now)
    {
      var alias := Alias(id, req.userId, req.emailId, req.aliasPrefix, now, now, None);
      var err := db.CreateAlias(alias);
      if err.Some? {
        return Err(err.value);
      }
      r := Ok(AliasToMsg(alias));
    }

    method GetAlias(req: GetAliasRequest) returns (r: Result<AliasMsg>)
      ensures r == GetAliasSpec(db.aliases, req.id)
    {
      var found := First(db.aliases, AliasId, AliasIdIs(req.id));
      if found.None? {
        return Err(RecordNotFound);
      }
      var alias := db.aliases[found.value];
      r := Ok(AliasToMsg(alias));
    }

    method UpdateAlias(req: UpdateAliasRequest, now: Time) returns (r: Result<AliasMsg>)
      requires db.Valid()
      modifies db
      ensures db.Valid() && db.users == old(db.users) && db.emails == old(db.emails)
      ensures (db.aliases, r) == UpdateAliasSpec(old(db.aliases), req, now)
    {
      var found := First(db.aliases, AliasId, AliasIdIs(req.id));
      if found.None? {
        return Err(RecordNotFound);
      }
      var alias := db.aliases[found.value];
      alias := alias.(emailId := req.emailId);
      alias := alias.(aliasAddress := req.aliasPrefix);
      alias := alias.(updatedAt := now);
      var err := db.SaveAlias(found.value, alias);
      if err.Some? {
        return Err(err.value);
      }
      r := Ok(AliasToMsg(alias));
    }

    method DeleteAlias(req: DeleteAliasRequest, now: Time) returns (r: Result<DeleteAliasResponse>)
      requires db.Valid()
      modifies db
      ensures db.Valid() && db.users == old(db.users) && db.emails == old(db.emails)
      ensures db.aliases == DeleteAliases(old(db.aliases), req.id, now)
      ensures r == Ok(DeleteAliasResponse(true))
    {
      db.DeleteAlias(req.id, now);
      r := Ok(DeleteAliasResponse(true));
    }

    method ListAliases(req: ListAliasesRequest) returns (r: Result<ListAliasesResponse>)
      ensures r.Ok? && |r.value.aliases| == |ListedRows(db.aliases, req.userId)|
      ensures forall i :: 0 <= i < |r.value.aliases| ==>
                r.value.aliases[i] == AliasToMsg(ListedRows(db.aliases, req.userId)[i])
    {
      var rows := Filter(db.aliases, OwnedBy(req.userId));
      var msgs := AliasMessages(rows);
      r := Ok(ListAliasesResponse(msgs));
    }

    /** `baseUrl` is the BASE_URL environment value; `accepted` is the SMTP server's answer. */
    method SendVerificationEmail(to: string, token: string, baseUrl: string, accepted: bool)
      returns (err: Option<Error>)
      modifies mailer
      ensures accepted && Sendable(config, to) ==>
                mailer.sent == old(mailer.sent) + [VerificationEnvelope(config, baseUrl, to, token)] && err == None
      ensures !(accepted && Sendable(config, to)) ==> mailer.sent == old(mailer.sent) && err == Some(MailFailure)
    {
      var subject := VerificationSubject;
      var body := VerificationBody(baseUrl, token);
      var msg := ComposeMessage(config.fromEmail, to, subject, body);
      assert ValidAddresses(config.fromEmail, [to]) <==> Sendable(config, to) by {
        assert [to][0] == to;
      }
      err := mailer.SendMail(config.smtpHost + ":" + config.smtpPort, config.smtpUsername, config.fromEmail,
                             [to], msg, accepted);
    }
  }
}
