/**
 * The email service the server registers: email registration with a
 * verification token and mail, token verification, and alias creation
 * gated on a verified email the caller owns and mirrored at the provider.
 */
module EmailSvcImpl {
  import opened Wrappers
  import opened Models
  import opened Store
  import opened Proto
  import opened Outside
  import Uuid
  import Lex
  import EmailSvc

  /** The mail domain aliases are created under. */
  const Domain: string := "yourdomain.com"

  /** The address CreateAlias stores and mirrors: the prefix at the fixed domain. */
  function AliasAddressFor(prefix: string): string {
    prefix + "@" + Domain
  }

  /** generateToken: the text form of a random UUID drawn from 16 random bytes. */
  function GenerateToken(raw: seq<Uuid.byte>): (t: string)
    requires |raw| == 16
    ensures |t| == 36 && t != ""
    ensures t[14] == '4'
  {
    var u := Uuid.NewRandom(raw);
    var s := Uuid.Format(u);
    assert s[14..18] == Uuid.Hex(u[6..8]);
    assert u[6..8][0] == u[6];
    s
  }

  /** Tokens generated from draws that differ in their random bits differ. */
  lemma DistinctDrawsDistinctTokens(a: seq<Uuid.byte>, b: seq<Uuid.byte>)
    requires |a| == 16 && |b| == 16
    requires Uuid.NewRandom(a) != Uuid.NewRandom(b)
    ensures GenerateToken(a) != GenerateToken(b)
  {
    Uuid.FormatInjective(Uuid.NewRandom(a), Uuid.NewRandom(b));
  }

  /** Selects the live email rows carrying `token` (`"token = ?"`). */
  function TokenIs(token: string): Email -> bool {
    (e: Email) => EmailLive(e) && e.token == token
  }

  /** Selects the live, verified email `emailId` of user `userId` (`"id = ? AND user_id = ? AND verified = ?"`). */
  function VerifiedOwned(emailId: string, userId: string): Email -> bool {
    (e: Email) => EmailLive(e) && e.id == emailId && e.userId == userId && e.verified
  }

  /** The row RegisterEmail inserts: unverified, carrying the fresh token. */
  function PendingEmail(req: RegisterEmailRequest, token: string, id: string, now: Time): Email {
    Email(id, req.userId, req.emailAddress, false, token, now, now, None)
  }

  /**
   * RegisterEmail: inserts an unverified row with the fresh token, then
   * mails the link. An id or address already stored (tombstoned rows
   * included) fails before any mail; a failed send is reported but the
   * row stays. SMTP refuses an address with a line break before
   * connecting, so such a registration stores the row and sends nothing.
   */
  function RegisterEmailSpec(emails: seq<Email>, sent: seq<Envelope>, cfg: EmailSvc.Config, baseUrl: string,
                             req: RegisterEmailRequest, raw: seq<Uuid.byte>, id: string, now: Time,
                             delivered: bool): (r: (seq<Email>, seq<Envelope>, Result<EmailMsg>))
    requires |raw| == 16
    ensures (exists j :: 0 <= j < |emails| && (emails[j].id == id || emails[j].address == req.emailAddress))
            ==> r == (emails, sent, Err(UniqueViolation))
    ensures (forall j :: 0 <= j < |emails| ==> emails[j].id != id && emails[j].address != req.emailAddress)
            ==> var token := GenerateToken(raw);
                var sendable := delivered && EmailSvc.Sendable(cfg, req.emailAddress);
                && r.0 == emails + [PendingEmail(req, token, id, now)]
                && (sendable ==> r.1 == sent + [EmailSvc.VerificationEnvelope(cfg, baseUrl, req.emailAddress, token)]
                                 && r.2 == Ok(EmailToMsg(PendingEmail(req, token, id, now))))
                && (!sendable ==> r.1 == sent && r.2 == Err(MailFailure))
  {
    var token := GenerateToken(raw);
    var email := PendingEmail(req, token, id, now);
    match Insert(emails, EmailKeys, email)
    case Err(e) => (emails, sent, Err(e))
    case Ok(rows) =>
      if delivered && EmailSvc.Sendable(cfg, email.address) then
        (rows, sent + [EmailSvc.VerificationEnvelope(cfg, baseUrl, email.address, token)], Ok(EmailToMsg(email)))
      else (rows, sent, Err(MailFailure))
  }

  /**
   * RegisterEmail keeps the email table's invariants: unique columns, the
   * token/verified pairing, and (for a token no row carries yet) distinct
   * pending tokens.
   */
  lemma RegisterKeepsInvariants(emails: seq<Email>, sent: seq<Envelope>, cfg: EmailSvc.Config, baseUrl: string,
                                req: RegisterEmailRequest, raw: seq<Uuid.byte>, id: string, now: Time,
                                delivered: bool)
    requires |raw| == 16
    ensures var after := RegisterEmailSpec(emails, sent, cfg, baseUrl, req, raw, id, now, delivered).0;
            && (TokenState(emails) ==> TokenState(after))
            && (UniqueKeys(emails, EmailKeys) ==> UniqueKeys(after, EmailKeys))
            && (TokensDistinct(emails) && !TokenInUse(emails, GenerateToken(raw)) ==> TokensDistinct(after))
  {
    var token := GenerateToken(raw);
    var after := RegisterEmailSpec(emails, sent, cfg, baseUrl, req, raw, id, now, delivered).0;
    var r := Insert(emails, EmailKeys, PendingEmail(req, token, id, now));
    if r.Ok? {
      assert after == emails + [PendingEmail(req, token, id, now)];
      if TokenState(emails) {
        forall i | 0 <= i < |after|
          ensures after[i].token != "" <==> !after[i].verified
        {
          if i < |emails| { assert after[i] == emails[i]; }
        }
      }
      if TokensDistinct(emails) && !TokenInUse(emails, token) {
        forall i, j | 0 <= i < |after| && 0 <= j < |after| && i != j && after[i].token != ""
          ensures after[i].token != after[j].token
        {
          if i < |emails| && j < |emails| {
            assert after[i] == emails[i] && after[j] == emails[j];
          } else if i < |emails| {
            assert after[i] == emails[i];
          } else {
            assert after[j] == emails[j];
          }
        }
      }
    } else {
      assert after == emails;
    }
  }

  /**
   * An address carrying a line break gets its row stored, but no mail
   * leaves: SMTP refuses the recipient, so the injected header line never
   * reaches the server.
   */
  lemma LineBreakAddressNotMailed(emails: seq<Email>, sent: seq<Envelope>, cfg: EmailSvc.Config, baseUrl: string,
                                  req: RegisterEmailRequest, raw: seq<Uuid.byte>, id: string, now: Time,
                                  delivered: bool, k: nat)
    requires |raw| == 16
    requires k < |req.emailAddress| && (req.emailAddress[k] == '\r' || req.emailAddress[k] == '\n')
    ensures var r := RegisterEmailSpec(emails, sent, cfg, baseUrl, req, raw, id, now, delivered);
            r.1 == sent && r.2.Err?
  {
    assert !EmailSvc.Sendable(cfg, req.emailAddress);
  }

  /**
   * The token column has no index: a generated token equal to one already
   * stored is accepted, and the table then holds two rows with that token.
   */
  lemma DuplicateTokenAccepted(emails: seq<Email>, sent: seq<Envelope>, cfg: EmailSvc.Config, baseUrl: string,
                               req: RegisterEmailRequest, raw: seq<Uuid.byte>, id: string, now: Time,
                               delivered: bool, j: nat)
    requires |raw| == 16
    requires j < |emails| && emails[j].token == GenerateToken(raw)
    requires forall k :: 0 <= k < |emails| ==> emails[k].id != id && emails[k].address != req.emailAddress
    ensures var after := RegisterEmailSpec(emails, sent, cfg, baseUrl, req, raw, id, now, delivered).0;
            && |after| == |emails| + 1
            && after[j].token == after[|emails|].token
            && !TokensDistinct(after)
  {
    var after := RegisterEmailSpec(emails, sent, cfg, baseUrl, req, raw, id, now, delivered).0;
    assert after[j] == emails[j];
    assert after[|emails|].token == GenerateToken(raw);
  }

  /**
   * VerifyEmail: the live row with the token (the smallest id if several)
   * becomes verified with its token cleared and its update time set;
   * nothing else changes. No such row fails not-found.
   */
  function VerifyEmailSpec(emails: seq<Email>, token: string, now: Time): (r: (seq<Email>, Result<EmailMsg>))
    ensures (forall k :: 0 <= k < |emails| ==> !(EmailLive(emails[k]) && emails[k].token == token))
            ==> r == (emails, Err(RecordNotFound))
    ensures r.1.Err? ==> r.0 == emails
    ensures UniqueKeys(emails, EmailKeys) ==>
            (r.1.Ok? <==> exists k :: 0 <= k < |emails| && EmailLive(emails[k]) && emails[k].token == token)
    ensures r.1.Ok? ==>
            exists i :: 0 <= i < |emails| && EmailLive(emails[i]) && emails[i].token == token
              && (forall k :: 0 <= k < |emails| && EmailLive(emails[k]) && emails[k].token == token ==>
                    !Lex.Less(emails[k].id, emails[i].id))
              && r.0 == emails[i := emails[i].(verified := true, token := "", updatedAt := now)]
              && r.1.value == EmailToMsg(r.0[i])
    ensures TokenState(emails) ==> TokenState(r.0)
    ensures UniqueKeys(emails, EmailKeys) ==> UniqueKeys(r.0, EmailKeys)
    ensures TokensDistinct(emails) ==> TokensDistinct(r.0)
  {
    match First(emails, EmailId, TokenIs(token))
    case None => (emails, Err(RecordNotFound))
    case Some(i) =>
      var email := emails[i].(verified := true, token := "", updatedAt := now);
      assert EmailKeys(email) == EmailKeys(emails[i]);
      match Save(emails, EmailKeys, i, email)
      case Err(e) => (emails, Err(e))
      case Ok(rows) =>
        assert rows == emails[i := email];
        (rows, Ok(EmailToMsg(email)))
  }

  /** A token is single-use: once it has verified a row, the same token is not found again. */
  lemma VerifyTwiceFails(emails: seq<Email>, token: string, now: Time, later: Time)
    requires TokensDistinct(emails) && token != ""
    requires VerifyEmailSpec(emails, token, now).1.Ok?
    ensures VerifyEmailSpec(VerifyEmailSpec(emails, token, now).0, token, later).1 == Err(RecordNotFound)
  {
    var after := VerifyEmailSpec(emails, token, now).0;
    var i :| 0 <= i < |emails| && EmailLive(emails[i]) && emails[i].token == token
             && after == emails[i := emails[i].(verified := true, token := "", updatedAt := now)];
    forall k | 0 <= k < |after|
      ensures !(EmailLive(after[k]) && after[k].token == token)
    {
      if k != i {
        assert emails[i].token != emails[k].token;
      }
    }
  }

  /**
   * The empty token is not rejected: since verified rows hold the empty
   * token, VerifyEmail("") succeeds as soon as any live verified email
   * exists and reports that row (its id, owner and address).
   */
  lemma EmptyTokenFindsVerified(emails: seq<Email>, j: nat, now: Time)
    requires TokenState(emails) && UniqueKeys(emails, EmailKeys)
    requires j < |emails| && EmailLive(emails[j]) && emails[j].verified
    ensures VerifyEmailSpec(emails, "", now).1.Ok?
    ensures VerifyEmailSpec(emails, "", now).1.value.verified
  {
    assert emails[j].token == "";
  }

  /** Verifying the token of a row just appended, which no earlier row carries, verifies that row. */
  lemma VerifyAppended(emails: seq<Email>, row: Email, later: Time)
    requires UniqueKeys(emails + [row], EmailKeys)
    requires EmailLive(row) && !TokenInUse(emails, row.token)
    ensures var verified := VerifyEmailSpec(emails + [row], row.token, later);
            && verified.1.Ok?
            && verified.0 == emails + [row.(verified := true, token := "", updatedAt := later)]
  {
    var rows := emails + [row];
    var n := |emails|;
    var done := row.(verified := true, token := "", updatedAt := later);
    assert rows[n] == row;
    var verified := VerifyEmailSpec(rows, row.token, later);
    assert verified.1.Ok?;
    var i :| 0 <= i < |rows| && EmailLive(rows[i]) && rows[i].token == row.token
             && verified.0 == rows[i := rows[i].(verified := true, token := "", updatedAt := later)];
    assert i == n;
    assert rows[n := done] == emails + [done];
  }

  /** A freshly registered token (one no stored row carries) verifies exactly the row just registered. */
  lemma RegisterThenVerify(emails: seq<Email>, sent: seq<Envelope>, cfg: EmailSvc.Config, baseUrl: string,
                           req: RegisterEmailRequest, raw: seq<Uuid.byte>, id: string, now: Time,
                           delivered: bool, later: Time)
    requires |raw| == 16 && UniqueKeys(emails, EmailKeys)
    requires !TokenInUse(emails, GenerateToken(raw))
    requires forall j :: 0 <= j < |emails| ==> emails[j].id != id && emails[j].address != req.emailAddress
    ensures var registered := RegisterEmailSpec(emails, sent, cfg, baseUrl, req, raw, id, now, delivered).0;
            var verified := VerifyEmailSpec(registered, GenerateToken(raw), later);
            && verified.1.Ok?
            && verified.0 == emails + [PendingEmail(req, GenerateToken(raw), id, now).(verified := true, token := "",
                                                                                      updatedAt := later)]
  {
    var row := PendingEmail(req, GenerateToken(raw), id, now);
    RegisterKeepsInvariants(emails, sent, cfg, baseUrl, req, raw, id, now, delivered);
    VerifyAppended(emails, row, later);
  }

  /**
   * CreateAlias: looks up the live verified email the caller owns, asks the
   * provider to forward prefix@yourdomain.com to its address, then stores
   * the alias. The lookup failing touches nothing; the provider refusing
   * touches nothing locally; an address already stored fails after the
   * provider has accepted the rule.
   */
  function CreateAliasSpec(emails: seq<Email>, aliases: seq<Alias>, rules: seq<Rule>, req: CreateAliasRequest,
                           id: string, now: Time, accepted: bool): (r: (seq<Alias>, seq<Rule>, Result<AliasMsg>))
    ensures (forall k :: 0 <= k < |emails| ==> !VerifiedOwned(req.emailId, req.userId)(emails[k]))
            ==> r == (aliases, rules, Err(RecordNotFound))
    ensures !accepted ==> r.0 == aliases && r.1 == rules && r.2.Err?
    ensures r.1 != rules ==>
            exists i :: 0 <= i < |emails| && VerifiedOwned(req.emailId, req.userId)(emails[i])
                        && r.1 == rules + [Rule(Domain, req.aliasPrefix, emails[i].address)]
    ensures r.2.Ok? ==> r.1 != rules
                        && r.0 == aliases + [Alias(id, req.userId, req.emailId, AliasAddressFor(req.aliasPrefix),
                                                   now, now, None)]
                        && r.2.value == AliasToMsg(r.0[|aliases|])
    ensures r.2.Err? ==> r.0 == aliases
    ensures r.2 == Err(UniqueViolation) ==> r.1 != rules
    ensures accepted && (exists k :: 0 <= k < |emails| && VerifiedOwned(req.emailId, req.userId)(emails[k])) ==>
            var gate := First(emails, EmailId, VerifiedOwned(req.emailId, req.userId));
            && gate.Some?
            && r.1 == rules + [Rule(Domain, req.aliasPrefix, emails[gate.value].address)]
            && ((forall j :: 0 <= j < |aliases| ==>
                   aliases[j].id != id && aliases[j].aliasAddress != AliasAddressFor(req.aliasPrefix))
                <==> r.2.Ok?)
            && (r.2.Err? ==> r.2 == Err(UniqueViolation))
    ensures UniqueKeys(aliases, AliasKeys) ==> UniqueKeys(r.0, AliasKeys)
  {
    match First(emails, EmailId, VerifiedOwned(req.emailId, req.userId))
    case None => (aliases, rules, Err(RecordNotFound))
    case Some(i) =>
      var address := AliasAddressFor(req.aliasPrefix);
      if !accepted then (aliases, rules, Err(ProviderFailure))
      else
        var rules' := rules + [Rule(Domain, req.aliasPrefix, emails[i].address)];
        var alias := Alias(id, req.userId, req.emailId, address, now, now, None);
        match Insert(aliases, AliasKeys, alias)
        case Err(e) => (aliases, rules', Err(e))
        case Ok(rows) => (rows, rules', Ok(AliasToMsg(alias)))
  }

  /** An email that is not verified never gets an alias here, whoever asks and whatever the prefix. */
  lemma UnverifiedEmailGetsNoAlias(emails: seq<Email>, aliases: seq<Alias>, rules: seq<Rule>, j: nat,
                                   req: CreateAliasRequest, id: string, now: Time, accepted: bool)
    requires UniqueKeys(emails, EmailKeys)
    requires j < |emails| && emails[j].id == req.emailId && !emails[j].verified
    ensures CreateAliasSpec(emails, aliases, rules, req, id, now, accepted) == (aliases, rules, Err(RecordNotFound))
  {
    forall k | 0 <= k < |emails|
      ensures !VerifiedOwned(req.emailId, req.userId)(emails[k])
    {
      if emails[k].id == req.emailId {
        EmailKeysUnique(emails, k, j);
      }
    }
  }

  /** The same request the other implementation stores, with no gate, is refused here. */
  lemma GateDiffersFromUncheckedCreate(emails: seq<Email>, aliases: seq<Alias>, rules: seq<Rule>, j: nat,
                                       req: CreateAliasRequest, id: string, now: Time, accepted: bool)
    requires UniqueKeys(emails, EmailKeys)
    requires j < |emails| && emails[j].id == req.emailId && !emails[j].verified
    requires forall k :: 0 <= k < |aliases| ==> aliases[k].id != id && aliases[k].aliasAddress != req.aliasPrefix
    ensures CreateAliasSpec(emails, aliases, rules, req, id, now, accepted).2 == Err(RecordNotFound)
    ensures EmailSvc.CreateAliasSpec(aliases, req, id, now).1.Ok?
  {
    UnverifiedEmailGetsNoAlias(emails, aliases, rules, j, req, id, now, accepted);
  }

  /**
   * A tombstoned alias keeps its address in the unique index: creating the
   * same prefix again (gate passed, provider accepting) installs a second
   * provider rule and then fails, leaving that rule without a local row.
   */
  lemma DeletedAddressOrphansRule(emails: seq<Email>, aliases: seq<Alias>, rules: seq<Rule>, j: nat,
                                  deletedAt: Time, req: CreateAliasRequest, id: string, now: Time)
    requires j < |aliases| && aliases[j].aliasAddress == AliasAddressFor(req.aliasPrefix)
    requires exists k :: 0 <= k < |emails| && VerifiedOwned(req.emailId, req.userId)(emails[k])
    ensures var after := DeleteAliases(aliases, aliases[j].id, deletedAt);
            var r := CreateAliasSpec(emails, after, rules, req, id, now, true);
            && r.2 == Err(UniqueViolation) && r.0 == after && |r.1| == |rules| + 1
  {
    var after := DeleteAliases(aliases, aliases[j].id, deletedAt);
    assert after[j].aliasAddress == aliases[j].aliasAddress;
    var alias := Alias(id, req.userId, req.emailId, AliasAddressFor(req.aliasPrefix), now, now, None);
    assert Key(AliasAddress, alias.aliasAddress) in AliasKeys(after[j]) * AliasKeys(alias);
    assert Clash(after, AliasKeys, alias, -1);
  }

  /**
   * UpdateAlias after CreateAlias: the stored address becomes the bare
   * prefix while the provider keeps the rule for prefix@yourdomain.com.
   */
  lemma UpdateDriftsFromProvider(emails: seq<Email>, aliases: seq<Alias>, rules: seq<Rule>,
                                 req: CreateAliasRequest, id: string, now: Time, later: Time)
    requires UniqueKeys(aliases, AliasKeys)
    requires exists k :: 0 <= k < |emails| && VerifiedOwned(req.emailId, req.userId)(emails[k])
    requires forall k :: 0 <= k < |aliases| ==>
               && aliases[k].id != id
               && aliases[k].aliasAddress != AliasAddressFor(req.aliasPrefix)
               && aliases[k].aliasAddress != req.aliasPrefix
    ensures var created := CreateAliasSpec(emails, aliases, rules, req, id, now, true);
            var updated := EmailSvc.UpdateAliasSpec(created.0, UpdateAliasRequest(id, req.emailId, req.aliasPrefix),
                                                    later);
            && updated.1.Ok?
            && updated.0[|aliases|].aliasAddress == req.aliasPrefix
            && created.1[|rules|].prefix == req.aliasPrefix && created.1[|rules|].domain == Domain
            && updated.0[|aliases|].aliasAddress != AliasAddressFor(req.aliasPrefix)
  {
    var created := CreateAliasSpec(emails, aliases, rules, req, id, now, true);
    var n := |aliases|;
    EmailSvc.FirstAliasById(created.0, id, n);
    var alias := created.0[n].(emailId := req.emailId, aliasAddress := req.aliasPrefix, updatedAt := later);
    forall k | 0 <= k < |created.0| && k != n
      ensures AliasKeys(created.0[k]) !! AliasKeys(alias)
    {
      assert created.0[k] == aliases[k];
      assert AliasKeys(created.0[k]) !! AliasKeys(created.0[n]);
    }
    assert !Clash(created.0, AliasKeys, alias, n);
  }

  class EmailService {
    const db: Db
    const provider: Provider
    const emailService: EmailSvc.Service

    constructor (db: Db, provider: Provider, emailService: EmailSvc.Service)
      ensures this.db == db && this.provider == provider && this.emailService == emailService
    {
      this.db := db;
      this.provider := provider;
      this.emailService := emailService;
    }

    /**
     * `raw` are the 16 random bytes behind the token, `id` the generated
     * xid, `baseUrl` the BASE_URL value, `delivered` the SMTP outcome.
     */
    method RegisterEmail(req: RegisterEmailRequest, raw: seq<Uuid.byte>, id: string, now: Time,
                         baseUrl: string, delivered: bool) returns (r: Result<EmailMsg>)
      requires |raw| == 16 && db.Valid()
      modifies db, emailService.mailer
      ensures db.Valid() && db.users == old(db.users) && db.aliases == old(db.aliases)
      ensures (db.emails, emailService.mailer.sent, r)
              == RegisterEmailSpec(old(db.emails), old(emailService.mailer.sent), emailService.config, baseUrl,
                                   req, raw, id, now, delivered)
    {
      var token := GenerateToken(raw);
      var email := Email(id, req.userId, req.emailAddress, false, token, now, now, None);
      var err := db.CreateEmail(email);
      if err.Some? {
        return Err(err.value);
      }
      err := emailService.SendVerificationEmail(email.address, token, baseUrl, delivered);
      if err.Some? {
        return Err(err.value);
      }
      r := Ok(EmailToMsg(email));
    }

    method VerifyEmail(req: VerifyEmailRequest, now: Time) returns (r: Result<EmailMsg>)
      requires db.Valid()
      modifies db
      ensures db.Valid() && db.users == old(db.users) && db.aliases == old(db.aliases)
      ensures (db.emails, r) == VerifyEmailSpec(old(db.emails), req.token, now)
    {
      var found := First(db.emails, EmailId, TokenIs(req.token));
      if found.None? {
        return Err(RecordNotFound);
      }
      var email := db.emails[found.value];
      email := email.(verified := true);
      email := email.(token := "");
      email := email.(updatedAt := now);
      var err := db.SaveEmail(found.value, email);
      if err.Some? {
        return Err(err.value);
      }
      r := Ok(EmailToMsg(email));
    }

    /** `id` is the generated xid, `accepted` the provider's answer. */
    method CreateAlias(req: CreateAliasRequest, id: string, now: Time, accepted: bool) returns (r: Result<AliasMsg>)
      requires db.Valid()
      modifies db, provider
      ensures db.Valid() && db.users == old(db.users) && db.emails == old(db.emails)
      ensures (db.aliases, provider.rules, r)
              == CreateAliasSpec(old(db.emails), old(db.aliases), old(provider.rules), req, id, now, accepted)
    {
      var found := First(db.emails, EmailId, VerifiedOwned(req.emailId, req.userId));
      if found.None? {
        return Err(RecordNotFound);
      }
      var email := db.emails[found.value];
      var aliasAddress := req.aliasPrefix + "@yourdomain.com";
      assert aliasAddress == AliasAddressFor(req.aliasPrefix);
      var err := provider.CreateEmailAlias(Domain, req.aliasPrefix, email.address, accepted);
      if err.Some? {
        return Err(err.value);
      }
      var alias := Alias(id, req.userId, req.emailId, aliasAddress, now, now, None);
      err := db.CreateAlias(alias);
      if err.Some? {
        return Err(err.value);
      }
      r := Ok(AliasToMsg(alias));
    }

    method ListAliases(req: ListAliasesRequest) returns (r: Result<ListAliasesResponse>)
      ensures r.Ok? && |r.value.aliases| == |EmailSvc.ListedRows(db.aliases, req.userId)|
      ensures forall i :: 0 <= i < |r.value.aliases| ==>
                r.value.aliases[i] == AliasToMsg(EmailSvc.ListedRows(db.aliases, req.userId)[i])
    {
      var rows := Filter(db.aliases, EmailSvc.OwnedBy(req.userId));
      var protoAliases := EmailSvc.AliasMessages(rows);
      r := Ok(ListAliasesResponse(protoAliases));
    }

    method DeleteAlias(req: DeleteAliasRequest, now: Time) returns (r: Result<DeleteAliasResponse>)
      requires db.Valid()
      modifies db
      ensures db.Valid() && db.users == old(db.users) && db.emails == old(db.emails)
      ensures db.aliases == DeleteAliases(old(db.aliases), req.id, now)
      ensures r == Ok(DeleteAliasResponse(true))
    {
      db.DeleteAlias(req.id, now);
      r := Ok(DeleteAliasResponse(true));
    }

    method UpdateAlias(req: UpdateAliasRequest, now: Time) returns (r: Result<AliasMsg>)
      requires db.Valid()
      modifies db
      ensures db.Valid() && db.users == old(db.users) && db.emails == old(db.emails)
      ensures (db.aliases, r) == EmailSvc.UpdateAliasSpec(old(db.aliases), req, now)
    {
      var found := First(db.aliases, AliasId, EmailSvc.AliasIdIs(req.id));
      if found.None? {
        return Err(RecordNotFound);
      }
      var alias := db.aliases[found.value];
      alias := alias.(emailId := req.emailId);
      alias := alias.(aliasAddress := req.aliasPrefix);
      alias := alias.(updatedAt := now);
      var err := db.SaveAlias(found.value, alias);
      if err.Some? {
        return Err(err.value);
      }
      r := Ok(AliasToMsg(alias));
    }

    /** This service does not implement GetAlias; the embedded default answers Unimplemented. */
    method GetAlias(req: GetAliasRequest) returns (r: Result<AliasMsg>)
      ensures r.Err? && r.error.Status? && r.error.code == Unimplemented
    {
      r := Err(Status(Unimplemented, "method GetAlias not implemented"));
    }
  }
}
