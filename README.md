# aliasme — a Dafny model of the alias service core

aliasme lets a user register email addresses. Each address is verified
through a one-time token sent by mail. A verified address can then get
forwarding aliases (`prefix@yourdomain.com`), which are created at a mail
provider and recorded locally. This project models that workflow and the
user-record operations beside it. It is a state machine over an in-memory
store of three tables: users, emails and aliases.

- `Models` (models.dfy): the three row shapes, with a soft-delete tombstone
  (`deletedAt`). Each row has a set of unique keys: the primary key, the
  username, the user email, the email address and the alias address. The
  invariant `UniqueKeys` says no two stored rows share a key, tombstoned
  rows included. `TokenState` says a row's token is non-empty exactly
  while the row is unverified.
- `Store` (store.dfy): the database as class `Db`, holding one `seq` per
  table in insertion (rowid) order.
  - `First` is the live-row lookup. It returns the selected row with the
    smallest primary key, compared byte-wise by module `Lex`.
  - `Filter` is a `Find` with a condition.
  - `Insert` and `Save` are the INSERT and the full-row UPDATE. Both are
    refused when a unique key clashes.
  - `DeleteUsers` and `DeleteAliases` are the soft deletes.
- `UserSvc` (user_service.dfy): the user service, class `Service`.
- `EmailSvc` (email_service.dfy): the second email implementation
  (`Service`). It has alias CRUD with no verification gate, and it
  composes the verification mail.
- `EmailSvcImpl` (email_service_impl.dfy): the email service the server
  registers (`EmailService`). It covers RegisterEmail, VerifyEmail, the
  gated CreateAlias and the local alias operations.
- `Outside` (outside.dfy): the provider and the SMTP server. Each is
  modelled as the list of what it has accepted. The outcome of every call
  is an input.
- `Uuid` (uuid.dfy): the text form of a random version-4 UUID, which is
  the verification token.
- `Random` (random.dfy): the random string and number fillers.

Each service operation has two parts:

- A pure specification function on the tables, named `…Spec`. Its
  `ensures` states the behaviour, and lemmas relate several operations.
- A method on the service class that performs the same steps on the
  shared `Db`. It is proved equal to that function:
  `(db.emails, r) == VerifyEmailSpec(old(db.emails), …)`.

Inputs from outside are parameters:

- ids from xid;
- the 16 random bytes behind a token;
- the clock;
- the bcrypt result;
- the `BASE_URL` value;
- the provider's and the SMTP server's answers;
- the random draws of `math/rand`.

## Model

| member | source | states |
|---|---|---|
| Models.UserKeysUnique | internal/models/types.go:11-13 | under the unique indexes, two user rows sharing an id, a username or an email are the same row |
| Models.EmailKeysUnique | internal/models/types.go:22-24 | two email rows sharing an id or an address are the same row |
| Models.AliasKeysUnique | internal/models/types.go:34-37 | two alias rows sharing an id or an alias address are the same row |
| Store.First | internal/user/service.go:87 | the lookup returns a selected row, returns none exactly when no row is selected, and no selected row has a smaller primary key |
| Store.Filter | internal/email/service.go:130 | the result holds each selected row as often as the table does and nothing else |
| Store.Insert | internal/user/service.go:70-73 | success appends the row; failure is a unique violation against a stored row (tombstoned or not); the unique-key invariant is kept |
| Store.Save | internal/user/service.go:113-116 | success replaces row i and nothing else; failure is a clash with another row; the unique-key invariant is kept |
| Store.DeleteUsers | internal/user/service.go:129 | live rows with the id get the tombstone; no row is removed; ids and keys stay; every other row is unchanged |
| Store.DeleteAliases | internal/email/service.go:119 | the same soft delete on the alias table |
| Store.Db.CreateEmail | internal/email/service_impl.go:59-62 | the table becomes the Insert result, or is unchanged with the error reported |
| Store.Db.SaveEmail | internal/email/service_impl.go:92-95 | the table becomes the Save result, or is unchanged with the error reported |
| Outside.Provider.CreateEmailAlias | internal/email/service_impl.go:127-130 | an accepted call adds exactly the rule (domain, prefix, target); a refused one adds nothing and fails |
| Outside.Mailer.SendMail | internal/email/service.go:183-194 | a sender or recipient with a CR or LF is refused before sending, as Go's `net/smtp` does; otherwise an accepted send records exactly the envelope and a refused one records nothing and fails |
| Uuid.NewRandom | internal/email/service_impl.go:220 | the version nibble is 4 and the variant bits are 10; all other bits are the random input |
| Uuid.HexRoundTrip | internal/email/service_impl.go:220 | hex text reads back to the bytes it was made from |
| Uuid.FormatRoundTrip | internal/email/service_impl.go:220 | the 36-character hyphenated text reads back to the 16 bytes |
| Uuid.FormatInjective | internal/email/service_impl.go:220 | different UUIDs have different text forms |
| EmailSvcImpl.GenerateToken | internal/email/service_impl.go:219-221 | the token is 36 characters long, non-empty, and its version digit is 4 |
| EmailSvcImpl.DistinctDrawsDistinctTokens | internal/email/service_impl.go:219-221 | different random UUIDs give different tokens |
| EmailSvcImpl.RegisterEmailSpec | internal/email/service_impl.go:34-78 | an id or address already stored fails with no row and no mail; otherwise the unverified row with the fresh token is appended, then the mail is sent; a failed or refused send returns the error and keeps the row |
| EmailSvcImpl.LineBreakAddressNotMailed | internal/email/service_impl.go:59-68 | an address holding a line break sends no mail and fails, so the injected header never reaches the server |
| EmailSvcImpl.RegisterKeepsInvariants | internal/email/service_impl.go:49-62 | registration keeps the unique keys and "token non-empty iff unverified"; with a fresh token it keeps pending tokens distinct |
| EmailSvcImpl.DuplicateTokenAccepted | internal/models/types.go:26 | the token has no index, so a repeated token is stored and pending tokens are no longer distinct |
| EmailSvcImpl.VerifyEmailSpec | internal/email/service_impl.go:81-105 | no live row with the token means not-found and no change; otherwise the matching row with the smallest id becomes verified with its token cleared and its update time set, and every other field and row is kept; the invariants are kept |
| EmailSvcImpl.VerifyTwiceFails | internal/email/service_impl.go:83-89 | with distinct pending tokens, a non-empty token that has verified a row is not found a second time |
| EmailSvcImpl.EmptyTokenFindsVerified | internal/email/service_impl.go:83 | the empty token is not rejected: it matches a live verified email and succeeds |
| EmailSvcImpl.VerifyAppended | internal/email/service_impl.go:83-92 | the token of a row just appended, held by no earlier row, verifies exactly that row |
| EmailSvcImpl.RegisterThenVerify | internal/email/service_impl.go:34-105 | registering and then verifying the fresh token leaves the new row verified with its token cleared |
| EmailSvcImpl.CreateAliasSpec | internal/email/service_impl.go:108-154 | with no live, verified email of that id and owner: not-found, no provider call, no row; a refused provider call adds nothing; once the gate passes and the provider accepts, exactly the rule (yourdomain.com, prefix, gate email's address) is added, and the call succeeds exactly when no alias row holds the id or prefix@yourdomain.com, storing that row; otherwise it fails with a unique violation after the rule was added |
| EmailSvcImpl.UnverifiedEmailGetsNoAlias | internal/email/service_impl.go:111-114 | an unverified email gets no alias and no provider call, for any owner and prefix |
| EmailSvcImpl.GateDiffersFromUncheckedCreate | internal/email/service.go:48-60 | the same request on an unverified email is refused here but stored by the second implementation |
| EmailSvcImpl.DeletedAddressOrphansRule | internal/models/types.go:37-40 | after a soft delete the address still blocks creation: a new rule is added at the provider and the insert fails |
| EmailSvcImpl.UpdateDriftsFromProvider | internal/email/service_impl.go:192-216 | after CreateAlias, an update with the same prefix stores the bare prefix while the provider keeps prefix@yourdomain.com |
| EmailSvcImpl.EmailService.RegisterEmail | internal/email/service_impl.go:34-78 | the email table, the sent mail and the result are those of RegisterEmailSpec; users and aliases are untouched |
| EmailSvcImpl.EmailService.VerifyEmail | internal/email/service_impl.go:81-105 | the email table and the result are those of VerifyEmailSpec |
| EmailSvcImpl.EmailService.CreateAlias | internal/email/service_impl.go:108-154 | the alias table, the provider rules and the result are those of CreateAliasSpec |
| EmailSvcImpl.EmailService.ListAliases | internal/email/service_impl.go:157-179 | succeeds with one message per live alias of the user, fields copied |
| EmailSvcImpl.EmailService.DeleteAlias | internal/email/service_impl.go:182-189 | soft-deletes the alias and always reports success |
| EmailSvcImpl.EmailService.UpdateAlias | internal/email/service_impl.go:192-216 | the alias table and result are those of UpdateAliasSpec |
| EmailSvcImpl.EmailService.GetAlias | internal/email/service_impl.go:18 | not implemented by this service: always the Unimplemented status |
| EmailSvc.VerificationBody | internal/email/service.go:161-171 | the body contains `<base>/verify?token=<token>` |
| EmailSvc.ComposeParses | internal/email/service.go:173-178 | with header values free of line breaks, the message has exactly the From, To and Subject header lines in that order, then the body |
| EmailSvc.AddressInjectsHeader | internal/email/service.go:173-178 | the composed text of an address with a CRLF inside carries a header line chosen by the requester (SendMail then refuses that recipient) |
| EmailSvc.EnvelopeCarriesToken | internal/email/service.go:159-189 | the mail goes to the address alone, and its body carries the link with the token |
| EmailSvc.CreateAliasSpec | internal/email/service.go:40-70 | no gate: with fresh id and address it succeeds, storing the raw prefix as the address, with owner and email taken from the request |
| EmailSvc.GetAliasSpec | internal/email/service.go:73-88 | not-found exactly when no live alias has the id; otherwise that row's fields |
| EmailSvc.UpdateAliasSpec | internal/email/service.go:91-115 | not-found exactly when no live alias has the id; a live row whose new address no other row holds is updated; only the email reference, the address (the raw prefix) and the update time change; a clash changes nothing |
| EmailSvc.ListedRows | internal/email/service.go:128-133 | the listed rows are exactly the user's live aliases, with their multiplicities |
| EmailSvc.DeletedAliasNotListed | internal/email/service.go:118-151 | a deleted alias stays stored but is not listed |
| EmailSvc.DeletedAliasNotFound | internal/email/service.go:73-88 | a deleted alias is not found by GetAlias |
| EmailSvc.AliasMessages | internal/email/service.go:135-148 | one response element per row, fields copied |
| EmailSvc.Service.CreateAlias | internal/email/service.go:40-70 | the alias table and the result are those of the no-gate CreateAliasSpec |
| EmailSvc.Service.GetAlias | internal/email/service.go:73-88 | the result is GetAliasSpec of the alias table |
| EmailSvc.Service.UpdateAlias | internal/email/service.go:91-115 | the alias table and the result are those of UpdateAliasSpec |
| EmailSvc.Service.DeleteAlias | internal/email/service.go:118-125 | soft-deletes the alias and always reports success |
| EmailSvc.Service.ListAliases | internal/email/service.go:128-151 | succeeds with one message per live alias of the user, fields copied |
| EmailSvc.Service.SendVerificationEmail | internal/email/service.go:159-197 | an accepted send to a sender and recipient without line breaks records the verification envelope; any other send records nothing and fails |
| UserSvc.FirstUnique | internal/user/service.go:87 | a lookup by a unique column finds exactly the row holding the value |
| UserSvc.FirstAppendUnselected | internal/user/service.go:145 | appending a row the lookup does not select leaves its answer unchanged |
| UserSvc.CreateUserSpec | internal/user/service.go:46-82 | the stored credential is the bcrypt result; a hashing failure or a taken username or email leaves the table unchanged; with the hash computed and id, username and email free it succeeds; a unique violation means one of them was taken; the unique keys are kept |
| UserSvc.SecondCreateFails | internal/user/service.go:70-73 | of two identical registrations, the second fails and adds nothing |
| UserSvc.GetUserSpec | internal/user/service.go:85-99 | not-found exactly when no live user has the id; otherwise that user's public fields |
| UserSvc.UpdateUserSpec | internal/user/service.go:102-125 | not-found exactly when no live user has the id; a live row whose new username and email no other row holds is updated; only username, email and update time change; id, credential, creation time and other rows are kept |
| UserSvc.LookupStatus | internal/user/service.go:146-149 | NotFound exactly for a missing record, Internal for any other failure |
| UserSvc.GetUserByEmailSpec | internal/user/service.go:143-155 | a fault gives Internal; no live holder gives NotFound; otherwise the id of the one user holding the email |
| UserSvc.SingleHolder | internal/models/types.go:13 | the user found by email is the only stored row with that email |
| UserSvc.LookupStableAcrossCreate | internal/user/service.go:143-155 | a resolved email keeps resolving to the same user id across any CreateUser |
| UserSvc.DeletedUserNotFound | internal/user/service.go:128-135 | a deleted user stays stored but is not found |
| UserSvc.DeletedUserKeepsKeys | internal/models/types.go:12-17 | a deleted user's username and email still block a new registration |
| UserSvc.Service.CreateUser | internal/user/service.go:46-82 | the user table and the result are those of CreateUserSpec |
| UserSvc.Service.GetUser | internal/user/service.go:85-99 | the result is GetUserSpec of the user table |
| UserSvc.Service.UpdateUser | internal/user/service.go:102-125 | the user table and the result are those of UpdateUserSpec |
| UserSvc.Service.DeleteUser | internal/user/service.go:128-135 | soft-deletes the user and always reports success |
| UserSvc.Service.GetUserByEmail | internal/user/service.go:143-155 | the result is GetUserByEmailSpec of the user table |
| Random.Intn | internal/utils/random.go:17 | the index drawn is below the alphabet length |
| Random.LetterRunesAlphanumeric | internal/utils/random.go:8 | the letter alphabet has 62 symbols, all ASCII letters or digits |
| Random.NumberRunesDigits | internal/utils/random.go:9 | the number alphabet is the ten decimal digits |
| Random.GenerateRandomString | internal/utils/random.go:14-20 | exactly `length` characters, each the alphabet symbol at the drawn index, all alphanumeric |
| Random.GenerateRandomNumber | internal/utils/random.go:23-29 | exactly `length` characters, each the digit at the drawn index |

## Left out

- generateID (internal/user/service.go:138-140, internal/email/service.go:154-156): the xid value is an input. It never returns an error, so the "failed to generate ID" branches cannot be taken and are not modelled.
- xid and uuid randomness: ids are inputs, and so are the 16 random bytes behind a token. `uuid.New` panics when the system random source fails; that is not modelled.
- `time.Now`: each operation reads the clock once or twice. The two readings are modelled as one instant, `now`.
- Timestamps are integers, not `timestamppb` values.
- bcrypt is a function parameter that may fail. The cost factor and salting are not modelled.
- Store faults other than a unique-key clash are modelled only where the source handles them differently: the `fault` input of GetUserByEmail. Elsewhere such an error would propagate unchanged, like the clash.
- SMTP authentication (`smtp.PlainAuth` with the password) and the network exchange are left out. A send is one accepted or refused call.
- The provider's HTTP API is one accepted or refused call. Its rule deletion is never called by the core.
- Logging is left out.
- Concurrent requests are left out. Every operation is one atomic step on the store.
- Store.DeleteUsers / Store.DeleteAliases: the source always answers `Success = true`. The store's soft delete reports no error for a missing id, so a delete never reports not-found. A not-found outcome for deleting a missing record would contradict the code, and the model follows the code.
- Store.Insert: uniqueness counts tombstoned rows too, because the indexes are plain ones. A clash with a deleted row is therefore a clash. This follows the code; a reading where only live rows count does not.
- EmailSvc.ListedRows: states which rows are listed, and how many times each, but not their order. `Filter` keeps rowid order by construction.
- Random.GenerateRandomString: `length` is a `nat`. The negative length on which `make` panics is not modelled.
- Random.Intn: the draw is reduced with `% n`. The uniform distribution of `math/rand` is not modelled; only the bound is stated.
- The `Token` column carries no constraint. Distinct pending tokens hold only while generated tokens are fresh, and the lemmas that need it take it as a hypothesis.
- Outside.Mailer.SendMail: the refusal of a CR or LF in the sender or a recipient follows Go's `net/smtp.SendMail`, which is not part of this model; its other checks (authentication, server replies) are folded into the `accepted` input.
