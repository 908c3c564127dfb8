/**
 * The three persisted record shapes (users, registered email addresses,
 * aliases), their unique keys and the soft-delete tombstone.
 */
module Models {
  import opened Wrappers

  /** A clock reading (time.Now()); only equality and ordering matter here. */
  type Time = int

  datatype User = User(
    id: string,
    username: string,
    email: string,
    password: string,          // the stored credential (a bcrypt hash)
    createdAt: Time,
    updatedAt: Time,
    deletedAt: Option<Time>)   // the soft-delete tombstone

  datatype Email = Email(
    id: string,
    userId: string,
    address: string,
    verified: bool,
    token: string,             // verification token; no index at all
    createdAt: Time,
    updatedAt: Time,
    deletedAt: Option<Time>)

  datatype Alias = Alias(
    id: string,
    userId: string,
    emailId: string,
    aliasAddress: string,
    createdAt: Time,
    updatedAt: Time,
    deletedAt: Option<Time>)

  predicate UserLive(u: User) { u.deletedAt.None? }
  predicate EmailLive(e: Email) { e.deletedAt.None? }
  predicate AliasLive(a: Alias) { a.deletedAt.None? }

  function UserId(u: User): string { u.id }
  function EmailId(e: Email): string { e.id }
  function AliasId(a: Alias): string { a.id }

  /** The columns that carry a primary key or a UNIQUE index. */
  datatype Column = PrimaryKey | Username | UserEmail | Address | AliasAddress

  /** One entry of a unique index: the column and the value stored in it. */
  datatype Key = Key(column: Column, value: string)

  function UserKeys(u: User): set<Key> {
    {Key(PrimaryKey, u.id), Key(Username, u.username), Key(UserEmail, u.email)}
  }

  function EmailKeys(e: Email): set<Key> {
    {Key(PrimaryKey, e.id), Key(Address, e.address)}
  }

  function AliasKeys(a: Alias): set<Key> {
    {Key(PrimaryKey, a.id), Key(AliasAddress, a.aliasAddress)}
  }

  /**
   * No two stored rows share an entry of a unique index. The indexes are
   * plain (not partial), so tombstoned rows take part too.
   */
  ghost predicate UniqueKeys<T>(rows: seq<T>, keys: T -> set<Key>) {
    forall i, j :: 0 <= i < |rows| && 0 <= j < |rows| && i != j ==> keys(rows[i]) !! keys(rows[j])
  }

  /** At most one stored user per id, per username and per email. */
  lemma UserKeysUnique(users: seq<User>, i: nat, j: nat)
    requires UniqueKeys(users, UserKeys)
    requires i < |users| && j < |users|
    requires users[i].id == users[j].id || users[i].username == users[j].username
             || users[i].email == users[j].email
    ensures i == j
  {
  }

  /** At most one stored email row per id and per address. */
  lemma EmailKeysUnique(emails: seq<Email>, i: nat, j: nat)
    requires UniqueKeys(emails, EmailKeys)
    requires i < |emails| && j < |emails|
    requires emails[i].id == emails[j].id || emails[i].address == emails[j].address
    ensures i == j
  {
  }

  /** At most one stored alias per id and per alias address, deleted or not. */
  lemma AliasKeysUnique(aliases: seq<Alias>, i: nat, j: nat)
    requires UniqueKeys(aliases, AliasKeys)
    requires i < |aliases| && j < |aliases|
    requires aliases[i].id == aliases[j].id || aliases[i].aliasAddress == aliases[j].aliasAddress
    ensures i == j
  {
  }

  /** The verification state of every email row: a token is pending exactly while unverified. */
  predicate TokenState(emails: seq<Email>) {
    forall i :: 0 <= i < |emails| ==> (emails[i].token != "" <==> !emails[i].verified)
  }

  /**
   * No two rows carry the same pending token. The store does not enforce
   * this (Token has no index); it holds as long as generated tokens are fresh.
   */
  predicate TokensDistinct(emails: seq<Email>) {
    forall i, j :: 0 <= i < |emails| && 0 <= j < |emails| && i != j && emails[i].token != "" ==>
      emails[i].token != emails[j].token
  }

  /** Some stored row (live or tombstoned) already carries token t. */
  predicate TokenInUse(emails: seq<Email>, t: string) {
    exists i :: 0 <= i < |emails| && emails[i].token == t
  }
}
