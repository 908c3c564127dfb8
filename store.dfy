/**
 * The relational store the services write through, kept in memory: one
 * sequence per table in insertion (rowid) order, with the query and write
 * primitives the services use (First, Find, Create, Save, soft Delete).
 */
module Store {
  import opened Wrappers
  import opened Models
  import Lex

  /**
   * `db.First(&row, cond)`: among the rows that `sel` selects (the condition
   * plus `deleted_at IS NULL`), the index of the one with the smallest
   * primary key, or None when no row is selected (gorm.ErrRecordNotFound).
   */
  function First<T>(rows: seq<T>, id: T -> string, sel: T -> bool): (r: Option<nat>)
    ensures r.Some? ==> r.value < |rows| && sel(rows[r.value])
    ensures r.None? <==> forall i :: 0 <= i < |rows| ==> !sel(rows[i])
    ensures r.Some? ==> forall i :: 0 <= i < |rows| && sel(rows[i]) ==> !Lex.Less(id(rows[i]), id(rows[r.value]))
    decreases |rows|
  {
    if rows == [] then None
    else
      var n := |rows| - 1;
      var r := First(rows[..n], id, sel);
      if !sel(rows[n]) then r
      else if r.None? || Lex.Less(id(rows[n]), id(rows[r.value])) then
        Lex.Irreflexive(id(rows[n]));
        NoneBelow(rows, id, sel, n, r);
        Some(n)
      else r
  }

  /** The helper step of First: a new candidate below the old minimum is below every selected row. */
  lemma NoneBelow<T>(rows: seq<T>, id: T -> string, sel: T -> bool, n: nat, r: Option<nat>)
    requires n < |rows|
    requires r.None? ==> forall i :: 0 <= i < n ==> !sel(rows[i])
    requires r.Some? ==> r.value < n && Lex.Less(id(rows[n]), id(rows[r.value]))
    requires r.Some? ==> forall i :: 0 <= i < n && sel(rows[i]) ==> !Lex.Less(id(rows[i]), id(rows[r.value]))
    ensures forall i :: 0 <= i < n && sel(rows[i]) ==> !Lex.Less(id(rows[i]), id(rows[n]))
  {
    forall i | 0 <= i < n && sel(rows[i])
      ensures !Lex.Less(id(rows[i]), id(rows[n]))
    {
      if Lex.Less(id(rows[i]), id(rows[n])) {
        Lex.Transitive(id(rows[i]), id(rows[n]), id(rows[r.value]));
      }
    }
  }

  /** `db.Find(&rows, cond)`: the selected rows, in rowid order, each exactly as often as it is stored. */
  function Filter<T(!new)>(rows: seq<T>, sel: T -> bool): (r: seq<T>)
    ensures forall x :: multiset(r)[x] == if sel(x) then multiset(rows)[x] else 0
    ensures forall x :: x in r ==> sel(x)
    decreases |rows|
  {
    if rows == [] then []
    else
      var n := |rows| - 1;
      assert rows == rows[..n] + [rows[n]];
      if sel(rows[n]) then Filter(rows[..n], sel) + [rows[n]] else Filter(rows[..n], sel)
  }

  /** Row `row` would share a unique-index entry with a stored row other than the one at `except`. */
  predicate Clash<T>(rows: seq<T>, keys: T -> set<Key>, row: T, except: int) {
    exists j :: 0 <= j < |rows| && j != except && !(keys(rows[j]) !! keys(row))
  }

  /** `db.Create(&row)`: INSERT, refused by the primary key or a UNIQUE index. */
  function Insert<T>(rows: seq<T>, keys: T -> set<Key>, row: T): (r: Result<seq<T>>)
    ensures r.Ok? ==> |r.value| == |rows| + 1 && r.value[..|rows|] == rows && r.value[|rows|] == row
    ensures r.Err? ==> r.error == UniqueViolation && exists j :: 0 <= j < |rows| && !(keys(rows[j]) !! keys(row))
    ensures UniqueKeys(rows, keys) && r.Ok? ==> UniqueKeys(r.value, keys)
  {
    if Clash(rows, keys, row, -1) then Err(UniqueViolation) else Ok(rows + [row])
  }

  /** `db.Save(&row)` of the row stored at index i: UPDATE of every column, refused by a UNIQUE index. */
  function Save<T>(rows: seq<T>, keys: T -> set<Key>, i: nat, row: T): (r: Result<seq<T>>)
    requires i < |rows|
    ensures r.Ok? ==> |r.value| == |rows| && r.value[i] == row
                      && forall k :: 0 <= k < |rows| && k != i ==> r.value[k] == rows[k]
    ensures r.Err? ==> r.error == UniqueViolation
                       && exists j :: 0 <= j < |rows| && j != i && !(keys(rows[j]) !! keys(row))
    ensures UniqueKeys(rows, keys) && r.Ok? ==> UniqueKeys(r.value, keys)
  {
    if Clash(rows, keys, row, i) then Err(UniqueViolation) else Ok(rows[i := row])
  }

  /** `db.Delete(&models.User{}, "id = ?", id)`: tombstones the live rows with that id; never reports not-found. */
  function DeleteUsers(users: seq<User>, id: string, now: Time): (r: seq<User>)
    ensures |r| == |users|
    ensures forall k :: 0 <= k < |r| ==> r[k].id == users[k].id && UserKeys(r[k]) == UserKeys(users[k])
    ensures forall k :: 0 <= k < |r| && r[k].id == id ==> !UserLive(r[k])
    ensures forall k :: 0 <= k < |r| && (users[k].id != id || !UserLive(users[k])) ==> r[k] == users[k]
    ensures forall k :: 0 <= k < |r| && users[k].id == id && UserLive(users[k]) ==>
              r[k] == users[k].(deletedAt := Some(now))
    ensures UniqueKeys(users, UserKeys) ==> UniqueKeys(r, UserKeys)
  {
    seq(|users|, k requires 0 <= k < |users| =>
      if users[k].id == id && UserLive(users[k]) then users[k].(deletedAt := Some(now)) else users[k])
  }

  /** The same soft delete on the alias table. */
  function DeleteAliases(aliases: seq<Alias>, id: string, now: Time): (r: seq<Alias>)
    ensures |r| == |aliases|
    ensures forall k :: 0 <= k < |r| ==> r[k].id == aliases[k].id && AliasKeys(r[k]) == AliasKeys(aliases[k])
    ensures forall k :: 0 <= k < |r| && r[k].id == id ==> !AliasLive(r[k])
    ensures forall k :: 0 <= k < |r| && (aliases[k].id != id || !AliasLive(aliases[k])) ==> r[k] == aliases[k]
    ensures forall k :: 0 <= k < |r| && aliases[k].id == id && AliasLive(aliases[k]) ==>
              r[k] == aliases[k].(deletedAt := Some(now))
    ensures UniqueKeys(aliases, AliasKeys) ==> UniqueKeys(r, AliasKeys)
  {
    seq(|aliases|, k requires 0 <= k < |aliases| =>
      if aliases[k].id == id && AliasLive(aliases[k]) then aliases[k].(deletedAt := Some(now)) else aliases[k])
  }

  /** The database handle shared by all services. */
  class Db {
    var users: seq<User>
    var emails: seq<Email>
    var aliases: seq<Alias>

    /** The constraints SQLite enforces: primary keys and UNIQUE indexes. */
    ghost predicate Valid()
      reads this
    {
      UniqueKeys(users, UserKeys) && UniqueKeys(emails, EmailKeys) && UniqueKeys(aliases, AliasKeys)
    }

    /** A freshly migrated, empty database. */
    constructor ()
      ensures Valid() && users == [] && emails == [] && aliases == []
    {
      users, emails, aliases := [], [], [];
    }

    method CreateUser(u: User) returns (err: Option<Error>)
      requires Valid()
      modifies this
      ensures Valid() && emails == old(emails) && aliases == old(aliases)
      ensures var r := Insert(old(users), UserKeys, u);
              if r.Ok? then users == r.value && err == None else users == old(users) && err == Some(r.error)
    {
      var r := Insert(users, UserKeys, u);
      if r.Ok? {
        users := r.value;
        err := None;
      } else {
        err := Some(r.error);
      }
    }

    method CreateEmail(e: Email) returns (err: Option<Error>)
      requires Valid()
      modifies this
      ensures Valid() && users == old(users) && aliases == old(aliases)
      ensures var r := Insert(old(emails), EmailKeys, e);
              if r.Ok? then emails == r.value && err == None else emails == old(emails) && err == Some(r.error)
    {
      var r := Insert(emails, EmailKeys, e);
      if r.Ok? {
        emails := r.value;
        err := None;
      } else {
        err := Some(r.error);
      }
    }

    method CreateAlias(a: Alias) returns (err: Option<Error>)
      requires Valid()
      modifies this
      ensures Valid() && users == old(users) && emails == old(emails)
      ensures var r := Insert(old(aliases), AliasKeys, a);
              if r.Ok? then aliases == r.value && err == None else aliases == old(aliases) && err == Some(r.error)
    {
      var r := Insert(aliases, AliasKeys, a);
      if r.Ok? {
        aliases := r.value;
        err := None;
      } else {
        err := Some(r.error);
      }
    }

    method SaveUser(i: nat, u: User) returns (err: Option<Error>)
      requires Valid() && i < |users|
      modifies this
      ensures Valid() && emails == old(emails) && aliases == old(aliases)
      ensures var r := Save(old(users), UserKeys, i, u);
              if r.Ok? then users == r.value && err == None else users == old(users) && err == Some(r.error)
    {
      var r := Save(users, UserKeys, i, u);
      if r.Ok? {
        users := r.value;
        err := None;
      } else {
        err := Some(r.error);
      }
    }

    method SaveEmail(i: nat, e: Email) returns (err: Option<Error>)
      requires Valid() && i < |emails|
      modifies this
      ensures Valid() && users == old(users) && aliases == old(aliases)
      ensures var r := Save(old(emails), EmailKeys, i, e);
              if r.Ok? then emails == r.value && err == None else emails == old(emails) && err == Some(r.error)
    {
      var r := Save(emails, EmailKeys, i, e);
      if r.Ok? {
        emails := r.value;
        err := None;
      } else {
        err := Some(r.error);
      }
    }

    method SaveAlias(i: nat, a: Alias) returns (err: Option<Error>)
      requires Valid() && i < |aliases|
      modifies this
      ensures Valid() && users == old(users) && emails == old(emails)
      ensures var r := Save(old(aliases), AliasKeys, i, a);
              if r.Ok? then aliases == r.value && err == None else aliases == old(aliases) && err == Some(r.error)
    {
      var r := Save(aliases, AliasKeys, i, a);
      if r.Ok? {
        aliases := r.value;
        err := None;
      } else {
        err := Some(r.error);
      }
    }

    method DeleteUser(id: string, now: Time)
      requires Valid()
      modifies this
      ensures Valid() && emails == old(emails) && aliases == old(aliases)
      ensures users == DeleteUsers(old(users), id, now)
    {
      users := DeleteUsers(users, id, now);
    }

    method DeleteAlias(id: string, now: Time)
      requires Valid()
      modifies this
      ensures Valid() && users == old(users) && emails == old(emails)
      ensures aliases == DeleteAliases(old(aliases), id, now)
    {
      aliases := DeleteAliases(aliases, id, now);
    }
  }
}
