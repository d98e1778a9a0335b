/**
 * The JSON user table of lib/db.js.
 *
 * The store file holds `{ users: [...] }`. Reading and writing the file is
 * abstracted away: a `Store` object holds the list of user records, every
 * operation reads it, and the operations that write the file reassign it.
 */
module UserDb {
  import opened Wrappers

  /** The JSON values a user record holds: strings (email, name, hash, code) and numbers (ids). */
  datatype Value = Str(s: string) | Num(n: int)

  /**
   * A user record is a JavaScript object: a finite map from property names to
   * values. A property that is absent reads as `undefined`.
   */
  type Record = map<string, Value>

  /** `u.email === email`: the record has an `email` property equal to the string `email`. */
  predicate HasEmail(u: Record, email: string)
  {
    "email" in u && u["email"] == Str(email)
  }

  /** No record of `users` has email `email`. */
  predicate NoMatch(users: seq<Record>, email: string)
  {
    forall j :: 0 <= j < |users| ==> !HasEmail(users[j], email)
  }

  /** `i` is the index of the first record of `users` whose email is `email`. */
  predicate FirstMatch(users: seq<Record>, email: string, i: int)
  {
    0 <= i < |users| && HasEmail(users[i], email) &&
    forall j :: 0 <= j < i ==> !HasEmail(users[j], email)
  }

  /** The first match is unique. */
  lemma FirstMatchUnique(users: seq<Record>, email: string, i: int, k: int)
    requires FirstMatch(users, email, i) && FirstMatch(users, email, k)
    ensures i == k
  {
  }

  /** The index `Array.prototype.findIndex` finds for `u => u.email === email`, as a value. */
  function FirstIndexOf(users: seq<Record>, email: string): (r: Option<nat>)
    ensures r.None? <==> NoMatch(users, email)
    ensures r.Some? ==> FirstMatch(users, email, r.value)
  {
    if |users| == 0 then None
    else if HasEmail(users[0], email) then Some(0)
    else match FirstIndexOf(users[1..], email)
      case None => None
      case Some(k) => Some(k + 1)
  }

  /** What `getUserByEmail` returns: the first record with that email, or nothing. */
  function Lookup(users: seq<Record>, email: string): (r: Option<Record>)
    ensures r.None? <==> NoMatch(users, email)
    ensures r.Some? ==> exists i :: FirstMatch(users, email, i) && r.value == users[i]
  {
    match FirstIndexOf(users, email)
    case None => None
    case Some(i) => Some(users[i])
  }

  /** `Object.assign({}, target, patch)`: every property of `patch` overrides, the rest is kept. */
  function Assign(target: Record, patch: Record): (r: Record)
    ensures r.Keys == target.Keys + patch.Keys
    ensures forall k :: k in patch ==> r[k] == patch[k]
    ensures forall k :: k in target && k !in patch ==> r[k] == target[k]
  {
    target + patch
  }

  /** Emails identify records: no two records share a string email. */
  ghost predicate UniqueEmails(users: seq<Record>)
  {
    forall i, j, e :: 0 <= i < |users| && 0 <= j < |users| && HasEmail(users[i], e) && HasEmail(users[j], e) ==> i == j
  }

  /** Appending a record never changes the answer for an email that was already present;
      for an absent email the appended record is found exactly when it carries that email. */
  lemma LookupAppend(users: seq<Record>, u: Record, email: string)
    ensures Lookup(users + [u], email) ==
      if Lookup(users, email).Some? then Lookup(users, email)
      else if HasEmail(u, email) then Some(u)
      else None
  {
    var s := users + [u];
    match FirstIndexOf(users, email)
    case Some(i) =>
      assert FirstMatch(s, email, i);
      var k :| FirstMatch(s, email, k) && Lookup(s, email).value == s[k];
      FirstMatchUnique(s, email, i, k);
    case None =>
      if HasEmail(u, email) {
        assert FirstMatch(s, email, |users|);
        var k :| FirstMatch(s, email, k) && Lookup(s, email).value == s[k];
        FirstMatchUnique(s, email, |users|, k);
      } else {
        assert NoMatch(s, email);
      }
  }

  /** Appending a record whose email is not yet taken keeps emails unique. */
  lemma AppendFreshKeepsUnique(users: seq<Record>, u: Record)
    requires UniqueEmails(users)
    requires forall e :: HasEmail(u, e) ==> NoMatch(users, e)
    ensures UniqueEmails(users + [u])
  {
  }

  /** Appending does not check uniqueness: adding a record whose email is already
      present leaves two records with that email. */
  lemma AppendDuplicateBreaksUnique(users: seq<Record>, u: Record, email: string)
    requires HasEmail(u, email) && Lookup(users, email).Some?
    ensures !UniqueEmails(users + [u])
  {
    var i := FirstIndexOf(users, email).value;
    var s := users + [u];
    assert HasEmail(s[i], email) && HasEmail(s[|users|], email) && i != |users|;
  }

  /** An update whose patch keeps the email leaves the updated record as the one found. */
  lemma LookupAfterUpdate(users: seq<Record>, email: string, i: int, patch: Record)
    requires FirstMatch(users, email, i)
    requires "email" !in patch || patch["email"] == Str(email)
    ensures Lookup(users[i := Assign(users[i], patch)], email) == Some(Assign(users[i], patch))
  {
    var s := users[i := Assign(users[i], patch)];
    assert FirstMatch(s, email, i);
    var k :| FirstMatch(s, email, k) && Lookup(s, email).value == s[k];
    FirstMatchUnique(s, email, i, k);
  }

  /** The in-memory user list behind `readDB`/`writeDB`. */
  class Store {
    var users: seq<Record>

    /** `readDB()`: the parsed file, or an empty user list when it cannot be read or parsed. */
    constructor Load(file: Option<seq<Record>>)
      ensures file.None? ==> users == []
      ensures file.Some? ==> users == file.value
    {
      users := if file.Some? then file.value else [];
    }

    /** `db.users.findIndex(u => u.email === email)`: -1 when there is no match. */
    method FindIndex(email: string) returns (idx: int)
      ensures idx == -1 <==> NoMatch(users, email)
      ensures idx != -1 ==> FirstMatch(users, email, idx)
    {
      idx := 0;
      while idx < |users|
        invariant 0 <= idx <= |users|
        invariant forall j :: 0 <= j < idx ==> !HasEmail(users[j], email)
      {
        if HasEmail(users[idx], email) {
          return;
        }
        idx := idx + 1;
      }
      idx := -1;
    }

    /** `getUserByEmail(email)`: `db.users.find(u => u.email === email)`. */
    method GetUserByEmail(email: string) returns (r: Option<Record>)
      ensures r == Lookup(users, email)
      ensures r.None? <==> NoMatch(users, email)
      ensures r.Some? ==> HasEmail(r.value, email) && r.value in users
    {
      var idx := FindIndex(email);
      if idx == -1 {
        r := None;
      } else {
        r := Some(users[idx]);
        var k :| FirstMatch(users, email, k) && Lookup(users, email).value == users[k];
        FirstMatchUnique(users, email, idx, k);
      }
    }

    /** `createUser(user)`: push onto the list, with no uniqueness check, and return the record. */
    method CreateUser(user: Record) returns (r: Record)
      modifies this
      ensures r == user
      ensures |users| == |old(users)| + 1 && users[|old(users)|] == user
      ensures users[..|old(users)|] == old(users)
      ensures users == old(users) + [user]
    {
      users := users + [user];
      r := user;
    }

    /** `updateUser(email, patch)`: merge `patch` over the first record with that email. */
    method UpdateUser(email: string, patch: Record) returns (r: Option<Record>)
      modifies this
      ensures NoMatch(old(users), email) ==> r.None? && users == old(users)
      ensures forall i :: FirstMatch(old(users), email, i) ==>
        |users| == |old(users)| &&
        users[i] == Assign(old(users)[i], patch) &&
        (forall j :: 0 <= j < |users| && j != i ==> users[j] == old(users)[j]) &&
        r == Some(users[i])
    {
      var idx := FindIndex(email);
      if idx == -1 {
        return None;
      }
      users := users[idx := Assign(users[idx], patch)];
      r := Some(users[idx]);
      forall i | FirstMatch(old(users), email, i) ensures i == idx {
        FirstMatchUnique(old(users), email, i, idx);
      }
    }
  }
}
