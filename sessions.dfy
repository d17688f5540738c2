// The VIP user session of js/UserSession.js: a user database built from the
// drink database's user and account tables, a set of authenticated user ids,
// at most one active id, and per-user credit differences kept on top of each
// user's base credit.
module Sessions {
  import opened Wrappers

  type UserId = int

  /** A row of the `users` table (only the fields the session reads). */
  datatype InitUser = InitUser(userId: UserId, username: string)

  /** A row of the `account` table, its `creditSEK` already a number. */
  datatype Account = Account(userId: UserId, creditSEK: int)

  /** A user object; `credit` is `None` for `null`. */
  datatype User = User(id: UserId, username: string, credit: Option<int>)

  /**
   * `userDB`: the user objects in order of creation, and the two indices
   * `ids` and `usernames`, which map to positions in `objects` because both
   * index the same objects.
   */
  datatype UserDB = UserDB(objects: seq<User>, ids: map<UserId, nat>, usernames: map<string, nat>)

  /** Both indices point at objects, and `ids` at the object carrying that id. */
  predicate WellFormedDB(db: UserDB)
  {
    (forall id | id in db.ids :: db.ids[id] < |db.objects| && db.objects[db.ids[id]].id == id)
    && (forall name | name in db.usernames ::
          db.usernames[name] < |db.objects| && db.objects[db.usernames[name]].id in db.ids)
  }

  /** The ids of the `users` table. */
  function IdsOf(users: seq<InitUser>): set<UserId>
  {
    set k | 0 <= k < |users| :: users[k].userId
  }

  /** The credit the account rows give user `id`: a later row overwrites an earlier one. */
  function CreditOf(accounts: seq<Account>, id: UserId): Option<int>
  {
    if |accounts| == 0 then None
    else if accounts[|accounts| - 1].userId == id then Some(accounts[|accounts| - 1].creditSEK)
    else CreditOf(accounts[..|accounts| - 1], id)
  }

  /** A user without account rows keeps `null`; otherwise the credit is that of the user's last row. */
  lemma {:induction false} CreditOfLast(accounts: seq<Account>, id: UserId)
    ensures CreditOf(accounts, id).None? <==> forall j | 0 <= j < |accounts| :: accounts[j].userId != id
    ensures CreditOf(accounts, id).Some? ==> exists j | 0 <= j < |accounts| ::
      accounts[j].userId == id && accounts[j].creditSEK == CreditOf(accounts, id).value
      && forall k | j < k < |accounts| :: accounts[k].userId != id
  {
    if |accounts| > 0 && accounts[|accounts| - 1].userId != id {
      var rest := accounts[..|accounts| - 1];
      CreditOfLast(rest, id);
      if CreditOf(rest, id).Some? {
        var j :| 0 <= j < |rest| && rest[j].userId == id && rest[j].creditSEK == CreditOf(rest, id).value
          && forall k | j < k < |rest| :: rest[k].userId != id;
        assert accounts[j] == rest[j];
      }
    }
  }

  /** Row `k` is the last of the first `n` user rows with id `id`. */
  predicate LastWithId(users: seq<InitUser>, n: int, id: UserId, k: int)
    requires n <= |users|
  {
    0 <= k < n && users[k].userId == id && forall j | k < j < n :: users[j].userId != id
  }

  /** Row `k` is the last of the first `n` user rows with username `name`. */
  predicate LastWithName(users: seq<InitUser>, n: int, name: string, k: int)
    requires n <= |users|
  {
    0 <= k < n && users[k].username == name && forall j | k < j < n :: users[j].username != name
  }

  /**
   * The shape of `convertUserDB`'s result: one object per user row, with
   * that row's id and username, each id indexed at its last row and each
   * username at its last row.
   */
  predicate Indexed(users: seq<InitUser>, db: UserDB)
  {
    |db.objects| == |users|
    && (forall k | 0 <= k < |users| :: db.objects[k].id == users[k].userId && db.objects[k].username == users[k].username)
    && (forall id | id in db.ids :: LastWithId(users, |users|, id, db.ids[id]))
    && (forall name | name in db.usernames :: LastWithName(users, |users|, name, db.usernames[name]))
    && (forall k | 0 <= k < |users| :: users[k].userId in db.ids && users[k].username in db.usernames)
  }

  /** The indices of `convertUserDB` are well formed and index exactly the ids of the table. */
  lemma IndexedWellFormed(users: seq<InitUser>, db: UserDB)
    requires Indexed(users, db)
    ensures WellFormedDB(db) && db.ids.Keys == IdsOf(users)
  {
    forall name | name in db.usernames
      ensures db.objects[db.usernames[name]].id in db.ids
    {
      var k := db.usernames[name];
      assert db.objects[k].id == users[k].userId;
    }
    forall id | id in db.ids
      ensures id in IdsOf(users)
    {
      var k := db.ids[id];
      assert users[k].userId == id;
    }
    forall id | id in IdsOf(users)
      ensures id in db.ids
    {
      var k :| 0 <= k < |users| && users[k].userId == id;
    }
  }

  /** Indexing row `i` by its id keeps every id at its last row. */
  lemma ExtendIds(users: seq<InitUser>, i: int, ids: map<UserId, nat>)
    requires 0 <= i < |users|
    requires forall id | id in ids :: LastWithId(users, i, id, ids[id])
    ensures var m := ids[users[i].userId := i];
      forall id | id in m :: LastWithId(users, i + 1, id, m[id])
  {
    var m := ids[users[i].userId := i];
    forall id | id in m
      ensures LastWithId(users, i + 1, id, m[id])
    {
      if id != users[i].userId {
        assert LastWithId(users, i, id, ids[id]);
      }
    }
  }

  /** Indexing row `i` by its username keeps every username at its last row. */
  lemma ExtendNames(users: seq<InitUser>, i: int, usernames: map<string, nat>)
    requires 0 <= i < |users|
    requires forall name | name in usernames :: LastWithName(users, i, name, usernames[name])
    ensures var m := usernames[users[i].username := i];
      forall name | name in m :: LastWithName(users, i + 1, name, m[name])
  {
    var m := usernames[users[i].username := i];
    forall name | name in m
      ensures LastWithName(users, i + 1, name, m[name])
    {
      if name != users[i].username {
        assert LastWithName(users, i, name, usernames[name]);
      }
    }
  }

  /** The first loop of `convertUserDB`: one credit-less object per user row, indexed by id and by username. */
  method IndexUsers(users: seq<InitUser>) returns (db: UserDB)
    ensures Indexed(users, db)
    ensures forall k | 0 <= k < |users| :: db.objects[k].credit == None
  {
    var objects: seq<User> := [];
    var ids: map<UserId, nat> := map[];
    var usernames: map<string, nat> := map[];
    var i := 0;
    while i < |users|
      invariant 0 <= i <= |users| && |objects| == i
      invariant forall k | 0 <= k < i :: objects[k] == User(users[k].userId, users[k].username, None)
      invariant forall id | id in ids :: LastWithId(users, i, id, ids[id])
      invariant forall name | name in usernames :: LastWithName(users, i, name, usernames[name])
      invariant forall k | 0 <= k < i :: users[k].userId in ids && users[k].username in usernames
    {
      var u := users[i];
      objects := objects + [User(u.userId, u.username, None)];
      ExtendIds(users, i, ids);
      ids := ids[u.userId := i];
      ExtendNames(users, i, usernames);
      usernames := usernames[u.username := i];
      i := i + 1;
    }
    db := UserDB(objects, ids, usernames);
  }

  /** Setting credits keeps the shape of the indexed database. */
  lemma RecreditIndexed(users: seq<InitUser>, db: UserDB, objects: seq<User>)
    requires Indexed(users, db) && |objects| == |users|
    requires forall k | 0 <= k < |users| :: objects[k].id == db.objects[k].id && objects[k].username == db.objects[k].username
    ensures Indexed(users, db.(objects := objects))
  {
  }

  /** One step of the account loop: the credit goes to the object the id index keeps. */
  lemma CreditStep(users: seq<InitUser>, ids: map<UserId, nat>, objects: seq<User>, accounts: seq<Account>, j: int)
    requires 0 <= j < |accounts| && accounts[j].userId in ids && ids[accounts[j].userId] < |objects| == |users|
    requires forall id | id in ids :: LastWithId(users, |users|, id, ids[id])
    requires forall k | 0 <= k < |users| :: users[k].userId in ids
    requires forall k | 0 <= k < |users| ::
      objects[k].credit == if ids[users[k].userId] == k then CreditOf(accounts[..j], users[k].userId) else None
    ensures var k := ids[accounts[j].userId];
      var next := objects[k := objects[k].(credit := Some(accounts[j].creditSEK))];
      forall k' | 0 <= k' < |users| ::
        next[k'].credit == if ids[users[k'].userId] == k' then CreditOf(accounts[..j + 1], users[k'].userId) else None
  {
    assert accounts[..j + 1][..j] == accounts[..j];
    var id := accounts[j].userId;
    var k := ids[id];
    assert LastWithId(users, |users|, id, k);
    var next := objects[k := objects[k].(credit := Some(accounts[j].creditSEK))];
    forall k' | 0 <= k' < |users|
      ensures next[k'].credit == if ids[users[k'].userId] == k' then CreditOf(accounts[..j + 1], users[k'].userId) else None
    {
      if k' == k {
        assert users[k'].userId == id;
      } else if ids[users[k'].userId] == k' {
        assert users[k'].userId != id;
      }
    }
  }

  /** The second loop of `convertUserDB`: each account row's credit goes to the object the id index keeps. */
  method AssignCredits(users: seq<InitUser>, ids: map<UserId, nat>, start: seq<User>, accounts: seq<Account>)
    returns (r: Option<seq<User>>)
    requires |start| == |users| && forall k | 0 <= k < |users| :: start[k].credit == None
    requires forall id | id in ids :: LastWithId(users, |users|, id, ids[id])
    requires forall k | 0 <= k < |users| :: users[k].userId in ids
    ensures r.None? <==> exists j | 0 <= j < |accounts| :: accounts[j].userId !in ids
    ensures r.Some? ==> |r.value| == |users|
    ensures r.Some? ==> forall k | 0 <= k < |users| ::
      r.value[k] == start[k].(credit := if ids[users[k].userId] == k then CreditOf(accounts, users[k].userId) else None)
  {
    var objects := start;
    var j := 0;
    while j < |accounts|
      invariant 0 <= j <= |accounts| && |objects| == |users|
      invariant forall k | 0 <= k < |users| ::
        objects[k] == start[k].(credit := if ids[users[k].userId] == k then CreditOf(accounts[..j], users[k].userId) else None)
      invariant forall j' | 0 <= j' < j :: accounts[j'].userId in ids
    {
      var a := accounts[j];
      if a.userId !in ids {
        return None;
      }
      var k := ids[a.userId];
      assert LastWithId(users, |users|, a.userId, k);
      CreditStep(users, ids, objects, accounts, j);
      objects := objects[k := objects[k].(credit := Some(a.creditSEK))];
      j := j + 1;
    }
    assert accounts[..j] == accounts;
    r := Some(objects);
  }

  /** `convertUserDB`'s result: the indexed objects, each holding the credit of its last account row if the id index keeps it. */
  predicate Converted(users: seq<InitUser>, accounts: seq<Account>, db: UserDB)
  {
    Indexed(users, db)
    && forall k | 0 <= k < |users| ::
      db.objects[k].credit == if db.ids[users[k].userId] == k then CreditOf(accounts, users[k].userId) else None
  }

  /** The two loops of `convertUserDB` together build a converted, well formed database. */
  lemma Assemble(users: seq<InitUser>, accounts: seq<Account>, db: UserDB, objects: seq<User>)
    requires Indexed(users, db) && |objects| == |users|
    requires forall k | 0 <= k < |users| ::
      objects[k] == db.objects[k].(credit := if db.ids[users[k].userId] == k then CreditOf(accounts, users[k].userId) else None)
    ensures Converted(users, accounts, db.(objects := objects))
    ensures WellFormedDB(db.(objects := objects)) && db.ids.Keys == IdsOf(users)
  {
    RecreditIndexed(users, db, objects);
    IndexedWellFormed(users, db.(objects := objects));
  }

  /**
   * `convertUserDB(initUserDB)`: one object per user row, indexed by id and
   * by username (a later row takes over the key of an earlier one), with
   * the credit of the user's last account row, or `null`, on the object
   * the id index keeps. An account row of an unknown user throws (`None`).
   */
  method ConvertUserDB(users: seq<InitUser>, accounts: seq<Account>) returns (r: Option<UserDB>)
    ensures r.None? <==> exists j | 0 <= j < |accounts| :: accounts[j].userId !in IdsOf(users)
    ensures r.Some? ==> Converted(users, accounts, r.value)
    ensures r.Some? ==> WellFormedDB(r.value) && r.value.ids.Keys == IdsOf(users)
  {
    var db := IndexUsers(users);
    var objects := AssignCredits(users, db.ids, db.objects, accounts);
    if objects.None? {
      IndexedWellFormed(users, db);
      return None;
    }
    Assemble(users, accounts, db, objects.value);
    r := Some(db.(objects := objects.value));
  }

  /** What the constructor reads back from storage; `None` for a missing entry. */
  datatype Stored = Stored(authenticatedIds: Option<set<UserId>>, activeId: Option<UserId>, creditDiffs: Option<map<UserId, int>>)

  /**
   * `id !== this.activeId` for a `for…in` key `id`, which is always a string:
   * it holds against `null` and against a number, and against a string only
   * when the two differ.
   */
  predicate KeyDiffers(id: UserId, active: Option<UserId>, activeIsNumber: bool)
  {
    active.None? || activeIsNumber || id != active.value
  }

  /** The ids the loop of `unauthenticateAllElse()` as written does not delete. */
  function KeptAsWritten(ids: set<UserId>, active: Option<UserId>, activeIsNumber: bool): (r: set<UserId>)
    ensures r <= ids
    ensures activeIsNumber ==> r == {}
    ensures !activeIsNumber ==> r == if active.Some? then ids * {active.value} else {}
  {
    set id | id in ids && !KeyDiffers(id, active, activeIsNumber)
  }

  /**
   * With the active id held as a number, the loop as written keeps nothing,
   * while the intended loop keeps the active id: a session where user 3 is
   * authenticated and active ends with nobody authenticated.
   */
  lemma ActiveIdLostAsWritten(ids: set<UserId>, active: UserId)
    requires active in ids
    ensures KeptAsWritten(ids, Some(active), true) == {}
    ensures ids * {active} == {active}
    ensures KeptAsWritten({3}, Some(3), true) == {} && KeptAsWritten({3}, Some(3), false) == {3}
  {
    assert KeptAsWritten({3}, Some(3), false) == {3} * {3};
  }

  class UserSession {
    const userDB: UserDB
    var authenticatedIds: set<UserId>
    var activeId: Option<UserId>
    var creditDiffs: map<UserId, int>

    ghost predicate Valid()
      reads this
    {
      WellFormedDB(userDB)
    }

    /** The session invariant: the active user is authenticated, and authenticated users exist. */
    ghost predicate Consistent()
      reads this
    {
      (activeId.Some? ==> activeId.value in authenticatedIds) && authenticatedIds <= userDB.ids.Keys
    }

    /** `new UserSession(userDB)` with what storage held; missing maps start empty. */
    constructor(db: UserDB, stored: Stored)
      requires WellFormedDB(db)
      ensures Valid() && userDB == db
      ensures authenticatedIds == stored.authenticatedIds.GetOr({})
      ensures activeId == stored.activeId
      ensures creditDiffs == stored.creditDiffs.GetOr(map[])
    {
      userDB := db;
      authenticatedIds := stored.authenticatedIds.GetOr({});
      activeId := stored.activeId;
      creditDiffs := stored.creditDiffs.GetOr(map[]);
    }

    /** `authenticate(userName, userPass)`: any password is accepted. */
    method Authenticate(userName: string, userPass: string) returns (ok: bool)
      requires Valid()
      modifies this
      ensures Valid() && creditDiffs == old(creditDiffs)
      ensures ok <==> userName in userDB.usernames
      ensures ok ==>
        var id := userDB.objects[userDB.usernames[userName]].id;
        authenticatedIds == old(authenticatedIds) + {id} && activeId == Some(id)
      ensures !ok ==> authenticatedIds == old(authenticatedIds) && activeId == old(activeId)
      ensures old(Consistent()) ==> Consistent()
    {
      if userName !in userDB.usernames {
        return false;
      }
      var user := userDB.objects[userDB.usernames[userName]];
      authenticatedIds := authenticatedIds + {user.id};
      activeId := Some(user.id);
      ok := true;
    }

    /** `switch(id)`, `None` standing for `null`. */
    method Switch(id: Option<UserId>) returns (ok: bool)
      requires Valid()
      modifies this
      ensures Valid() && authenticatedIds == old(authenticatedIds) && creditDiffs == old(creditDiffs)
      ensures ok <==> id.None? || id.value in authenticatedIds
      ensures activeId == if ok then id else old(activeId)
      ensures old(Consistent()) ==> Consistent()
    {
      if id.None? || id.value in authenticatedIds {
        activeId := id;
        ok := true;
      } else {
        ok := false;
      }
    }

    /** `unauthenticateAll()`. */
    method UnauthenticateAll()
      requires Valid()
      modifies this
      ensures Valid() && authenticatedIds == {} && activeId == None && creditDiffs == old(creditDiffs)
      ensures Consistent()
    {
      authenticatedIds := {};
      activeId := None;
    }

    /** `unauthenticateAllElse()`: every authenticated id but the active one is removed, one at a time. */
    method UnauthenticateAllElse()
      requires Valid()
      modifies this
      ensures Valid() && activeId == old(activeId) && creditDiffs == old(creditDiffs)
      ensures authenticatedIds == if activeId.Some? then old(authenticatedIds) * {activeId.value} else {}
      ensures old(Consistent()) ==> Consistent()
    {
      var keep := if activeId.Some? then {activeId.value} else {};
      var rest := authenticatedIds;
      while rest != {}
        invariant rest <= old(authenticatedIds)
        invariant authenticatedIds == rest + (old(authenticatedIds) - rest) * keep
        invariant activeId == old(activeId) && creditDiffs == old(creditDiffs)
        decreases rest
      {
        var id := Choose(rest);
        if id !in keep {
          authenticatedIds := authenticatedIds - {id};
        }
        rest := rest - {id};
      }
    }

    /**
     * `unauthenticateAllElse()` as written: the `for…in` key is a string and
     * is compared by `!==` with the active id, so an active id held as a
     * number (as `authenticate` stores a numeric `user_id`) matches no key
     * and is removed as well, leaving the active user unauthenticated.
     */
    method UnauthenticateAllElseAsWritten(activeIsNumber: bool)
      requires Valid()
      modifies this
      ensures Valid() && activeId == old(activeId) && creditDiffs == old(creditDiffs)
      ensures authenticatedIds == KeptAsWritten(old(authenticatedIds), activeId, activeIsNumber)
      ensures activeIsNumber && activeId.Some? ==> !Consistent()
    {
      var rest := authenticatedIds;
      while rest != {}
        invariant rest <= old(authenticatedIds)
        invariant authenticatedIds == rest + KeptAsWritten(old(authenticatedIds) - rest, activeId, activeIsNumber)
        invariant activeId == old(activeId) && creditDiffs == old(creditDiffs)
        decreases rest
      {
        var id := Choose(rest);
        if KeyDiffers(id, activeId, activeIsNumber) {
          authenticatedIds := authenticatedIds - {id};
        }
        rest := rest - {id};
      }
    }

    /** `unauthenticate(id)`: `null` counts as done; an id that is not authenticated fails. */
    method Unauthenticate(id: Option<UserId>) returns (ok: bool)
      requires Valid()
      modifies this
      ensures Valid() && creditDiffs == old(creditDiffs)
      ensures ok <==> id.None? || id.value in old(authenticatedIds)
      ensures authenticatedIds == if id.Some? then old(authenticatedIds) - {id.value} else old(authenticatedIds)
      ensures activeId == if id.Some? && ok && old(activeId) == id then None else old(activeId)
      ensures old(Consistent()) ==> Consistent()
    {
      if id.None? {
        return true;
      }
      if id.value in authenticatedIds {
        authenticatedIds := authenticatedIds - {id.value};
        if activeId == id {
          activeId := None;
        }
        return true;
      }
      ok := false;
    }

    /** `active()`: the active user's object; `None` for `null` and for an id the database lacks. */
    function Active(): (r: Option<User>)
      requires Valid()
      reads this
      ensures r.Some? <==> activeId.Some? && activeId.value in userDB.ids
      ensures r.Some? ==> r.value.id == activeId.value
      ensures Consistent() && activeId.Some? ==> r.Some?
    {
      match activeId
      case None => None
      case Some(id) => if id in userDB.ids then Some(userDB.objects[userDB.ids[id]]) else None
    }

    /** The credit of the active user without its stored difference, `null` read as 0. */
    function BaseCredit(): (r: Option<int>)
      requires Valid()
      reads this
      ensures r.Some? <==> Active().Some?
      ensures r.Some? ==> r.value == Active().value.credit.GetOr(0)
    {
      match Active()
      case None => None
      case Some(user) => Some(user.credit.GetOr(0))
    }

    /** The stored difference for the active user, absent read as 0. */
    function Diff(): int
      requires activeId.Some?
      reads this
    {
      if activeId.value in creditDiffs then creditDiffs[activeId.value] else 0
    }

    /**
     * `getCredit()`: the base credit plus the stored difference. Without an
     * active user the call throws (`None`).
     */
    function GetCredit(): (r: Option<int>)
      requires Valid()
      reads this
      ensures r.Some? <==> Active().Some?
      ensures r.Some? ==> r.value == BaseCredit().value + Diff()
    {
      match BaseCredit()
      case None => None
      case Some(base) => Some(base + Diff())
    }

    /**
     * `setCredit(credit)`: afterwards `getCredit()` is `credit`; the previous
     * credit is returned. Without an active user nothing changes (`None`).
     */
    method SetCredit(credit: int) returns (r: Option<int>)
      requires Valid()
      modifies this
      ensures Valid() && authenticatedIds == old(authenticatedIds) && activeId == old(activeId)
      ensures r == old(GetCredit())
      ensures r.None? ==> creditDiffs == old(creditDiffs)
      ensures r.Some? ==> GetCredit() == Some(credit)
      ensures r.Some? ==> creditDiffs == old(creditDiffs)[activeId.value := credit - BaseCredit().value]
    {
      var base := BaseCredit();
      if base.None? {
        return None;
      }
      var oldDiff := Diff();
      creditDiffs := creditDiffs[activeId.value := credit - base.value];
      r := Some(base.value + oldDiff);
    }

    /**
     * `modifyCredit(credit)`: afterwards `getCredit()` has risen by `credit`;
     * the previous credit is returned. Without an active user nothing changes.
     */
    method ModifyCredit(credit: int) returns (r: Option<int>)
      requires Valid()
      modifies this
      ensures Valid() && authenticatedIds == old(authenticatedIds) && activeId == old(activeId)
      ensures r == old(GetCredit())
      ensures r.None? ==> creditDiffs == old(creditDiffs)
      ensures r.Some? ==> GetCredit() == Some(r.value + credit)
      ensures r.Some? ==> creditDiffs == old(creditDiffs)[activeId.value := old(Diff()) + credit]
    {
      var base := BaseCredit();
      if base.None? {
        return None;
      }
      var oldDiff := Diff();
      creditDiffs := creditDiffs[activeId.value := oldDiff + credit];
      r := Some(base.value + oldDiff);
    }
  }
}
