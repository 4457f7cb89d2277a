/** The user-management panel of the settings page: a local list of users
    with an add form (name, email, role) and a remove button per user.
    Alerts and the confirmation dialog are inputs or left out. */
module Settings {
  import opened Util

  datatype User = User(id: int, name: string, email: string, role: string, lastLogin: string)

  /** The list and the add form's three fields. */
  datatype UserPanel = UserPanel(users: seq<User>, newUserName: string, newUserEmail: string, newUserRole: string)

  const DEFAULT_ROLE: string := "viewer"
  const NEVER: string := "Never"

  const INITIAL_USERS: seq<User> := [
    User(1, "Admin User", "admin@genesys.com", "admin", "2025-04-15"),
    User(2, "HR Manager", "hr@genesys.com", "manager", "2025-04-14"),
    User(3, "Department Lead", "lead@genesys.com", "viewer", "2025-04-10")]

  function InitialPanel(): UserPanel
  {
    UserPanel(INITIAL_USERS, "", "", DEFAULT_ROLE)
  }

  /** Every id appears once. */
  predicate UniqueIds(users: seq<User>)
  {
    forall i, j | 0 <= i < j < |users| :: users[i].id != users[j].id
  }

  /** `addUser` as written: nothing happens while the name or email is
      empty; otherwise a user numbered one past the list's length is
      appended, never logged in, and the form is cleared. */
  function AddUser(s: UserPanel): (r: UserPanel)
    ensures s.newUserName == "" || s.newUserEmail == "" ==> r == s
    ensures s.newUserName != "" && s.newUserEmail != "" ==>
      && r.users == s.users + [User(|s.users| + 1, s.newUserName, s.newUserEmail, s.newUserRole, NEVER)]
      && r.newUserName == "" && r.newUserEmail == "" && r.newUserRole == DEFAULT_ROLE
  {
    if s.newUserName == "" || s.newUserEmail == "" then s
    else
      var newUser := User(|s.users| + 1, s.newUserName, s.newUserEmail, s.newUserRole, NEVER);
      UserPanel(s.users + [newUser], "", "", DEFAULT_ROLE)
  }

  function KeepOthers(id: int): User -> bool
  {
    (u: User) => u.id != id
  }

  /** `removeUser`: once confirmed, every user with the id is dropped and
      the rest keep their order; unconfirmed, nothing changes. */
  function RemoveUser(s: UserPanel, id: int, confirmed: bool): (r: UserPanel)
    ensures !confirmed ==> r == s
    ensures confirmed ==> forall u :: u in r.users <==> u in s.users && u.id != id
    ensures confirmed ==> IsSubsequence(r.users, s.users)
    ensures confirmed ==> forall u :: Count(r.users, u) == if u.id != id then Count(s.users, u) else 0
    ensures r.newUserName == s.newUserName && r.newUserEmail == s.newUserEmail && r.newUserRole == s.newUserRole
  {
    if confirmed then
      FilterCount(s.users, KeepOthers(id));
      s.(users := Filter(s.users, KeepOthers(id)))
    else s
  }

  /** Adding keeps the users already listed, in place, and adds exactly
      one. */
  lemma AddKeepsExisting(s: UserPanel)
    requires s.newUserName != "" && s.newUserEmail != ""
    ensures |AddUser(s).users| == |s.users| + 1
    ensures AddUser(s).users[..|s.users|] == s.users
    ensures AddUser(s).users[|s.users|].lastLogin == NEVER
  {
    assert AddUser(s).users[..|s.users|] == s.users;
  }

  /** Removing after a remove of the same id changes nothing more. */
  lemma RemoveIdempotent(s: UserPanel, id: int)
    ensures RemoveUser(RemoveUser(s, id, true), id, true) == RemoveUser(s, id, true)
  {
    var once := RemoveUser(s, id, true).users;
    assert forall u | u in once :: KeepOthers(id)(u);
  }

  // ---------------------------------------------------------------------------
  // Numbering by length repeats ids

  /** Removing the first of the initial users and adding one numbers the
      new user 3, the id the last initial user already has; removing id 3
      then drops both. */
  lemma DuplicateIdAfterRemoval()
    ensures var removed := RemoveUser(InitialPanel(), 1, true);
      var added := AddUser(removed.(newUserName := "New", newUserEmail := "new@genesys.com"));
      && |added.users| == 3
      && added.users[1].id == added.users[2].id == 3
      && !UniqueIds(added.users)
      && |RemoveUser(added, 3, true).users| == 1
  {
    var removed := RemoveUser(InitialPanel(), 1, true);
    RemoveFirstInitial();
    var added := AddUser(removed.(newUserName := "New", newUserEmail := "new@genesys.com"));
    assert added.users == INITIAL_USERS[1..] + [User(3, "New", "new@genesys.com", DEFAULT_ROLE, NEVER)];
    assert added.users[1].id == added.users[2].id == 3;
    RemoveBothThrees(added.users);
  }

  lemma RemoveFirstInitial()
    ensures RemoveUser(InitialPanel(), 1, true).users == INITIAL_USERS[1..]
  {
    var a, b, c := INITIAL_USERS[0], INITIAL_USERS[1], INITIAL_USERS[2];
    assert INITIAL_USERS == [a, b] + [c] && [a, b] == [a] + [b] && [a] == [] + [a];
    FilterAppend([], a, KeepOthers(1));
    FilterAppend([a], b, KeepOthers(1));
    FilterAppend([a, b], c, KeepOthers(1));
  }

  lemma RemoveBothThrees(users: seq<User>)
    requires |users| == 3 && users[0].id == 2 && users[1].id == 3 && users[2].id == 3
    ensures Filter(users, KeepOthers(3)) == users[..1]
  {
    var b, c, d := users[0], users[1], users[2];
    assert users == [b, c] + [d] && [b, c] == [b] + [c] && [b] == [] + [b];
    FilterAppend([], b, KeepOthers(3));
    FilterAppend([b], c, KeepOthers(3));
    FilterAppend([b, c], d, KeepOthers(3));
  }

  /** One past the largest id in the list (1 for an empty list). */
  function NextId(users: seq<User>): (n: int)
    ensures forall u | u in users :: u.id < n
    ensures |users| == 0 ==> n == 1
  {
    if |users| == 0 then 1
    else
      var rest := NextId(users[..|users| - 1]);
      var last := users[|users| - 1];
      assert forall u | u in users :: u in users[..|users| - 1] || u == last;
      if last.id + 1 > rest then last.id + 1 else rest
  }

  /** `addUser` with the new user numbered one past the largest id. */
  function AddUserFresh(s: UserPanel): (r: UserPanel)
    ensures s.newUserName == "" || s.newUserEmail == "" ==> r == s
    ensures s.newUserName != "" && s.newUserEmail != "" ==>
      && r.users == s.users + [User(NextId(s.users), s.newUserName, s.newUserEmail, s.newUserRole, NEVER)]
      && r.newUserName == "" && r.newUserEmail == "" && r.newUserRole == DEFAULT_ROLE
  {
    if s.newUserName == "" || s.newUserEmail == "" then s
    else
      var newUser := User(NextId(s.users), s.newUserName, s.newUserEmail, s.newUserRole, NEVER);
      UserPanel(s.users + [newUser], "", "", DEFAULT_ROLE)
  }

  /** With fresh numbering, ids stay unique through any add and remove, so
      a removal drops at most one user. */
  lemma FreshIdsStayUnique(s: UserPanel, id: int)
    requires UniqueIds(s.users)
    ensures UniqueIds(AddUserFresh(s).users)
    ensures UniqueIds(RemoveUser(s, id, true).users)
    ensures |RemoveUser(s, id, true).users| >= |s.users| - 1
  {
    var r := AddUserFresh(s).users;
    forall i, j | 0 <= i < j < |r| ensures r[i].id != r[j].id {
      if j == |s.users| {
        assert r[i] == s.users[i];
        assert s.users[i] in s.users;
      }
    }
    UniqueAfterFilter(s.users, id);
  }

  lemma UniqueAfterFilter(users: seq<User>, id: int)
    requires UniqueIds(users)
    ensures UniqueIds(Filter(users, KeepOthers(id)))
    ensures |Filter(users, KeepOthers(id))| >= |users| - 1
  {
    SubsequenceKeepsUnique(Filter(users, KeepOthers(id)), users);
    FilterDropsAtMostOne(users, id);
  }

  /** Deleting users from a list of unique ids keeps them unique. */
  lemma SubsequenceKeepsUnique(sub: seq<User>, users: seq<User>)
    requires IsSubsequence(sub, users)
    requires UniqueIds(users)
    ensures UniqueIds(sub)
  {
    var idx: seq<nat> :| |idx| == |sub|
      && (forall i :: 0 <= i < |idx| ==> idx[i] < |users| && users[idx[i]] == sub[i])
      && (forall i, j :: 0 <= i < j < |idx| ==> idx[i] < idx[j]);
    forall i, j | 0 <= i < j < |sub| ensures sub[i].id != sub[j].id {
      assert users[idx[i]].id != users[idx[j]].id;
    }
  }

  /** With unique ids, a removal by id drops at most one user. */
  lemma {:induction false} FilterDropsAtMostOne(users: seq<User>, id: int)
    requires UniqueIds(users)
    ensures |Filter(users, KeepOthers(id))| >= |users| - 1
  {
    if |users| > 0 {
      FilterLast(users, KeepOthers(id));
      if users[|users| - 1].id == id {
        OthersKeptBeforeLast(users);
      } else {
        UniquePrefix(users);
        FilterDropsAtMostOne(users[..|users| - 1], id);
      }
    }
  }

  /** Dropping the last user keeps the ids unique. */
  lemma UniquePrefix(users: seq<User>)
    requires UniqueIds(users) && |users| > 0
    ensures UniqueIds(users[..|users| - 1])
  {
  }

  /** With unique ids, removing the last user's id keeps everybody before
      it. */
  lemma OthersKeptBeforeLast(users: seq<User>)
    requires UniqueIds(users) && |users| > 0
    ensures var id := users[|users| - 1].id;
      Filter(users[..|users| - 1], KeepOthers(id)) == users[..|users| - 1]
  {
    var init := users[..|users| - 1];
    assert forall i | 0 <= i < |init| :: init[i] == users[i];
    KeepsAllWithoutId(init, users[|users| - 1].id);
  }

  /** Filtering a non-empty list filters all but its last user and then
      keeps or drops that one. */
  lemma FilterLast(users: seq<User>, keep: User -> bool)
    requires |users| > 0
    ensures var last := users[|users| - 1];
      Filter(users, keep) == Filter(users[..|users| - 1], keep) + (if keep(last) then [last] else [])
  {
  }

  /** A list in which no user has the id loses nobody. */
  lemma KeepsAllWithoutId(users: seq<User>, id: int)
    requires forall u | u in users :: u.id != id
    ensures Filter(users, KeepOthers(id)) == users
  {
  }

  /** The two numberings agree while the ids are exactly 1 to n, as they
      are before anything is removed. */
  lemma NumberingsAgreeWithoutRemoval(users: seq<User>)
    requires forall i | 0 <= i < |users| :: users[i].id == i + 1
    ensures NextId(users) == |users| + 1
  {
    if |users| > 0 {
      NumberingsAgreeWithoutRemoval(users[..|users| - 1]);
    }
  }

  /** The initial list has unique ids numbered 1 to 3. */
  lemma InitialIds()
    ensures UniqueIds(INITIAL_USERS)
    ensures NextId(INITIAL_USERS) == |INITIAL_USERS| + 1
  {
    NumberingsAgreeWithoutRemoval(INITIAL_USERS);
  }
}
