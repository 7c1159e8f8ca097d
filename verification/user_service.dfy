/** internal/service/user_service.go: the case-insensitive user search and
    following a user. */
module UserService {
  import opened Wrappers
  import opened Text

  datatype User = User(id: int, username: string)

  datatype UserFollow = UserFollow(followerId: int, followingId: int)

  /** The search test: an empty query matches everyone; otherwise the
      lower-cased username must contain the lower-cased query. */
  predicate Matches(u: User, name: string)
    ensures name == "" ==> Matches(u, name)
    ensures Matches(u, name) ==> |name| <= |u.username|
  {
    name == "" || Contains(ToLower(u.username), ToLower(name))
  }

  /** The users of `users` that match, in their order, as often as they occur. */
  function MatchingUsers(users: seq<User>, name: string): (r: seq<User>)
    ensures |r| <= |users|
    ensures forall i :: 0 <= i < |r| ==> r[i] in users && Matches(r[i], name)
  {
    if users == [] then []
    else
      var last := users[|users| - 1];
      MatchingUsers(users[..|users| - 1], name) + if Matches(last, name) then [last] else []
  }

  /** A match for `name` is a user whose lower-cased name has the
      lower-cased query as a substring. */
  lemma MatchesIsSubstring(u: User, name: string)
    ensures Matches(u, name) <==> IsSubstring(ToLower(name), ToLower(u.username))
  {
    ContainsIsSubstring(ToLower(u.username), ToLower(name));
    if name == "" {
      assert ToLower(u.username)[0..0] == ToLower(name);
    }
  }

  /** The search ignores case on both sides. */
  lemma MatchesIgnoresCase(u: User, name: string)
    ensures Matches(u, ToLower(name)) <==> Matches(u, name)
    ensures Matches(u.(username := ToLower(u.username)), name) <==> Matches(u, name)
  {
    ToLowerIdempotent(name);
    ToLowerIdempotent(u.username);
    assert |ToLower(name)| == |name|;
  }

  /** The filter keeps each matching user once per occurrence and drops
      every other user. */
  lemma {:induction false} MatchingCounts(users: seq<User>, name: string, u: User)
    ensures multiset(MatchingUsers(users, name))[u] == if Matches(u, name) then multiset(users)[u] else 0
  {
    if users != [] {
      var init, last := users[..|users| - 1], users[|users| - 1];
      assert users == init + [last];
      assert multiset(users) == multiset(init) + multiset{last};
      var kept := if Matches(last, name) then [last] else [];
      assert multiset(MatchingUsers(users, name)) == multiset(MatchingUsers(init, name)) + multiset(kept);
      MatchingCounts(init, name, u);
    }
  }

  /** The filter keeps order: filtering a concatenation is concatenating the
      filtered parts. */
  lemma {:induction false} MatchingAppend(xs: seq<User>, ys: seq<User>, name: string)
    ensures MatchingUsers(xs + ys, name) == MatchingUsers(xs, name) + MatchingUsers(ys, name)
  {
    if ys != [] {
      var init := ys[..|ys| - 1];
      MatchingAppend(xs, init, name);
      assert (xs + ys)[..|xs + ys| - 1] == xs + init;
    } else {
      assert xs + ys == xs;
    }
  }

  /** An empty query returns every user, in order. */
  lemma {:induction false} EmptyQueryMatchesAll(users: seq<User>)
    ensures MatchingUsers(users, "") == users
  {
    if users != [] {
      EmptyQueryMatchesAll(users[..|users| - 1]);
    }
  }

  /** Filtering one more user extends the filtered prefix by that user
      exactly when it matches. */
  lemma MatchingStep(users: seq<User>, i: nat, name: string)
    requires i < |users|
    ensures MatchingUsers(users[..i + 1], name) ==
              MatchingUsers(users[..i], name) + if Matches(users[i], name) then [users[i]] else []
  {
    assert users[..i + 1][..i] == users[..i];
  }

  /** SearchUsers over the repository's answer `users`: its error comes back
      unchanged; an empty result is the error "no users found"; otherwise the
      matching users. */
  method SearchUsers(users: Result<seq<User>>, name: string) returns (r: Result<seq<User>>)
    ensures users.Err? ==> r == Err(users.error)
    ensures users.Ok? && MatchingUsers(users.value, name) == [] ==> r == Err(New("no users found"))
    ensures users.Ok? && MatchingUsers(users.value, name) != [] ==> r == Ok(MatchingUsers(users.value, name))
  {
    if users.Err? {
      return Err(users.error);
    }
    var all := users.value;
    var filtered: seq<User> := [];
    for i := 0 to |all|
      invariant filtered == MatchingUsers(all[..i], name)
    {
      MatchingStep(all, i, name);
      if Matches(all[i], name) {
        filtered := filtered + [all[i]];
      }
    }
    assert all[..|all|] == all;
    if |filtered| == 0 {
      return Err(New("no users found"));
    }
    r := Ok(filtered);
  }

  class UserTable {
    var users: map<int, User>
    var follows: seq<UserFollow>

    constructor ()
      ensures users == map[] && follows == []
    {
      users, follows := map[], [];
    }

    /** GetUserByID: First by primary key. */
    function GetByID(id: int, dbErr: Option<Error>): (r: Result<User>)
      reads this
      ensures r.Ok? <==> dbErr.None? && id in users
      ensures r.Ok? ==> r.value == users[id]
    {
      if dbErr.Some? then Err(Wrap("failed to get user by id", dbErr.value))
      else if id !in users then Err(Wrap("failed to get user by id", RecordNotFound))
      else Ok(users[id])
    }

    /** CreateUserFollow: inserts the follow row. */
    method CreateFollow(f: UserFollow, dbErr: Option<Error>) returns (err: Outcome)
      modifies this
      ensures users == old(users)
      ensures dbErr.Some? ==> err.Fail? && follows == old(follows)
      ensures dbErr.None? ==> err == Pass && follows == old(follows) + [f]
    {
      if dbErr.Some? {
        return Fail(Wrap("failed to create user follow", dbErr.value));
      }
      follows := follows + [f];
      err := Pass;
    }
  }

  /** FollowUser: the target must exist; then one follow from the current
      user to the target is recorded. Neither the current user's existence
      nor an existing follow is checked. */
  method FollowUser(table: UserTable, currentUserId: int, targetId: int,
                    lookupErr: Option<Error>, createErr: Option<Error>) returns (err: Outcome)
    modifies table
    ensures table.users == old(table.users)
    ensures lookupErr.Some? || targetId !in old(table.users) ==>
              err == Fail(New("target user not found")) && table.follows == old(table.follows)
    ensures lookupErr.None? && targetId in old(table.users) && createErr.Some? ==>
              err == Fail(New("error following user")) && table.follows == old(table.follows)
    ensures lookupErr.None? && targetId in old(table.users) && createErr.None? ==>
              err == Pass && table.follows == old(table.follows) + [UserFollow(currentUserId, targetId)]
  {
    var target := table.GetByID(targetId, lookupErr);
    if target.Err? {
      return Fail(New("target user not found"));
    }
    var created := table.CreateFollow(UserFollow(currentUserId, targetId), createErr);
    if created.Fail? {
      return Fail(New("error following user"));
    }
    err := Pass;
  }
}
