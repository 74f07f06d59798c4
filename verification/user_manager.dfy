/** Attaching a login principal to an existing user, as the tests of
    `SetPrincipalOnCurrentUserByUserID`
    (pkg/auth/providers/common/usermanager_test.go) pin it: a principal
    already bound to another user is never moved. The user lookup, the
    user list and the update are inputs. */
module UserManager {
  import opened Wrappers

  const ConflictError := "refusing to set principal on user that is already bound to another user"

  datatype User = User(name: string, uid: string, principalIds: seq<string>)

  /** Some user other than `u` (by UID) already holds the principal. */
  predicate BoundElsewhere(users: seq<User>, u: User, principalId: string) {
    exists k :: 0 <= k < |users| && users[k].uid != u.uid && principalId in users[k].principalIds
  }

  /** `SetPrincipalOnCurrentUserByUserID(userID, principal)`: `getUser` is
      the lookup of `userID`, `users` the listing searched for holders of the
      principal, `update` the API's answer to the write. */
  function SetPrincipal(getUser: Result<User>, users: Result<seq<User>>, update: User -> Result<User>, principalId: string): (r: Result<User>)
    ensures r.Ok? ==> getUser.Ok? && users.Ok? && !BoundElsewhere(users.value, getUser.value, principalId)
    ensures getUser.Err? ==> r == Err(getUser.error)
    ensures getUser.Ok? && users.Err? ==> r == Err(users.error)
    ensures getUser.Ok? && users.Ok? && BoundElsewhere(users.value, getUser.value, principalId) ==> r == Err(ConflictError)
    ensures getUser.Ok? && users.Ok? && !BoundElsewhere(users.value, getUser.value, principalId) ==>
              var u := getUser.value;
              if principalId in u.principalIds then r == Ok(u)
              else r == update(u.(principalIds := u.principalIds + [principalId]))
  {
    match getUser
    case Err(e) => Err(e)
    case Ok(u) =>
      match users
      case Err(e) => Err(e)
      case Ok(all) =>
        if BoundElsewhere(all, u, principalId) then Err(ConflictError)
        else if principalId in u.principalIds then Ok(u)
        else update(u.(principalIds := u.principalIds + [principalId]))
  }

  /** An update that stores what it is given. */
  predicate Echoes(update: User -> Result<User>, u: User) {
    update(u) == Ok(u)
  }

  /** On success the user keeps its name and UID, and its principal list is
      the old one with the principal's name appended at the end. */
  lemma SetPrincipalAppends(u: User, users: seq<User>, update: User -> Result<User>, principalId: string)
    requires !BoundElsewhere(users, u, principalId) && principalId !in u.principalIds
    requires Echoes(update, u.(principalIds := u.principalIds + [principalId]))
    ensures var r := SetPrincipal(Ok(u), Ok(users), update, principalId);
            && r.Ok? && r.value.name == u.name && r.value.uid == u.uid
            && r.value.principalIds == u.principalIds + [principalId]
            && |r.value.principalIds| == |u.principalIds| + 1
            && r.value.principalIds[..|u.principalIds|] == u.principalIds
  {
  }

  /** A refused call writes nothing: the principal stays with its holder. */
  lemma ConflictLeavesHolder(u: User, holder: User, users: seq<User>, update: User -> Result<User>, principalId: string)
    requires holder in users && holder.uid != u.uid && principalId in holder.principalIds
    ensures SetPrincipal(Ok(u), Ok(users), update, principalId) == Err(ConflictError)
  {
  }

  /** Replace the stored copy of a user (by UID) with its new version. */
  function Replaced(users: seq<User>, u: User): (r: seq<User>)
    ensures |r| == |users|
    ensures forall k :: 0 <= k < |users| ==> r[k] == (if users[k].uid == u.uid then u else users[k])
  {
    seq(|users|, k requires 0 <= k < |users| => if users[k].uid == u.uid then u else users[k])
  }

  /** Setting the same principal again, against the stored result, changes
      nothing and succeeds. */
  lemma SetPrincipalIdempotent(u: User, users: seq<User>, update: User -> Result<User>, principalId: string)
    requires SetPrincipal(Ok(u), Ok(users), update, principalId).Ok?
    requires Echoes(update, u.(principalIds := u.principalIds + [principalId]))
    ensures var v := SetPrincipal(Ok(u), Ok(users), update, principalId).value;
            SetPrincipal(Ok(v), Ok(Replaced(users, v)), update, principalId) == Ok(v)
  {
    var v := SetPrincipal(Ok(u), Ok(users), update, principalId).value;
    assert v.uid == u.uid;
    assert principalId in v.principalIds by {
      if principalId !in u.principalIds {
        assert v.principalIds == u.principalIds + [principalId];
        assert v.principalIds[|u.principalIds|] == principalId;
      }
    }
    var after := Replaced(users, v);
  }
}
