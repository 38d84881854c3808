/** The audit stamps every record carries: who created and who last
    modified it, and whether the modification time is to be updated. The
    current request's user, kept per thread by the middleware, is a
    parameter of save here. */
module Stamps {
  import opened Common

  datatype User = User(id: int, isAuthenticated: bool)

  datatype AuthStamps = AuthStamps(createdBy: Option<int>, modifiedBy: Option<int>)

  predicate SignedIn(user: Option<User>)
  {
    user.Some? && user.value.isAuthenticated
  }

  /** AuthStampedModel.save: an authenticated user becomes the modifier on
      every save and the creator on the save that adds the row; without
      one neither stamp changes. */
  function AuthStamp(s: AuthStamps, user: Option<User>, adding: bool): (r: AuthStamps)
    ensures SignedIn(user) ==> r.modifiedBy == Some(user.value.id)
    ensures SignedIn(user) && adding ==> r.createdBy == Some(user.value.id)
    ensures !adding ==> r.createdBy == s.createdBy
    ensures !SignedIn(user) ==> r == s
  {
    if SignedIn(user) then
      AuthStamps(if adding then Some(user.value.id) else s.createdBy, Some(user.value.id))
    else s
  }

  /** TimeStampedModel.save: `update_modified` from the keyword argument,
      else the value already set on the instance, else True. */
  function UpdateModified(kw: Option<bool>, existing: Option<bool>): (r: bool)
    ensures kw.Some? ==> r == kw.value
    ensures kw.None? && existing.Some? ==> r == existing.value
    ensures kw.None? && existing.None? ==> r
  {
    kw.GetOr(existing.GetOr(true))
  }

  /** The creator is the user of the adding save and no later save changes
      it; the modifier is the last signed-in user. */
  lemma StampsOverSaves(s: AuthStamps, first: Option<User>, second: Option<User>)
    ensures AuthStamp(AuthStamp(s, first, true), second, false).createdBy ==
      (if SignedIn(first) then Some(first.value.id) else s.createdBy)
    ensures AuthStamp(AuthStamp(s, first, true), second, false).modifiedBy ==
      (if SignedIn(second) then Some(second.value.id)
       else if SignedIn(first) then Some(first.value.id) else s.modifiedBy)
  {
  }

  /** Once set by a keyword argument, `update_modified` is kept by later
      saves that pass none. */
  lemma UpdateModifiedSticks(kw: bool, existing: Option<bool>)
    ensures UpdateModified(None, Some(UpdateModified(Some(kw), existing))) == kw
  {
  }

  /** AuthTimeStampedModel: the auth stamps first, then the time-stamp
      flag, then the row is written and is no longer being added. */
  class AuthTimeStamped {
    var createdBy: Option<int>
    var modifiedBy: Option<int>
    var updateModified: Option<bool>
    var adding: bool

    constructor()
      ensures createdBy.None? && modifiedBy.None? && updateModified.None? && adding
    {
      createdBy := None;
      modifiedBy := None;
      updateModified := None;
      adding := true;
    }

    function Auth(): AuthStamps
      reads this
    {
      AuthStamps(createdBy, modifiedBy)
    }

    method Save(user: Option<User>, kw: Option<bool>)
      modifies this
      ensures Auth() == AuthStamp(old(Auth()), user, old(adding))
      ensures updateModified == Some(UpdateModified(kw, old(updateModified)))
      ensures !adding
    {
      if user.Some? && user.value.isAuthenticated {
        modifiedBy := Some(user.value.id);
        if adding {
          createdBy := Some(user.value.id);
        }
      }
      updateModified := Some(if kw.Some? then kw.value else if updateModified.Some? then updateModified.value else true);
      adding := false;
    }
  }
}
