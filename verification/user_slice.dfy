/** The signed-in user reducer (slices/user.ts). */
module UserSlice {
  import opened Models

  /** A payload as Object.assign sees it: each key present (Some) or absent
      (None). The nullable ids are present-with-null as Some(None). Callers
      always pass a complete UserState (see Complete), but the reducer itself
      copies whatever keys it is given. */
  datatype ProfilePatch = ProfilePatch(
    userId: Option<Option<int>>,
    name: Option<string>,
    email: Option<string>,
    phone: Option<string>,
    address: Option<string>,
    avatarUrl: Option<string>,
    roleId: Option<Option<int>>)

  /** A full UserState as a payload: every key present. */
  function Complete(u: UserState): ProfilePatch
  {
    ProfilePatch(Some(u.userId), Some(u.name), Some(u.email), Some(u.phone),
                 Some(u.address), Some(u.avatarUrl), Some(u.roleId))
  }

  /** Nobody signed in: no id, no role and every text field empty. */
  predicate IsSignedOut(s: UserState) {
    s.userId.None? && s.roleId.None?
    && s.name == "" && s.email == "" && s.phone == "" && s.address == "" && s.avatarUrl == ""
  }

  /** initialState. */
  function InitialUser(): (s: UserState)
    ensures IsSignedOut(s)
  {
    UserState(None, "", "", "", "", "", None)
  }

  /** There is one signed-out state, so the initial state is it. */
  lemma SignedOutIsInitial(s: UserState)
    requires IsSignedOut(s)
    ensures s == InitialUser()
  {
  }

  function Assign<T>(key: Option<T>, current: T): T
  {
    match key
    case Some(v) => v
    case None => current
  }

  /** setUserProfile: Object.assign(state, payload). Every key the payload
      carries is overwritten, every other field keeps its value. */
  function SetUserProfile(s: UserState, p: ProfilePatch): (r: UserState)
    ensures p.userId.Some? ==> r.userId == p.userId.value
    ensures p.userId.None? ==> r.userId == s.userId
    ensures p.name.Some? ==> r.name == p.name.value
    ensures p.name.None? ==> r.name == s.name
    ensures p.email.Some? ==> r.email == p.email.value
    ensures p.email.None? ==> r.email == s.email
    ensures p.phone.Some? ==> r.phone == p.phone.value
    ensures p.phone.None? ==> r.phone == s.phone
    ensures p.address.Some? ==> r.address == p.address.value
    ensures p.address.None? ==> r.address == s.address
    ensures p.avatarUrl.Some? ==> r.avatarUrl == p.avatarUrl.value
    ensures p.avatarUrl.None? ==> r.avatarUrl == s.avatarUrl
    ensures p.roleId.Some? ==> r.roleId == p.roleId.value
    ensures p.roleId.None? ==> r.roleId == s.roleId
  {
    UserState(Assign(p.userId, s.userId), Assign(p.name, s.name), Assign(p.email, s.email),
              Assign(p.phone, s.phone), Assign(p.address, s.address),
              Assign(p.avatarUrl, s.avatarUrl), Assign(p.roleId, s.roleId))
  }

  /** A complete payload becomes the state, whatever the state was. */
  lemma SetCompleteProfile(s: UserState, u: UserState)
    ensures SetUserProfile(s, Complete(u)) == u
  {
  }

  /** Dispatching the same payload twice is dispatching it once. */
  lemma SetUserProfileIdempotent(s: UserState, p: ProfilePatch)
    ensures SetUserProfile(SetUserProfile(s, p), p) == SetUserProfile(s, p)
  {
  }

  /** The account page's `{ ...userData, ...updateData }`: the five editable
      fields replaced, the ids kept. */
  function MergeProfileUpdate(u: UserState, name: string, email: string, phone: string,
                              address: string, avatarUrl: string): (r: UserState)
    ensures r.userId == u.userId && r.roleId == u.roleId
    ensures r.name == name && r.email == email && r.phone == phone
    ensures r.address == address && r.avatarUrl == avatarUrl
  {
    u.(name := name, email := email, phone := phone, address := address, avatarUrl := avatarUrl)
  }

  /** Dispatching the merged record, whatever the store held, amounts to
      assigning only the five edited keys onto the user data: the ids come
      through untouched. */
  lemma UpdateDispatchIsPartialAssign(s: UserState, u: UserState, name: string, email: string,
                                      phone: string, address: string, avatarUrl: string)
    ensures SetUserProfile(s, Complete(MergeProfileUpdate(u, name, email, phone, address, avatarUrl)))
         == SetUserProfile(u, ProfilePatch(None, Some(name), Some(email), Some(phone), Some(address), Some(avatarUrl), None))
  {
  }

  /** deleteUser: back to the initial state. */
  function DeleteUser(s: UserState): (r: UserState)
    ensures IsSignedOut(r)
  {
    InitialUser()
  }

  /** deleteUser forgets the prior state entirely. */
  lemma DeleteUserForgets(s: UserState, t: UserState)
    ensures DeleteUser(s) == DeleteUser(t)
  {
  }
}
