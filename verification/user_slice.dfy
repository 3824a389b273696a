/**
  The user slice of the application state: the signed-in user's profile
  fields, each a string or `null`, and the reducers that replace, merge and
  clear them.
 */
module UserSlice {
  import opened Outcomes

  /** A profile field: `null` or a string. */
  datatype Nullable = Null | Text(value: string)

  datatype UserState = UserState(id: Nullable, name: Nullable, email: Nullable, avatarUrl: Nullable)

  /** The slice's initial state: every field `null`. */
  const InitialUser: UserState := UserState(Null, Null, Null, Null)

  /**
    A `Partial<UserState>` payload: each field is present with a value
    (`Some`) or absent (`None`).
   */
  datatype UserPatch = UserPatch(id: Option<Nullable>, name: Option<Nullable>, email: Option<Nullable>,
                                 avatarUrl: Option<Nullable>)

  /** The `setUser` payload: `id`, `name` and `email` are required, `avatarUrl` optional. */
  datatype UserPayload = UserPayload(id: Nullable, name: Nullable, email: Nullable, avatarUrl: Option<Nullable>)

  /** The payload with no fields. */
  const EmptyPatch: UserPatch := UserPatch(None, None, None, None)

  /** One field of an object spread: the payload's value if present, else the old one. */
  function Spread(current: Nullable, field: Option<Nullable>): (v: Nullable) {
    match field
    case Some(v) => v
    case None => current
  }

  /** `updateUser`: `{...state, ...payload}`. */
  function UpdateUser(s: UserState, p: UserPatch): (r: UserState)
    ensures p.id.Some? ==> r.id == p.id.value
    ensures p.id.None? ==> r.id == s.id
    ensures p.name.Some? ==> r.name == p.name.value
    ensures p.name.None? ==> r.name == s.name
    ensures p.email.Some? ==> r.email == p.email.value
    ensures p.email.None? ==> r.email == s.email
    ensures p.avatarUrl.Some? ==> r.avatarUrl == p.avatarUrl.value
    ensures p.avatarUrl.None? ==> r.avatarUrl == s.avatarUrl
  {
    UserState(Spread(s.id, p.id), Spread(s.name, p.name), Spread(s.email, p.email),
              Spread(s.avatarUrl, p.avatarUrl))
  }

  /** `setUser`: `{...state, ...payload}` with a full payload. */
  function SetUser(s: UserState, u: UserPayload): (r: UserState)
    ensures r.id == u.id && r.name == u.name && r.email == u.email
    ensures u.avatarUrl.Some? ==> r.avatarUrl == u.avatarUrl.value
    ensures u.avatarUrl.None? ==> r.avatarUrl == s.avatarUrl
  {
    UpdateUser(s, UserPatch(Some(u.id), Some(u.name), Some(u.email), u.avatarUrl))
  }

  /** `clearUser`: back to the initial state. */
  function ClearUser(s: UserState): (r: UserState)
    ensures r.id == Null && r.name == Null && r.email == Null && r.avatarUrl == Null
  {
    InitialUser
  }

  /** The payload whose spread is spreading `p` and then `q`: `q`'s present fields win. */
  function Merge(p: UserPatch, q: UserPatch): (m: UserPatch) {
    UserPatch(if q.id.Some? then q.id else p.id,
              if q.name.Some? then q.name else p.name,
              if q.email.Some? then q.email else p.email,
              if q.avatarUrl.Some? then q.avatarUrl else p.avatarUrl)
  }

  /**
    The initial state is signed out, every field `null`: a `setUser`
    without an avatar from it leaves the avatar `null`, and `clearUser`
    returns to it from anywhere.
   */
  lemma InitialUserSignedOut(s: UserState, u: UserPayload)
    ensures InitialUser.id == Null && InitialUser.name == Null
    ensures InitialUser.email == Null && InitialUser.avatarUrl == Null
    ensures u.avatarUrl.None? ==> SetUser(InitialUser, u).avatarUrl == Null
    ensures ClearUser(s) == InitialUser
  {
  }

  /** An empty payload changes nothing. */
  lemma UpdateWithEmptyPatch(s: UserState)
    ensures UpdateUser(s, EmptyPatch) == s
  {
  }

  /** Applying the same payload twice is applying it once. */
  lemma UpdateIdempotent(s: UserState, p: UserPatch)
    ensures UpdateUser(UpdateUser(s, p), p) == UpdateUser(s, p)
  {
  }

  /** Two updates in a row are one update with the merged payload. */
  lemma UpdateComposes(s: UserState, p: UserPatch, q: UserPatch)
    ensures UpdateUser(UpdateUser(s, p), q) == UpdateUser(s, Merge(p, q))
  {
  }

  /** A payload with every field present determines the state, whatever came before. */
  lemma FullPatchForgetsPrior(s: UserState, t: UserState, p: UserPatch)
    requires p.id.Some? && p.name.Some? && p.email.Some? && p.avatarUrl.Some?
    ensures UpdateUser(s, p) == UpdateUser(t, p)
  {
  }

  /** `clearUser` after anything is the initial state, and clearing twice is clearing once. */
  lemma ClearUserResets(s: UserState, p: UserPatch)
    ensures ClearUser(UpdateUser(s, p)) == InitialUser
    ensures ClearUser(ClearUser(s)) == ClearUser(s)
  {
  }
}
