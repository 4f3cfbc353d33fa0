/** The app's authentication context: the signed-in user held in memory,
    the mock `login` that derives a user from an email address, `register`,
    `logout`, and the partial `updateUser` merge. Persistence to device
    storage is not modelled. */
module AuthContext {
  import opened Options
  import opened Text

  datatype UserRole = DRIVER | PASSENGER | ADMIN

  datatype UiMode = SIMPLE | MODERN

  datatype User = User(
    id: string, email: string, name: string, role: UserRole,
    phone: Option<string>, avatar: Option<string>,
    assignedRoute: Option<string>, uiMode: Option<UiMode>)

  datatype RegisterData = RegisterData(email: string, password: string, name: string, role: UserRole, phone: Option<string>)

  /** One key of a `Partial<User>`: absent, or present with a value (for an
      optional field the value may itself be `undefined`, i.e. `None`). */
  datatype Patch<T> = Absent | Given(value: T)

  datatype UserPatch = UserPatch(
    id: Patch<string>, email: Patch<string>, name: Patch<string>, role: Patch<UserRole>,
    phone: Patch<Option<string>>, avatar: Patch<Option<string>>,
    assignedRoute: Patch<Option<string>>, uiMode: Patch<Option<UiMode>>)

  // ---------------------------------------------------------------------------
  // login

  /** The role a login derives from the address: ADMIN exactly when it
      contains "admin", PASSENGER exactly when it contains neither word. */
  function RoleFromEmail(email: string): (r: UserRole)
    ensures r == ADMIN <==> Includes(email, "admin")
    ensures r == PASSENGER <==> !Includes(email, "admin") && !Includes(email, "driver")
  {
    if Includes(email, "admin") then ADMIN
    else if Includes(email, "driver") then DRIVER
    else PASSENGER
  }

  /** `email.split('@')[0]` */
  function NameFromEmail(email: string): string {
    BeforeFirst(email, '@')
  }

  /** The mock user `login` stores. */
  function LoginUser(email: string): (u: User)
    ensures u.id == "1" && u.email == email && u.uiMode == Some(MODERN)
    ensures u.phone.None? && u.avatar.None? && u.assignedRoute.None?
    ensures '@' !in u.name
    ensures '@' in email ==> |u.name| < |email| && email[..|u.name|] == u.name && email[|u.name|] == '@'
    ensures '@' !in email ==> u.name == email
    ensures u.role == ADMIN <==> Includes(email, "admin")
    ensures u.role == DRIVER <==> !Includes(email, "admin") && Includes(email, "driver")
  {
    User("1", email, NameFromEmail(email), RoleFromEmail(email), None, None, None, Some(MODERN))
  }

  /** For every address, "admin" takes precedence over "driver", an address
      containing "driver" is never a passenger's, and one with neither word
      is a passenger's; for instance "admin.driver@x" is an admin's. */
  lemma RolePrecedence(email: string)
    ensures Includes(email, "admin") ==> RoleFromEmail(email) == ADMIN
    ensures Includes(email, "driver") ==> RoleFromEmail(email) != PASSENGER
    ensures !Includes(email, "admin") && !Includes(email, "driver") ==> RoleFromEmail(email) == PASSENGER
    ensures RoleFromEmail("admin.driver@x") == ADMIN
  {
    var e := "admin.driver@x";
    assert e[0..5] == "admin";
    IncludesFromOffset(e, "admin", 0);
  }

  // ---------------------------------------------------------------------------
  // register

  /** The user `register` stores: the given fields, no UI mode, and as id
      the decimal text of the clock reading `now` in milliseconds. */
  function RegisteredUser(data: RegisterData, now: nat): (u: User)
    ensures u.email == data.email && u.name == data.name && u.role == data.role && u.phone == data.phone
    ensures u.uiMode.None? && u.avatar.None? && u.assignedRoute.None?
    ensures u.id != "" && (forall i :: 0 <= i < |u.id| ==> IsDigit(u.id[i])) && DecimalValue(u.id) == now
  {
    NatToStringRoundTrip(now);
    User(NatToString(now), data.email, data.name, data.role, data.phone, None, None, None)
  }

  // ---------------------------------------------------------------------------
  // updateUser: `{ ...user, ...userData }`

  function Apply<T>(p: Patch<T>, current: T): T {
    if p.Given? then p.value else current
  }

  /** Every key present in the patch replaces the user's value; every other
      key is kept. The user comes out unchanged exactly when every key the
      patch supplies already holds that value. */
  function Merge(u: User, p: UserPatch): (r: User)
    ensures r == u <==>
      && (p.id.Given? ==> p.id.value == u.id)
      && (p.email.Given? ==> p.email.value == u.email)
      && (p.name.Given? ==> p.name.value == u.name)
      && (p.role.Given? ==> p.role.value == u.role)
      && (p.phone.Given? ==> p.phone.value == u.phone)
      && (p.avatar.Given? ==> p.avatar.value == u.avatar)
      && (p.assignedRoute.Given? ==> p.assignedRoute.value == u.assignedRoute)
      && (p.uiMode.Given? ==> p.uiMode.value == u.uiMode)
  {
    User(Apply(p.id, u.id), Apply(p.email, u.email), Apply(p.name, u.name), Apply(p.role, u.role),
         Apply(p.phone, u.phone), Apply(p.avatar, u.avatar),
         Apply(p.assignedRoute, u.assignedRoute), Apply(p.uiMode, u.uiMode))
  }

  const NoChanges := UserPatch(Absent, Absent, Absent, Absent, Absent, Absent, Absent, Absent)

  /** `{ ...a, ...b }` as a patch: b's keys win. */
  function Then<T>(a: Patch<T>, b: Patch<T>): Patch<T> {
    if b.Given? then b else a
  }

  function Combine(p: UserPatch, q: UserPatch): UserPatch {
    UserPatch(Then(p.id, q.id), Then(p.email, q.email), Then(p.name, q.name), Then(p.role, q.role),
              Then(p.phone, q.phone), Then(p.avatar, q.avatar),
              Then(p.assignedRoute, q.assignedRoute), Then(p.uiMode, q.uiMode))
  }

  /** An empty patch changes nothing, a patch applied twice is applied once,
      and two successive updates equal one update with both patches merged. */
  lemma MergeLaws(u: User, p: UserPatch, q: UserPatch)
    ensures Merge(u, NoChanges) == u
    ensures Merge(Merge(u, p), p) == Merge(u, p)
    ensures Merge(Merge(u, p), q) == Merge(u, Combine(p, q))
  {
  }

  /** A user is changed exactly in the keys the patch supplies. */
  lemma MergeChangesOnlyGiven(u: User, p: UserPatch)
    ensures Merge(u, p).id == (if p.id.Given? then p.id.value else u.id)
    ensures Merge(u, p).email == (if p.email.Given? then p.email.value else u.email)
    ensures Merge(u, p).name == (if p.name.Given? then p.name.value else u.name)
    ensures Merge(u, p).role == (if p.role.Given? then p.role.value else u.role)
    ensures Merge(u, p).phone == (if p.phone.Given? then p.phone.value else u.phone)
    ensures Merge(u, p).avatar == (if p.avatar.Given? then p.avatar.value else u.avatar)
    ensures Merge(u, p).assignedRoute == (if p.assignedRoute.Given? then p.assignedRoute.value else u.assignedRoute)
    ensures Merge(u, p).uiMode == (if p.uiMode.Given? then p.uiMode.value else u.uiMode)
  {
  }

  // ---------------------------------------------------------------------------
  // The context's state

  class AuthState {
    var user: Option<User>

    constructor ()
      ensures user.None?
    {
      user := None;
    }

    /** `isAuthenticated: !!user` */
    function IsAuthenticated(): (b: bool)
      reads this
      ensures b <==> user.Some?
    {
      user.Some?
    }

    method Login(email: string, password: string)
      modifies this
      ensures user == Some(LoginUser(email))
      ensures IsAuthenticated()
    {
      user := Some(LoginUser(email));
    }

    /** `register` at the clock reading `now`. */
    method Register(data: RegisterData, now: nat)
      modifies this
      ensures user == Some(RegisteredUser(data, now))
      ensures IsAuthenticated()
    {
      user := Some(RegisteredUser(data, now));
    }

    method Logout()
      modifies this
      ensures user == None
      ensures !IsAuthenticated()
    {
      user := None;
    }

    /** With nobody signed in nothing happens; otherwise the patch is merged into the user. */
    method UpdateUser(patch: UserPatch)
      modifies this
      ensures old(user).None? ==> user == None
      ensures old(user).Some? ==> user == Some(Merge(old(user).value, patch))
      ensures IsAuthenticated() == old(IsAuthenticated())
    {
      if user.None? {
        return;
      }
      user := Some(Merge(user.value, patch));
    }
  }
}
