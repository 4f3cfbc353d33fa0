/** The admin "Users" screen: the search-and-role filter over the user
    list and the three counts shown above it. */
module AdminUsers {
  import opened Options
  import opened Text
  import opened Seqs

  datatype Role = Passenger | Driver | Admin
  datatype UserStatus = ActiveUser | Inactive | Suspended

  datatype UserData = UserData(
    id: string, name: string, email: string, role: Role, status: UserStatus,
    joinDate: string, lastActive: string, totalRides: Option<int>, rating: Option<real>)

  /** The filter chips: 'all', or one role. */
  datatype RoleFilter = All | Only(role: Role)

  /** `name` or `email` contains the query, ignoring case. */
  predicate MatchesSearch(u: UserData, query: string) {
    IncludesIgnoringCase(u.name, query) || IncludesIgnoringCase(u.email, query)
  }

  predicate MatchesFilter(u: UserData, filter: RoleFilter) {
    filter.All? || u.role == filter.role
  }

  /** `filteredUsers`: no more users than given, each matching both the search and the chip. */
  function FilteredUsers(users: seq<UserData>, query: string, filter: RoleFilter): (r: seq<UserData>)
    ensures |r| <= |users|
    ensures forall i :: 0 <= i < |r| ==> MatchesSearch(r[i], query) && MatchesFilter(r[i], filter)
  {
    Filter(users, u => MatchesSearch(u, query) && MatchesFilter(u, filter))
  }

  /** A user is listed exactly when it matches both the search and the chip,
      the listing keeps the original order, and an empty search with 'all'
      lists everyone. */
  lemma FilteredUsersExactly(users: seq<UserData>, query: string, filter: RoleFilter, u: UserData)
    ensures u in FilteredUsers(users, query, filter) <==> u in users && MatchesSearch(u, query) && MatchesFilter(u, filter)
    ensures IsSubsequence(FilteredUsers(users, query, filter), users)
    ensures query == "" && filter == All ==> FilteredUsers(users, query, filter) == users
  {
    var p := (x: UserData) => MatchesSearch(x, query) && MatchesFilter(x, filter);
    FilterMembership(users, p, u);
    FilterIsSubsequence(users, p);
    if query == "" && filter == All {
      forall i | 0 <= i < |users| ensures p(users[i]) {
        IncludesAtOffset(ToLower(users[i].name), "");
      }
      FilterKeepsAll(users, p);
    }
  }

  predicate IsActiveUser(u: UserData) { u.status == ActiveUser }
  predicate IsDriver(u: UserData) { u.role == Driver }

  /** The three numbers above the list. */
  datatype Stats = Stats(total: nat, active: nat, drivers: nat)

  function UserStats(users: seq<UserData>, query: string, filter: RoleFilter): (s: Stats)
    ensures s.active <= s.total && s.drivers <= s.total
    ensures s.total <= |users|
  {
    var shown := FilteredUsers(users, query, filter);
    Stats(|shown|, Count(shown, IsActiveUser), Count(shown, IsDriver))
  }

  /** Under the Drivers chip every listed user is a driver, so the two counts agree. */
  lemma DriverChipCountsAgree(users: seq<UserData>, query: string)
    ensures UserStats(users, query, Only(Driver)).drivers == UserStats(users, query, Only(Driver)).total
  {
    var shown := FilteredUsers(users, query, Only(Driver));
    FilterKeepsAll(shown, IsDriver);
  }

  /** Under the Admins or Passengers chip no listed user is a driver. */
  lemma OtherChipsCountNoDrivers(users: seq<UserData>, query: string, role: Role)
    requires role != Driver
    ensures UserStats(users, query, Only(role)).drivers == 0
  {
    var shown := FilteredUsers(users, query, Only(role));
    FilterKeepsNone(shown, IsDriver);
  }
}
