/** The sign-up screen: the guard chain that checks the form before
    registering, the registration payload it builds, and the route search
    box a driver uses to pick a route. */
module Register {
  import opened Options
  import opened Text
  import opened Seqs
  import opened AuthContext

  /** `password.length` counts UTF-16 code units: three emoji outside the
      Basic Multilingual Plane make a password of length 6, long enough,
      while six ASCII letters are needed for the same length. */
  lemma PasswordLengthCountsCodeUnits()
    ensures Utf16Length("\U{1F642}\U{1F642}\U{1F642}") == MinPasswordLength
    ensures Utf16Length("abcde") < MinPasswordLength
  {
  }

  /** The form's state; every text field is the string typed so far. */
  datatype FormData = FormData(
    name: string, email: string, password: string, confirmPassword: string,
    phone: string, role: UserRole, deviceId: string,
    nic: string, route: string, vehicleNumber: string)

  /** A route offered in the driver's route picker. */
  datatype Route = Route(routeId: string, routeNumber: string, routeName: string, startName: string, endName: string)

  /** The object handed to `register`; `None` is a key left `undefined` or not added. */
  datatype RegistrationPayload = RegistrationPayload(
    name: string, email: string, password: string, role: UserRole,
    phone: string, nic: string,
    route: Option<string>, routeId: Option<string>, routeName: Option<string>,
    vehicleNumber: Option<string>, deviceId: Option<string>)

  datatype Outcome = Rejected(message: string) | Submitted(payload: RegistrationPayload)

  const RequiredFieldsMessage := "Please fill in all required fields"
  const DriverFieldsMessage := "Please fill in all driver fields: Phone, NIC, Route, and Vehicle Number"
  const PassengerFieldsMessage := "Please fill in all passenger fields: Phone and NIC"
  const MismatchMessage := "Passwords do not match"
  const ShortPasswordMessage := "Password must be at least 6 characters"
  const MinPasswordLength := 6

  /** JavaScript truthiness of a string: non-empty. */
  predicate Filled(s: string) {
    s != ""
  }

  predicate RequiredFilled(f: FormData) {
    Filled(f.name) && Filled(f.email) && Filled(f.password)
  }

  predicate RoleFieldsFilled(f: FormData) {
    match f.role
    case DRIVER => Filled(f.phone) && Filled(f.nic) && Filled(f.route) && Filled(f.vehicleNumber)
    case PASSENGER => Filled(f.phone) && Filled(f.nic)
    case ADMIN => true
  }

  /** `handleRegister` up to the call to `register`: the checks run in a
      fixed order and the first that fails rejects with its message;
      when all pass, the payload carries the driver-only keys only for a
      driver (routeId and routeName only with a selected route) and the
      device id only when it is not blank, trimmed. */
  method HandleRegister(f: FormData, selectedRoute: Option<Route>) returns (o: Outcome)
    ensures !RequiredFilled(f) ==> o == Rejected(RequiredFieldsMessage)
    ensures RequiredFilled(f) && !RoleFieldsFilled(f) ==>
      o == Rejected(if f.role == DRIVER then DriverFieldsMessage else PassengerFieldsMessage)
    ensures RequiredFilled(f) && RoleFieldsFilled(f) && f.password != f.confirmPassword ==>
      o == Rejected(MismatchMessage)
    ensures RequiredFilled(f) && RoleFieldsFilled(f) && f.password == f.confirmPassword && Utf16Length(f.password) < MinPasswordLength ==>
      o == Rejected(ShortPasswordMessage)
    ensures o.Submitted? <==>
      RequiredFilled(f) && RoleFieldsFilled(f) && f.password == f.confirmPassword && Utf16Length(f.password) >= MinPasswordLength
    ensures o.Submitted? ==>
      var p := o.payload;
      && p.name == f.name && p.email == f.email && p.password == f.password && p.role == f.role
      && p.phone == f.phone && p.nic == f.nic
      && (p.route.Some? <==> f.role == DRIVER) && (p.route.Some? ==> p.route.value == f.route)
      && (p.vehicleNumber.Some? <==> f.role == DRIVER) && (p.vehicleNumber.Some? ==> p.vehicleNumber.value == f.vehicleNumber)
      && (p.routeId.Some? <==> f.role == DRIVER && selectedRoute.Some?)
      && (p.routeId.Some? ==> p.routeId.value == selectedRoute.value.routeId)
      && (p.routeName.Some? <==> f.role == DRIVER && selectedRoute.Some?)
      && (p.routeName.Some? ==> p.routeName.value == selectedRoute.value.routeName)
      && (p.deviceId.Some? <==> !AllSpace(f.deviceId))
      && (p.deviceId.Some? ==> p.deviceId.value == Trim(f.deviceId) && p.deviceId.value != "")
  {
    if !Filled(f.name) || !Filled(f.email) || !Filled(f.password) {
      return Rejected(RequiredFieldsMessage);
    }
    if f.role == DRIVER {
      if !Filled(f.phone) || !Filled(f.nic) || !Filled(f.route) || !Filled(f.vehicleNumber) {
        return Rejected(DriverFieldsMessage);
      }
    } else if f.role == PASSENGER {
      if !Filled(f.phone) || !Filled(f.nic) {
        return Rejected(PassengerFieldsMessage);
      }
    }
    if f.password != f.confirmPassword {
      return Rejected(MismatchMessage);
    }
    if Utf16Length(f.password) < MinPasswordLength {
      return Rejected(ShortPasswordMessage);
    }
    var isDriver := f.role == DRIVER;
    var payload := RegistrationPayload(
      f.name, f.email, f.password, f.role, f.phone, f.nic,
      if isDriver then Some(f.route) else None,
      if isDriver && selectedRoute.Some? then Some(selectedRoute.value.routeId) else None,
      if isDriver && selectedRoute.Some? then Some(selectedRoute.value.routeName) else None,
      if isDriver then Some(f.vehicleNumber) else None,
      None);
    // Only add deviceId if the user entered one
    TrimAllSpace(f.deviceId);
    if Filled(f.deviceId) && Trim(f.deviceId) != "" {
      payload := payload.(deviceId := Some(Trim(f.deviceId)));
    }
    return Submitted(payload);
  }

  // ---------------------------------------------------------------------------
  // Route search

  /** A route matches a lower-cased query when the query occurs in its
      lower-cased number, name, start or end. */
  predicate RouteMatches(r: Route, query: string) {
    var q := ToLower(query);
    Includes(ToLower(r.routeNumber), q) || Includes(ToLower(r.routeName), q)
    || Includes(ToLower(r.startName), q) || Includes(ToLower(r.endName), q)
  }

  /** The route search effect: every route for an empty query, else the
      matching ones; never a route that was not offered. */
  function FilterRoutes(routes: seq<Route>, query: string): (r: seq<Route>)
    ensures |r| <= |routes|
    ensures forall i :: 0 <= i < |r| ==> RouteMatches(r[i], query) || query == ""
  {
    if query == "" then routes else Filter(routes, r => RouteMatches(r, query))
  }

  /** The empty-query shortcut agrees with filtering (every string includes
      the empty string), so a route is shown exactly when it matches, and
      the shown routes keep their order. */
  lemma FilterRoutesExactly(routes: seq<Route>, query: string, r: Route)
    ensures FilterRoutes(routes, query) == Filter(routes, x => RouteMatches(x, query))
    ensures r in FilterRoutes(routes, query) <==> r in routes && RouteMatches(r, query)
    ensures IsSubsequence(FilterRoutes(routes, query), routes)
    ensures query == "" ==> FilterRoutes(routes, query) == routes
  {
    if query == "" {
      forall i | 0 <= i < |routes| ensures RouteMatches(routes[i], query) {
        IncludesAtOffset(ToLower(routes[i].routeNumber), "");
      }
      FilterKeepsAll(routes, x => RouteMatches(x, query));
    }
    FilterMembership(routes, x => RouteMatches(x, query), r);
    FilterIsSubsequence(routes, x => RouteMatches(x, query));
  }
}
