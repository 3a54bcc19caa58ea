/** The role tables of the donation, volunteer-management and live-location
    routes. Every route authenticates first and then, when it lists roles,
    checks the caller's role. */
module Routes {
  import opened Wrappers
  import opened Domain
  import AuthMiddleware

  datatype Route =
    | CreateDonation | VolunteerTasks | UpdateTaskStatus | MyDonations | ClaimedDonations
    | ListDonations | ClaimDonation
    | ListVolunteers | AssignVolunteer | VolunteerStatus | CurrentTask | CompleteTask | VolunteerStats
    | PushLocation

  /** The roles a route admits; `None` for routes open to every authenticated caller. */
  function AllowedRoles(route: Route): Option<seq<Role>> {
    match route
    case CreateDonation => Some([Restaurant, Admin])
    case VolunteerTasks => Some([Volunteer])
    case UpdateTaskStatus => Some([Volunteer])
    case MyDonations => None
    case ClaimedDonations => Some([Ngo])
    case ListDonations => None
    case ClaimDonation => Some([Ngo, Volunteer, Admin])
    case ListVolunteers => Some([Ngo, Admin])
    case AssignVolunteer => Some([Ngo, Admin])
    case VolunteerStatus => Some([Volunteer])
    case CurrentTask => Some([Volunteer])
    case CompleteTask => Some([Volunteer])
    case VolunteerStats => Some([Volunteer])
    case PushLocation => None
  }

  /** The middleware chain in front of a handler: `protect`, then
      `authorize` when the route lists roles. Success yields the request user. */
  function Gate(route: Route, req: AuthMiddleware.Request, verify: map<string, Id>,
                users: map<Id, AuthMiddleware.Fields>): (r: Result<AuthMiddleware.Fields, HttpError>)
    ensures AuthMiddleware.Protect(req, verify, users).Failure? ==> r == Failure(Unauthorized)
    ensures r.Success? ==> r == AuthMiddleware.Protect(req, verify, users)
    ensures r.Success? && AllowedRoles(route).Some? ==>
      "role" in r.value && exists k :: k in AllowedRoles(route).value && RoleName(k) == r.value["role"]
    ensures AuthMiddleware.Protect(req, verify, users).Success? && AllowedRoles(route).None? ==> r.Success?
    ensures AuthMiddleware.Protect(req, verify, users).Success? && r.Failure? ==> r.error == Forbidden
    ensures r.Failure? ==> r.error == Unauthorized || r.error == Forbidden
  {
    var user :- AuthMiddleware.Protect(req, verify, users);
    match AllowedRoles(route)
    case None => Success(user)
    case Some(roles) =>
      var _ :- AuthMiddleware.Authorize(roles, user);
      Success(user)
  }

  /** The role a route admits, as the caller's stored `role` field names it. */
  predicate Admits(route: Route, role: Role) {
    AllowedRoles(route).None? || role in AllowedRoles(route).value
  }

  /** Once authenticated, a caller whose stored role is `role` passes the gate
      exactly when the route's table admits that role. */
  lemma GateFollowsTable(route: Route, req: AuthMiddleware.Request, verify: map<string, Id>,
                         users: map<Id, AuthMiddleware.Fields>, role: Role)
    requires AuthMiddleware.Protect(req, verify, users).Success?
    requires var u := AuthMiddleware.Protect(req, verify, users).value; "role" in u && u["role"] == RoleName(role)
    ensures Gate(route, req, verify, users).Success? <==> Admits(route, role)
  {
    var u := AuthMiddleware.Protect(req, verify, users).value;
    if AllowedRoles(route).Some? {
      var roles := AllowedRoles(route).value;
      if role in roles {
        assert RoleName(role) == u["role"];
      }
      if Gate(route, req, verify, users).Success? {
        var k :| k in roles && RoleName(k) == u["role"];
        RoleNameInjective(k, role);
      }
    }
  }

  /** The table itself: who creates, claims, works on tasks and manages volunteers. */
  lemma RoleTable(role: Role)
    ensures Admits(CreateDonation, role) <==> role == Restaurant || role == Admin
    ensures Admits(ClaimDonation, role) <==> role != Restaurant
    ensures Admits(VolunteerTasks, role) <==> role == Volunteer
    ensures Admits(UpdateTaskStatus, role) <==> role == Volunteer
    ensures Admits(ClaimedDonations, role) <==> role == Ngo
    ensures Admits(MyDonations, role) && Admits(ListDonations, role) && Admits(PushLocation, role)
    ensures Admits(ListVolunteers, role) <==> role == Ngo || role == Admin
    ensures Admits(AssignVolunteer, role) <==> role == Ngo || role == Admin
    ensures Admits(CompleteTask, role) <==> role == Volunteer
    ensures Admits(VolunteerStats, role) <==> role == Volunteer
    ensures Admits(VolunteerStatus, role) <==> role == Volunteer
    ensures Admits(CurrentTask, role) <==> role == Volunteer
  {
  }

  /** Authentication runs before the role check: a request without a usable
      token answers 401 on every route, never 403. */
  lemma NoTokenIsUnauthorized(route: Route, req: AuthMiddleware.Request, verify: map<string, Id>,
                              users: map<Id, AuthMiddleware.Fields>)
    requires AuthMiddleware.ExtractToken(req).None?
    ensures Gate(route, req, verify, users) == Failure(Unauthorized)
  {
  }
}
