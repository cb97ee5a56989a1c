/** Values shared by the user store, the token service, the user controller
    and the lifecycle guard. */
module Common {

  datatype Option<+T> = None | Some(value: T)

  /** An `ApiError` as the handlers raise it: an HTTP status code and a message. */
  datatype ApiError = ApiError(statusCode: int, message: string)

  /** The outcome of a handler: a value, or the `ApiError` it raised. */
  datatype Result<+T> = Ok(value: T) | Err(error: ApiError)

  /** JavaScript truthiness of an optional request field: a field that is
      absent and a field that is the empty string are both falsy. */
  predicate Supplied(s: Option<string>)
  {
    s.Some? && s.value != ""
  }

  /** The four user roles. */
  datatype Role = SuperAdmin | DistrictAdmin | FacilityAdmin | DepartmentUser

  const AllRoles: set<Role> := {SuperAdmin, DistrictAdmin, FacilityAdmin, DepartmentUser}

  /** The hierarchy rank: SuperAdmin > DistrictAdmin > FacilityAdmin > DepartmentUser. */
  function Rank(r: Role): nat
  {
    match r
    case SuperAdmin => 3
    case DistrictAdmin => 2
    case FacilityAdmin => 1
    case DepartmentUser => 0
  }

  /** The reference policy: the roles ranked strictly below `r`. */
  function RolesBelow(r: Role): (s: set<Role>)
    ensures forall q :: q in s <==> Rank(q) < Rank(r)
    ensures r !in s
  {
    set q | q in AllRoles && Rank(q) < Rank(r)
  }
}
