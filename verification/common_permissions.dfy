/** The two permission classes of `common/permissions.py`, as predicates
    over the caller and the order asked about. */
module CommonPermissions {
  import opened OrdersModels

  /** Who sends the request: nobody signed in, or a user, staff or not. */
  datatype Caller = Anonymous | SignedIn(id: UserId, isStaff: bool)

  /** `IsOwner.has_permission`: any signed-in caller. */
  function IsOwnerHasPermission(c: Caller): (allowed: bool)
    ensures allowed <==> c != Anonymous
  {
    c.SignedIn?
  }

  /** `IsOwner.has_object_permission`: the order belongs to the caller; an
      anonymous caller owns nothing. */
  function IsOwnerHasObjectPermission(c: Caller, o: Order): (allowed: bool)
    ensures allowed <==> exists staff :: c == SignedIn(o.user, staff)
  {
    match c
    case Anonymous => false
    case SignedIn(id, _) => id == o.user
  }

  /** `IsAdmin.has_permission`: any signed-in caller, staff or not. */
  function IsAdminHasPermission(c: Caller): (allowed: bool)
    ensures allowed <==> c != Anonymous
  {
    c.SignedIn?
  }

  /** `IsAdmin.has_object_permission`: the caller is staff, whoever owns the
      order; an anonymous caller is not staff. */
  function IsAdminHasObjectPermission(c: Caller, o: Order): (allowed: bool)
    ensures allowed <==> c.SignedIn? && c.isStaff
  {
    match c
    case Anonymous => false
    case SignedIn(_, staff) => staff
  }

  /** Owning an order implies passing the view-level check. */
  lemma OwnerIsSignedIn(c: Caller, o: Order)
    requires IsOwnerHasObjectPermission(c, o)
    ensures IsOwnerHasPermission(c) && c.id == o.user
  {
  }

  /** A staff caller passes the object check of `IsAdmin` on every order,
      and a caller that is not staff on none, owner or not. */
  lemma AdminCheckIgnoresOwner(c: Caller, o: Order, o': Order)
    ensures IsAdminHasObjectPermission(c, o) == IsAdminHasObjectPermission(c, o')
    ensures IsOwnerHasObjectPermission(c, o) && !(c.SignedIn? && c.isStaff) ==> !IsAdminHasObjectPermission(c, o)
  {
  }

  /** The view-level checks of the two classes admit the same callers: the
      one of `IsAdmin` does not look at the staff flag. */
  lemma AdminViewCheckIsOwnerViewCheck(c: Caller)
    ensures IsAdminHasPermission(c) == IsOwnerHasPermission(c)
  {
  }
}
