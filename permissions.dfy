/**
 * The permission gate (middlewares/checkPermissions.middlware.ts): a request
 * passes when it carries a non-empty permission list that contains every
 * required permission; the granted list is only read.
 */
module PermissionsMiddleware {
  import opened Wrappers
  import opened ResponseErrors

  const Read := "read"
  const Write := "write"

  const MissingPermissions := ResponseError(401, "Unauthorized. Missing permissions.")
  const PermissionNotFound := ResponseError(401, "Unauthorized. Permission not found.")

  /** The loop over the required permissions: the first one not granted fails. */
  function FirstMissing(required: seq<string>, granted: seq<string>): (r: Option<nat>)
    ensures r.None? <==> forall i :: 0 <= i < |required| ==> required[i] in granted
    ensures r.Some? ==>
      && r.value < |required|
      && required[r.value] !in granted
      && forall i :: 0 <= i < r.value ==> required[i] in granted
  {
    if required == [] then None
    else if required[0] !in granted then Some(0)
    else
      match FirstMissing(required[1..], granted)
      case None => None
      case Some(j) => Some(j + 1)
  }

  /** `checkPermissions(required)` on a request whose `permissions` are `granted` (`undefined` as `None`). */
  function CheckPermissions(required: seq<string>, granted: Option<seq<string>>): (r: Next)
    ensures r.Proceed? <==> granted.Some? && |granted.value| > 0 && forall p :: p in required ==> p in granted.value
    ensures r == Fail(MissingPermissions) <==> granted.None? || granted.value == []
    ensures r == Fail(PermissionNotFound) <==>
      granted.Some? && granted.value != [] && exists p :: p in required && p !in granted.value
  {
    if granted.None? || |granted.value| == 0 then Fail(MissingPermissions)
    else if FirstMissing(required, granted.value).Some? then Fail(PermissionNotFound)
    else Proceed
  }

  /** More granted permissions never turn a pass into a failure. */
  lemma CheckPermissionsMonotone(required: seq<string>, granted: seq<string>, more: seq<string>)
    requires CheckPermissions(required, Some(granted)).Proceed?
    requires forall p :: p in granted ==> p in more
    ensures CheckPermissions(required, Some(more)).Proceed?
  {
    assert granted[0] in more;
  }

  /** Fewer required permissions never turn a pass into a failure. */
  lemma CheckPermissionsFewerRequired(required: seq<string>, fewer: seq<string>, granted: Option<seq<string>>)
    requires CheckPermissions(required, granted).Proceed?
    requires forall p :: p in fewer ==> p in required
    ensures CheckPermissions(fewer, granted).Proceed?
  {
  }
}
