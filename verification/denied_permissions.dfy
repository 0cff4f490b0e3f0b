/**
  The permission value whose "no access" case is called `denied`. The enum is
  declared in Sources/FreemiumKit/Permission.swift and again, bare, in
  Sources/HandyStoreKit/Permission.swift. The queries `limit`, `isGranted` and
  `isUnlimited` are FreemiumKit's; HandyStoreKit declares none of them.
 */
module DeniedPermissions {
  import opened Basics

  datatype Permission =
    | Denied                   // no access
    | Limited(count: Int)      // access while the usage count stays below `count`
    | Unlimited                // access regardless of usage

  /** `limit`: the numeric ceiling of the permission. */
  function Limit(p: Permission): (r: Int)
    ensures p.Denied? ==> r == 0
    ensures p.Limited? ==> r == p.count
    ensures p.Unlimited? ==> r == IntMax
  {
    match p
    case Denied => 0
    case Limited(n) => n
    case Unlimited => IntMax
  }

  /** `isGranted(current:)`: the usage count is below the limit; denied never, unlimited always. */
  function IsGranted(p: Permission, current: Int): (r: bool)
    ensures p.Denied? ==> !r
    ensures p.Unlimited? ==> r
    ensures p.Limited? ==> (r <==> current < p.count)
    ensures 0 <= current < IntMax ==> (r <==> current < Limit(p))
  {
    match p
    case Denied => false
    case Limited(n) => n > current
    case Unlimited => true
  }

  /** `isUnlimited`: the permission grants every usage count there is. */
  function IsUnlimited(p: Permission): (r: bool)
    ensures r <==> p == Unlimited
    ensures r <==> forall c: Int :: IsGranted(p, c)
  {
    if p == Unlimited then
      true
    else
      assert !IsGranted(p, Limit(p));
      false
  }

  /** A granted usage count stays granted when the count is lowered. */
  lemma GrantedIsDownwardClosed(p: Permission, c: Int, c': Int)
    requires IsGranted(p, c) && c' <= c
    ensures IsGranted(p, c')
  {
  }
}
