/**
  The permission value of Sources/FreemiumKit/Models/Permission.swift: the
  access level a feature grants, derived by the caller from the purchased
  products. `Int.max` is the sentinel limit of an unlimited permission.
 */
module Permissions {
  import opened Basics

  datatype Permission =
    | Locked                   // no access
    | Limited(count: Int)      // access while the usage count stays below `count`
    | Unlimited                // access regardless of usage

  /** `limit`: the numeric ceiling of the permission. */
  function Limit(p: Permission): (r: Int)
    ensures p.Locked? ==> r == 0
    ensures p.Limited? ==> r == p.count
    ensures p.Unlimited? ==> r == IntMax
  {
    match p
    case Locked => 0
    case Limited(n) => n
    case Unlimited => IntMax
  }

  /**
    `isGranted(current:)`: the user has not used up the permission yet. Locked
    is never granted, unlimited always is, and in between the answer is
    "the usage count is below the limit".
   */
  function IsGranted(p: Permission, current: Int): (r: bool)
    ensures p.Locked? ==> !r
    ensures p.Unlimited? ==> r
    ensures p.Limited? ==> (r <==> current < p.count)
    ensures 0 <= current < IntMax ==> (r <==> current < Limit(p))
  {
    match p
    case Locked => false
    case Limited(n) => n > current
    case Unlimited => true
  }

  /**
    `isDenied(current:)` as written: its three cases return exactly what
    `isGranted(current:)` returns, so it answers "granted", not "denied".
   */
  function IsDenied(p: Permission, current: Int): (r: bool)
    ensures r <==> IsGranted(p, current)
  {
    match p
    case Locked => false
    case Limited(n) => n > current
    case Unlimited => true
  }

  /** `isDenied(current:)` as its name intends it: the usage is not granted. */
  function IsDeniedCorrected(p: Permission, current: Int): (r: bool)
    ensures p.Locked? ==> r
    ensures p.Unlimited? ==> !r
    ensures 0 <= current < IntMax ==> (r <==> Limit(p) <= current)
  {
    !IsGranted(p, current)
  }

  /** `isAlwaysGranted`: granted for every usage count there is. */
  function IsAlwaysGranted(p: Permission): (r: bool)
    ensures r <==> forall c: Int :: IsGranted(p, c)
  {
    if p == Unlimited then
      true
    else
      assert !IsGranted(p, Limit(p));
      false
  }

  /** `isAlwaysDenied`: the permission is `locked`. */
  function IsAlwaysDenied(p: Permission): (r: bool)
    ensures r ==> forall c: Int :: !IsGranted(p, c)
    ensures r <==> p == Locked
  {
    p == Locked
  }

  /** A granted usage count stays granted when the count is lowered. */
  lemma GrantedIsDownwardClosed(p: Permission, c: Int, c': Int)
    requires IsGranted(p, c) && c' <= c
    ensures IsGranted(p, c')
  {
  }

  /** At most one of `isAlwaysGranted` and `isAlwaysDenied` holds. */
  lemma AlwaysGrantedAndAlwaysDeniedExclude(p: Permission)
    ensures !(IsAlwaysGranted(p) && IsAlwaysDenied(p))
  {
  }

  /**
    `isAlwaysDenied` is not "never granted": `limited(0)` grants no
    non-negative usage count, yet it is not always denied.
   */
  lemma LimitedZeroIsNotAlwaysDenied()
    ensures forall c: Int :: 0 <= c ==> !IsGranted(Limited(0), c)
    ensures !IsAlwaysDenied(Limited(0))
  {
  }

  /** `isDenied` as written disagrees with its name: `unlimited` is "denied" at usage 0. */
  lemma IsDeniedAnswersGranted()
    ensures IsDenied(Unlimited, 0) && !IsDenied(Locked, 0)
    ensures IsDenied(Unlimited, 0) != IsDeniedCorrected(Unlimited, 0)
  {
  }

  /** The corrected `isDenied` is the complement of `isGranted` at every usage count. */
  lemma DeniedComplementsGranted(p: Permission, c: Int)
    ensures IsDeniedCorrected(p, c) != IsGranted(p, c)
  {
  }

  /** Sample values of the three cases. */
  lemma SampleValues()
    ensures !IsGranted(Limited(0), 0)
    ensures IsGranted(Unlimited, 1_000_000)
    ensures !IsGranted(Locked, 0)
    ensures IsGranted(Limited(1), 0) && !IsGranted(Limited(1), 1)
  {
  }
}
