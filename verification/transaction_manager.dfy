/**
  What HandyStoreKit's `TransactionManager` adds to the shared bookkeeping:
  product IDs taken as they are (no parsing), and three ways to ask the
  caller's feature rule for a permission.
 */
module TransactionManager {
  import opened Basics
  import opened Transactions
  import opened DeniedPermissions

  /** The raw product IDs of a set of transactions. */
  function RawProductIDs(ts: set<Transaction>): (r: set<string>)
    ensures forall t :: t in ts ==> t.productID in r
    ensures forall id :: id in r ==> exists t :: t in ts && t.productID == id
  {
    set t | t in ts :: t.productID
  }

  /** `purchasedProductIDs`, `expiredProductIDs`, ...: the raw product IDs of one bucket. */
  function ProductIDs(s: State, u: Update): set<string> {
    RawProductIDs(Bucket(s, u))
  }

  /**
    `permission(for:)`: the caller's rule for the feature, applied to the
    purchased product IDs. Two states with the same purchased IDs grant the
    same permission.
   */
  function PermissionFor<F>(s: State, rule: (F, set<string>) -> Permission, feature: F): (r: Permission)
    ensures forall s': State :: ProductIDs(s', Purchased) == ProductIDs(s, Purchased) ==>
              r == rule(feature, ProductIDs(s', Purchased))
  {
    rule(feature, ProductIDs(s, Purchased))
  }

  /** `permissionIsUnlimited(for:)`: the permission is `.unlimited`, i.e. it grants every usage count. */
  function PermissionIsUnlimited<F>(s: State, rule: (F, set<string>) -> Permission, feature: F): (r: bool)
    ensures r <==> PermissionFor(s, rule, feature) == Unlimited
    ensures r <==> forall c: Int :: IsGranted(PermissionFor(s, rule, feature), c)
  {
    var p := rule(feature, ProductIDs(s, Purchased));
    assert IsUnlimited(p) <==> p == Unlimited;
    p == Unlimited
  }

  /**
    `permissionLimit(for:)`: 0 for a denied feature, the count of a limited
    one and `Int.max` for an unlimited one; a usage count in `0 ..< Int.max`
    is granted exactly when it lies below this limit.
   */
  function PermissionLimit<F>(s: State, rule: (F, set<string>) -> Permission, feature: F): (r: Int)
    ensures PermissionFor(s, rule, feature).Denied? ==> r == 0
    ensures PermissionFor(s, rule, feature).Limited? ==> r == PermissionFor(s, rule, feature).count
    ensures PermissionFor(s, rule, feature).Unlimited? ==> r == IntMax
    ensures forall c: Int :: 0 <= c < IntMax ==> (IsGranted(PermissionFor(s, rule, feature), c) <==> c < r)
  {
    match rule(feature, ProductIDs(s, Purchased))
    case Denied => 0
    case Limited(n) => n
    case Unlimited => IntMax
  }

  /** Handling an unverified or a revoked transaction leaves the purchased product IDs as they were. */
  lemma PurchasedIDsSurviveRevocation(s: State, result: VerificationResult, now: int)
    requires result.Unverified? || result.transaction.revocationDate.Some?
    ensures ProductIDs(Handle(s, result, now).state, Purchased) == ProductIDs(s, Purchased)
  {
  }

  /** The product IDs purchased after one `handle` call: at most the handled one is new. */
  lemma HandleAddsAtMostOneID(s: State, result: VerificationResult, now: int)
    ensures ProductIDs(Handle(s, result, now).state, Purchased) <= ProductIDs(s, Purchased) + {result.transaction.productID}
  {
  }

  /**
    Handling the same product again, now carrying a revocation date, files
    the new transaction as revoked but leaves the earlier purchase where it
    was: the product ID is then both purchased and revoked.
   */
  lemma RevocationDoesNotWithdrawPurchase()
    ensures var purchase := Transaction(1, "A", None, None, false);
            var refund := purchase.(revocationDate := Some(5));
            var s := Init([Arrival(Verified(purchase), 1), Arrival(Verified(refund), 6)]);
            && "A" in ProductIDs(s, Purchased)
            && "A" in ProductIDs(s, Revoked)
  {
    var purchase := Transaction(1, "A", None, None, false);
    var refund := purchase.(revocationDate := Some(5));
    var arrivals := [Arrival(Verified(purchase), 1), Arrival(Verified(refund), 6)];
    var s1 := Handle(Empty, arrivals[0].result, 1).state;
    var s2 := Handle(s1, arrivals[1].result, 6).state;
    assert Replay(Empty, arrivals) == Replay(s2, []) by {
      assert arrivals[1..][1..] == [];
    }
    assert purchase in s2.purchased && refund in s2.revoked;
  }

  /** Buckets hold whole transactions: two renewals of one product both stay purchased. */
  lemma NoDeduplicationByProduct()
    ensures var first := Transaction(1, "A", Some(10), None, false);
            var renewal := Transaction(2, "A", Some(20), None, false);
            var s := Init([Arrival(Verified(first), 5), Arrival(Verified(renewal), 6)]);
            && first in s.purchased && renewal in s.purchased
            && ProductIDs(s, Purchased) == {"A"}
  {
    var first := Transaction(1, "A", Some(10), None, false);
    var renewal := Transaction(2, "A", Some(20), None, false);
    var arrivals := [Arrival(Verified(first), 5), Arrival(Verified(renewal), 6)];
    var s1 := Handle(Empty, arrivals[0].result, 5).state;
    var s2 := Handle(s1, arrivals[1].result, 6).state;
    assert Replay(Empty, arrivals) == Replay(s2, []) by {
      assert arrivals[1..][1..] == [];
    }
    assert s2.purchased == {first, renewal};
  }
}
