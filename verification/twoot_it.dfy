/**
  The "Twoot it!" app of the doc comment of Sources/FreemiumKit/Protocols/Unlockable.swift,
  with four subscription products and three lockable features. Its feature rule is
  one concrete instance of the caller-supplied rule the managers take.
 */
module TwootIt {
  import opened Basics
  import opened Strings
  import opened Transactions
  import opened Permissions
  import SequenceExt
  import InAppPurchase

  /** The app's product enum, a `RawRepresentableProductID` over its App Store product IDs. */
  datatype ProductID = ProYearly | ProMonthly | LiteYearly | LiteMonthly

  /**
    The App Store product ID of each case. All share the app's prefix; the
    Pro prefix picks out exactly the Pro products and the ".Yearly" suffix
    exactly the yearly ones, so the raw value determines the case.
   */
  function RawValue(p: ProductID): (r: string)
    ensures HasPrefix(r, "dev.fline.TwootIt.")
    ensures HasPrefix(r, ProPrefix) <==> p == ProYearly || p == ProMonthly
    ensures HasSuffix(r, ".Yearly") <==> p == ProYearly || p == LiteYearly
  {
    match p
    case ProYearly => "dev.fline.TwootIt.Pro.Yearly"
    case ProMonthly => "dev.fline.TwootIt.Pro.Monthly"
    case LiteYearly =>
      var r := "dev.fline.TwootIt.Lite.Yearly";
      assert r[18] != ProPrefix[18];
      r
    case LiteMonthly =>
      var r := "dev.fline.TwootIt.Lite.Monthly";
      assert r[18] != ProPrefix[18];
      r
  }

  /** `ProductID(rawValue:)`: the case with that raw value, if there is one. */
  function Parse(raw: string): (r: Option<ProductID>)
    ensures r.Some? ==> RawValue(r.value) == raw
    ensures forall p :: RawValue(p) == raw ==> r == Some(p)
  {
    if raw == RawValue(ProYearly) then Some(ProYearly)
    else if raw == RawValue(ProMonthly) then Some(ProMonthly)
    else if raw == RawValue(LiteYearly) then Some(LiteYearly)
    else if raw == RawValue(LiteMonthly) then Some(LiteMonthly)
    else None
  }

  /** The product enum and its raw values convert into each other without loss. */
  lemma RawValueRoundTrip(p: ProductID, raw: string)
    ensures Parse(RawValue(p)) == Some(p)
    ensures Parse(raw) == Some(p) ==> RawValue(p) == raw
  {
  }

  datatype LockedFeature = TwitterPostsPerDay | ExtendedAttachments | ScheduledPosts

  const ProPrefix: string := "dev.fline.TwootIt.Pro"

  /** `purchasedProductIDs.contains(where: \.rawValue, prefixedBy: prefix)` on the set of purchased products. */
  predicate AnyRawPrefixedBy(ids: set<ProductID>, prefix: string) {
    exists p :: p in ids && HasPrefix(RawValue(p), prefix)
  }

  /**
    The app's feature rule: a Pro product allows three posts a day, any
    purchase unlocks attachments, and without a purchase one post can be
    scheduled.
   */
  function Rule(feature: LockedFeature, ids: set<ProductID>): (r: Permission)
    ensures feature == TwitterPostsPerDay ==>
      r == (if ProYearly in ids || ProMonthly in ids then Limited(3) else Locked)
    ensures feature == ExtendedAttachments ==> (r == Locked <==> ids == {}) && (r != Locked ==> r == Unlimited)
    ensures feature == ScheduledPosts ==> (r == Limited(1) <==> ids == {}) && (r != Limited(1) ==> r == Unlimited)
  {
    match feature
    case TwitterPostsPerDay => if AnyRawPrefixedBy(ids, ProPrefix) then Limited(3) else Locked
    case ExtendedAttachments => if ids == {} then Locked else Unlimited
    case ScheduledPosts => if ids == {} then Limited(1) else Unlimited
  }

  /** The sequence query of the extension gives the set's answer whatever order the set is walked in. */
  lemma SetQueryIgnoresOrder(xs: seq<ProductID>, ids: set<ProductID>, prefix: string)
    requires forall p :: p in ids <==> p in xs
    ensures SequenceExt.ContainsPrefixedBy(xs, RawValue, prefix) <==> AnyRawPrefixedBy(ids, prefix)
  {
    if AnyRawPrefixedBy(ids, prefix) {
      var p :| p in ids && HasPrefix(RawValue(p), prefix);
      var i :| 0 <= i < |xs| && xs[i] == p;
    }
  }

  /** A verified Pro purchase at start-up allows three posts a day and unlocks the attachments. */
  lemma ProPurchaseUnlocks()
    ensures var t := Transaction(1, RawValue(ProYearly), Some(100), None, false);
            var s := Init([Arrival(Verified(t), 10)]);
            var posts := InAppPurchase.PermissionFor(s, Parse, Rule, TwitterPostsPerDay);
            && posts == Limited(3)
            && IsGranted(posts, 2) && !IsGranted(posts, 3)
            && InAppPurchase.PermissionFor(s, Parse, Rule, ExtendedAttachments) == Unlimited
  {
    var t := Transaction(1, RawValue(ProYearly), Some(100), None, false);
    var s := Handle(Empty, Verified(t), 10).state;
    var arrivals := [Arrival(Verified(t), 10)];
    assert Replay(Empty, arrivals) == Replay(s, []) by {
      assert arrivals[1..] == [];
    }
    assert s.purchased == {t};
    assert InAppPurchase.ProductIDs(s, Purchased, Parse) == {ProYearly};
    assert HasPrefix(RawValue(ProYearly), ProPrefix);
  }

  /**
    A purchase of a product the app does not know is dropped by the parse:
    nothing is unlocked and scheduled posts stay limited to one.
   */
  lemma UnknownProductUnlocksNothing()
    ensures var t := Transaction(1, "com.example.Other", None, None, false);
            var s := Init([Arrival(Verified(t), 10)]);
            var scheduled := InAppPurchase.PermissionFor(s, Parse, Rule, ScheduledPosts);
            && InAppPurchase.PermissionFor(s, Parse, Rule, TwitterPostsPerDay) == Locked
            && scheduled == Limited(1)
            && IsGranted(scheduled, 0) && !IsGranted(scheduled, 1)
  {
    var t := Transaction(1, "com.example.Other", None, None, false);
    var s := Handle(Empty, Verified(t), 10).state;
    var arrivals := [Arrival(Verified(t), 10)];
    assert Replay(Empty, arrivals) == Replay(s, []) by {
      assert arrivals[1..] == [];
    }
    assert Parse(t.productID).None?;
    assert InAppPurchase.ProductIDs(s, Purchased, Parse) == {};
  }

  /** The Pro subscription arriving again after its expiration date locks the posts again. */
  lemma ExpiredSubscriptionRelocks()
    ensures var t := Transaction(1, RawValue(ProMonthly), Some(100), None, false);
            var s := Init([Arrival(Verified(t), 10), Arrival(Verified(t), 200)]);
            && InAppPurchase.PermissionFor(s, Parse, Rule, TwitterPostsPerDay) == Locked
            && InAppPurchase.PermissionFor(s, Parse, Rule, ExtendedAttachments) == Locked
  {
    var t := Transaction(1, RawValue(ProMonthly), Some(100), None, false);
    var arrivals := [Arrival(Verified(t), 10), Arrival(Verified(t), 200)];
    var s1 := Handle(Empty, Verified(t), 10).state;
    var s2 := Handle(s1, Verified(t), 200).state;
    assert Replay(Empty, arrivals) == Replay(s2, []) by {
      assert arrivals[1..][1..] == [];
    }
    assert s2.purchased == {};
    assert InAppPurchase.ProductIDs(s2, Purchased, Parse) == {};
  }
}
