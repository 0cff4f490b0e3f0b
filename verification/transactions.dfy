/**
  The entitlement bookkeeping shared by the three purchase managers of the
  library (FreemiumKit's `InAppPurchase` in its two versions and HandyStoreKit's
  `TransactionManager`): four sets of transactions and the one state
  transition, `handle(verificationResult:)`, that files a verified transaction
  into one of them. Dates are integer timestamps and the current time is an
  explicit parameter.
 */
module Transactions {
  import opened Basics

  /**
    A StoreKit transaction, reduced to the fields the bookkeeping reads. Two
    transactions are the same exactly when all their fields are equal.
   */
  datatype Transaction = Transaction(
    id: int,
    productID: string,
    expirationDate: Option<int>,   // subscriptions only
    revocationDate: Option<int>,   // set once the purchase was refunded or revoked
    isUpgraded: bool)

  /** StoreKit's verdict on a transaction's signature; the verifier itself is external. */
  datatype VerificationResult =
    | Verified(transaction: Transaction)
    | Unverified(transaction: Transaction)

  /** The four kinds of update a verified transaction can be, and the four buckets. */
  datatype Update = Purchased | Expired | Revoked | Upgraded

  /** The callback `handle` triggers: `onPurchase`, `onExpire`, `onRevoke` or `onUpgrade`, with the transaction. */
  datatype Event = Event(update: Update, transaction: Transaction)

  /** The four stored transaction sets of a manager. */
  datatype State = State(
    purchased: set<Transaction>,
    expired: set<Transaction>,
    revoked: set<Transaction>,
    upgraded: set<Transaction>)

  /** What a manager holds before anything was handled. */
  const Empty: State := State({}, {}, {}, {})

  /** The bucket an update files into. */
  function Bucket(s: State, u: Update): set<Transaction> {
    match u
    case Purchased => s.purchased
    case Expired => s.expired
    case Revoked => s.revoked
    case Upgraded => s.upgraded
  }

  /** Every transaction the state holds, in any bucket. */
  function AllTransactions(s: State): set<Transaction> {
    s.purchased + s.expired + s.revoked + s.upgraded
  }

  /** The expiration date lies strictly before `now`; an expiration equal to `now` is not past. */
  predicate HasExpired(t: Transaction, now: int) {
    t.expirationDate.Some? && t.expirationDate.value < now
  }

  /**
    The branch `handle` takes for a verified transaction. Revocation wins over
    expiry, expiry over upgrade, and upgrade over a plain purchase.
   */
  function Classify(t: Transaction, now: int): (u: Update)
    ensures u == Revoked <==> t.revocationDate.Some?
    ensures u == Expired <==> t.revocationDate.None? && HasExpired(t, now)
    ensures u == Upgraded <==> t.revocationDate.None? && !HasExpired(t, now) && t.isUpgraded
    ensures u == Purchased <==> t.revocationDate.None? && !HasExpired(t, now) && !t.isUpgraded
  {
    if t.revocationDate.Some? then Revoked
    else if HasExpired(t, now) then Expired
    else if t.isUpgraded then Upgraded
    else Purchased
  }

  /** The state after one `handle` call, and the callback it triggered, if any. */
  datatype Outcome = Outcome(state: State, event: Option<Event>)

  /**
    `handle(verificationResult:)`: drops unverified results; otherwise inserts
    the transaction into the bucket of its class and, for the expired and
    upgraded classes only, removes it from the purchased set.
   */
  function Handle(s: State, result: VerificationResult, now: int): (r: Outcome)
    ensures result.Unverified? ==> r.state == s && r.event.None?
    ensures result.Verified? ==>
      var t := result.transaction;
      var u := Classify(t, now);
      && r.event == Some(Event(u, t))
      && Bucket(r.state, u) == Bucket(s, u) + {t}
      && (forall v: Update :: v != u && v != Purchased ==> Bucket(r.state, v) == Bucket(s, v))
      && (u == Revoked ==> r.state.purchased == s.purchased)
      && (u == Expired || u == Upgraded ==> r.state.purchased == s.purchased - {t})
  {
    match result
    case Unverified(_) =>
      Outcome(s, None)
    case Verified(t) =>
      if t.revocationDate.Some? then
        Outcome(s.(revoked := s.revoked + {t}), Some(Event(Revoked, t)))
      else if t.expirationDate.Some? && t.expirationDate.value < now then
        Outcome(s.(expired := s.expired + {t}, purchased := s.purchased - {t}), Some(Event(Expired, t)))
      else if t.isUpgraded then
        Outcome(s.(upgraded := s.upgraded + {t}, purchased := s.purchased - {t}), Some(Event(Upgraded, t)))
      else
        Outcome(s.(purchased := s.purchased + {t}), Some(Event(Purchased, t)))
  }

  /** Handling the same result twice at the same time leaves the state of handling it once. */
  lemma HandleIsIdempotent(s: State, result: VerificationResult, now: int)
    ensures var once := Handle(s, result, now).state;
            Handle(once, result, now).state == once
  {
  }

  /** A verification result together with the time at which it is handled. */
  datatype Arrival = Arrival(result: VerificationResult, now: int)

  /** The transaction arrives verified somewhere in the sequence. */
  predicate ArrivesVerified(t: Transaction, arrivals: seq<Arrival>) {
    exists i :: 0 <= i < |arrivals| && arrivals[i].result == Verified(t)
  }

  /**
    Handling a sequence of results one after the other, as the managers'
    start-up loop over the current entitlements does. The revoked, expired
    and upgraded sets only grow, and every transaction the state gains
    arrived verified.
   */
  function Replay(s: State, arrivals: seq<Arrival>): (r: State)
    ensures s.revoked <= r.revoked && s.expired <= r.expired && s.upgraded <= r.upgraded
    ensures forall t :: t in AllTransactions(r) ==> t in AllTransactions(s) || ArrivesVerified(t, arrivals)
    decreases |arrivals|
  {
    if |arrivals| == 0 then
      s
    else
      var next := Handle(s, arrivals[0].result, arrivals[0].now).state;
      var r := Replay(next, arrivals[1..]);
      assert forall t :: ArrivesVerified(t, arrivals[1..]) ==> ArrivesVerified(t, arrivals) by {
        forall t | ArrivesVerified(t, arrivals[1..])
          ensures ArrivesVerified(t, arrivals)
        {
          var i :| 0 <= i < |arrivals[1..]| && arrivals[1..][i].result == Verified(t);
          assert arrivals[i + 1].result == Verified(t);
        }
      }
      assert forall t :: t in AllTransactions(next) ==> t in AllTransactions(s) || ArrivesVerified(t, arrivals) by {
        forall t | t in AllTransactions(next) && t !in AllTransactions(s)
          ensures ArrivesVerified(t, arrivals)
        {
          assert arrivals[0].result == Verified(t);
        }
      }
      r
  }

  /** The managers' start-up: the current entitlements replayed onto four empty sets. */
  function Init(entitlements: seq<Arrival>): (r: State)
    ensures forall t :: t in AllTransactions(r) ==> ArrivesVerified(t, entitlements)
  {
    Replay(Empty, entitlements)
  }

  /** Replaying two sequences in a row is replaying their concatenation. */
  lemma {:induction false} ReplayAppend(s: State, a: seq<Arrival>, b: seq<Arrival>)
    ensures Replay(s, a + b) == Replay(Replay(s, a), b)
    decreases |a|
  {
    if |a| == 0 {
      assert a + b == b;
    } else {
      assert (a + b)[1..] == a[1..] + b;
      ReplayAppend(Handle(s, a[0].result, a[0].now).state, a[1..], b);
    }
  }

  /** The arrivals whose result is verified, in their original order. */
  function VerifiedOnly(arrivals: seq<Arrival>): (r: seq<Arrival>)
    ensures |r| <= |arrivals|
    ensures forall i :: 0 <= i < |r| ==> r[i].result.Verified?
    ensures forall a :: a in r <==> a in arrivals && a.result.Verified?
  {
    if |arrivals| == 0 then []
    else if arrivals[0].result.Verified? then [arrivals[0]] + VerifiedOnly(arrivals[1..])
    else VerifiedOnly(arrivals[1..])
  }

  /** Unverified results do not influence the replay: dropping them changes nothing. */
  lemma {:induction false} ReplayIgnoresUnverified(s: State, arrivals: seq<Arrival>)
    ensures Replay(s, arrivals) == Replay(s, VerifiedOnly(arrivals))
    decreases |arrivals|
  {
    if |arrivals| > 0 {
      var next := Handle(s, arrivals[0].result, arrivals[0].now).state;
      ReplayIgnoresUnverified(next, arrivals[1..]);
      if arrivals[0].result.Verified? {
        assert ([arrivals[0]] + VerifiedOnly(arrivals[1..]))[1..] == VerifiedOnly(arrivals[1..]);
      }
    }
  }

  /**
    What the buckets say about their transactions whatever the times of the
    results: revoked ones carry a revocation date, the others do not, upgraded
    ones are flagged and purchased ones are not.
   */
  ghost predicate FieldsMatchBuckets(s: State) {
    && (forall t :: t in s.revoked ==> t.revocationDate.Some?)
    && (forall t :: t in s.expired ==> t.revocationDate.None?)
    && (forall t :: t in s.upgraded ==> t.revocationDate.None? && t.isUpgraded)
    && (forall t :: t in s.purchased ==> t.revocationDate.None? && !t.isUpgraded)
  }

  /** `handle` keeps the fields of the transactions in line with their buckets, at any time. */
  lemma HandleKeepsFieldsMatching(s: State, result: VerificationResult, now: int)
    requires FieldsMatchBuckets(s)
    ensures FieldsMatchBuckets(Handle(s, result, now).state)
  {
  }

  /** Replaying results in any order keeps the fields in line with the buckets. */
  lemma {:induction false} ReplayKeepsFieldsMatching(s: State, arrivals: seq<Arrival>)
    requires FieldsMatchBuckets(s)
    ensures FieldsMatchBuckets(Replay(s, arrivals))
    decreases |arrivals|
  {
    if |arrivals| > 0 {
      HandleKeepsFieldsMatching(s, arrivals[0].result, arrivals[0].now);
      ReplayKeepsFieldsMatching(Handle(s, arrivals[0].result, arrivals[0].now).state, arrivals[1..]);
    }
  }

  /**
    Whatever the order of the results, the start-up state keeps the revoked
    set apart from the other three, and the purchased set apart from the
    upgraded one: the branch taken depends on the revocation date and the
    upgraded flag, which are part of the transaction value.
   */
  lemma InitKeepsRevokedApart(entitlements: seq<Arrival>)
    ensures var s := Init(entitlements);
            && s.revoked !! s.expired && s.revoked !! s.upgraded && s.revoked !! s.purchased
            && s.purchased !! s.upgraded
  {
    ReplayKeepsFieldsMatching(Empty, entitlements);
  }

  /**
    What the buckets say about their transactions once every result up to
    time `clock` was handled: the fields match the buckets, expired ones
    expired before `clock`, and nothing is both purchased and expired.
   */
  ghost predicate Consistent(s: State, clock: int) {
    && FieldsMatchBuckets(s)
    && (forall t :: t in s.expired ==> HasExpired(t, clock))
    && s.purchased !! s.expired
  }

  /** `handle` keeps the buckets consistent as long as time does not run backwards. */
  lemma HandleKeepsConsistent(s: State, clock: int, result: VerificationResult, now: int)
    requires Consistent(s, clock) && clock <= now
    ensures Consistent(Handle(s, result, now).state, now)
  {
  }

  /** The times of the arrivals never decrease and none lies before `clock`. */
  predicate Chronological(clock: int, arrivals: seq<Arrival>) {
    && (forall i :: 0 <= i < |arrivals| ==> clock <= arrivals[i].now)
    && (forall i, j :: 0 <= i < j < |arrivals| ==> arrivals[i].now <= arrivals[j].now)
  }

  /** The time of the last arrival, or `clock` when there is none. */
  function LastTime(clock: int, arrivals: seq<Arrival>): int {
    if |arrivals| == 0 then clock else arrivals[|arrivals| - 1].now
  }

  /** Replaying results in chronological order keeps the buckets consistent. */
  lemma {:induction false} ReplayKeepsConsistent(s: State, clock: int, arrivals: seq<Arrival>)
    requires Consistent(s, clock) && Chronological(clock, arrivals)
    ensures Consistent(Replay(s, arrivals), LastTime(clock, arrivals))
    decreases |arrivals|
  {
    if |arrivals| > 0 {
      var now := arrivals[0].now;
      HandleKeepsConsistent(s, clock, arrivals[0].result, now);
      assert Chronological(now, arrivals[1..]);
      ReplayKeepsConsistent(Handle(s, arrivals[0].result, now).state, now, arrivals[1..]);
    }
  }

  /**
    After a chronological start-up replay no transaction is both purchased
    and in one of the other three buckets.
   */
  lemma InitKeepsPurchasedApart(clock: int, entitlements: seq<Arrival>)
    requires Chronological(clock, entitlements)
    ensures var s := Init(entitlements);
            s.purchased !! s.expired && s.purchased !! s.revoked && s.purchased !! s.upgraded
  {
    ReplayKeepsConsistent(Empty, clock, entitlements);
  }

  /**
    The expired and upgraded sets are not kept apart: an upgraded
    subscription handled again after its expiration date sits in both,
    because the expired branch removes it from the purchased set only.
   */
  lemma ExpiredAndUpgradedCanShare()
    ensures var t := Transaction(1, "A", Some(100), None, true);
            var arrivals := [Arrival(Verified(t), 50), Arrival(Verified(t), 200)];
            var s := Init(arrivals);
            Chronological(50, arrivals) && t in s.upgraded && t in s.expired && t !in s.purchased
  {
    var t := Transaction(1, "A", Some(100), None, true);
    var arrivals := [Arrival(Verified(t), 50), Arrival(Verified(t), 200)];
    var first := Handle(Empty, Verified(t), 50).state;
    var second := Handle(first, Verified(t), 200).state;
    assert Replay(first, arrivals[1..]) == Replay(second, []) by { assert arrivals[1..][1..] == []; }
  }

  /**
    Without time order the purchased and expired sets can share a
    transaction: a result handled after its expiration date and then again,
    at an earlier time, before it ends up in both.
   */
  lemma PurchasedAndExpiredShareOutOfOrder()
    ensures var t := Transaction(1, "A", Some(100), None, false);
            var arrivals := [Arrival(Verified(t), 200), Arrival(Verified(t), 50)];
            var s := Init(arrivals);
            !Chronological(200, arrivals) && t in s.purchased && t in s.expired
  {
    var t := Transaction(1, "A", Some(100), None, false);
    var arrivals := [Arrival(Verified(t), 200), Arrival(Verified(t), 50)];
    var first := Handle(Empty, Verified(t), 200).state;
    var second := Handle(first, Verified(t), 50).state;
    assert Replay(first, arrivals[1..]) == Replay(second, []) by { assert arrivals[1..][1..] == []; }
  }
}
