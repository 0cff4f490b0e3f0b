/**
  What FreemiumKit's `InAppPurchase` adds to the shared bookkeeping: product
  IDs parsed into the app's product enum, the permission of a feature, and (in
  Sources/FreemiumKit/Models/InAppPurchase.swift) subscribers keyed by a
  string that are told about every handled transaction.
 */
module InAppPurchase {
  import opened Basics
  import opened Transactions

  /**
    The `*ProductIDs` accessors: the product IDs of the transactions, each
    passed through the app's `ProductID(rawValue:)`; raw strings it does not
    recognise are dropped.
   */
  function ParsedProductIDs<P(==)>(ts: set<Transaction>, parse: string -> Option<P>): (r: set<P>)
    ensures forall t :: t in ts && parse(t.productID).Some? ==> parse(t.productID).value in r
    ensures forall p :: p in r ==> exists t :: t in ts && parse(t.productID) == Some(p)
  {
    set t | t in ts && parse(t.productID).Some? :: parse(t.productID).value
  }

  /** The parsed product IDs of one bucket: `purchasedProductIDs`, `expiredProductIDs`, ... */
  function ProductIDs<P(==)>(s: State, u: Update, parse: string -> Option<P>): set<P> {
    ParsedProductIDs(Bucket(s, u), parse)
  }

  /** Every parsed ID is a value the parser can produce. */
  lemma ParsedIDsLieInParserRange<P>(ts: set<Transaction>, parse: string -> Option<P>, p: P)
    requires p in ParsedProductIDs(ts, parse)
    ensures exists raw :: parse(raw) == Some(p)
  {
    var t :| t in ts && parse(t.productID) == Some(p);
  }

  /** A transaction whose product ID does not parse adds nothing to the parsed IDs. */
  lemma UnparseableIsDropped<P>(ts: set<Transaction>, t: Transaction, parse: string -> Option<P>)
    requires parse(t.productID).None?
    ensures ParsedProductIDs(ts + {t}, parse) == ParsedProductIDs(ts, parse)
  {
  }

  /** More transactions never mean fewer parsed IDs. */
  lemma ParsedIDsAreMonotone<P>(ts: set<Transaction>, us: set<Transaction>, parse: string -> Option<P>)
    requires ts <= us
    ensures ParsedProductIDs(ts, parse) <= ParsedProductIDs(us, parse)
  {
  }

  /**
    `permission(for:)`: the caller's rule for the feature, applied to the
    parsed purchased product IDs. Two states with the same purchased IDs
    grant the same permission.
   */
  function PermissionFor<P(==), F, R>(s: State, parse: string -> Option<P>, rule: (F, set<P>) -> R, feature: F): (r: R)
    ensures forall s': State :: ProductIDs(s', Purchased, parse) == ProductIDs(s, Purchased, parse) ==>
              r == rule(feature, ProductIDs(s', Purchased, parse))
  {
    rule(feature, ProductIDs(s, Purchased, parse))
  }

  /** Handling an unverified or a revoked transaction leaves every permission as it was. */
  lemma PermissionSurvivesRevocation<P, F, R>(s: State, result: VerificationResult, now: int,
                                                  parse: string -> Option<P>, rule: (F, set<P>) -> R, feature: F)
    requires result.Unverified? || result.transaction.revocationDate.Some?
    ensures PermissionFor(Handle(s, result, now).state, parse, rule, feature) == PermissionFor(s, parse, rule, feature)
  {
  }

  /** A verified, unrevoked, unexpired, non-upgraded purchase makes its parsed product ID purchased. */
  lemma PurchaseGrantsParsedID<P>(s: State, t: Transaction, now: int, parse: string -> Option<P>)
    requires Classify(t, now) == Purchased && parse(t.productID).Some?
    ensures parse(t.productID).value in ProductIDs(Handle(s, Verified(t), now).state, Purchased, parse)
  {
  }

  /** What a subscriber receives for one handled transaction. */
  datatype Delivery<H> = Delivery(handler: H, event: Event)

  /** A manager of Sources/FreemiumKit/Models/InAppPurchase.swift: the buckets and the keyed subscribers. */
  datatype Store<H> = Store(state: State, subscribers: map<string, H>)

  /** `subscribeToUpdates(id:onUpdate:)`: registers the handler under `id`, replacing any earlier one. */
  function SubscribeToUpdates<H>(store: Store<H>, id: string, handler: H): (r: Store<H>)
    ensures r.state == store.state
    ensures id in r.subscribers && r.subscribers[id] == handler
    ensures r.subscribers.Keys == store.subscribers.Keys + {id}
    ensures forall k :: k in store.subscribers && k != id ==> r.subscribers[k] == store.subscribers[k]
  {
    store.(subscribers := store.subscribers[id := handler])
  }

  /** `unsubscribeFromUpdates(id:)`: removes the handler under `id` and no other. */
  function UnsubscribeFromUpdates<H>(store: Store<H>, id: string): (r: Store<H>)
    ensures r.state == store.state
    ensures r.subscribers.Keys == store.subscribers.Keys - {id}
    ensures forall k :: k in r.subscribers ==> r.subscribers[k] == store.subscribers[k]
  {
    store.(subscribers := store.subscribers - {id})
  }

  /** Subscribing twice under one key keeps only the second handler. */
  lemma ResubscribeReplaces<H>(store: Store<H>, id: string, first: H, second: H)
    ensures SubscribeToUpdates(SubscribeToUpdates(store, id, first), id, second) == SubscribeToUpdates(store, id, second)
  {
  }

  /** Unsubscribing undoes a subscription under a key that was free before. */
  lemma UnsubscribeUndoesSubscribe<H>(store: Store<H>, id: string, handler: H)
    requires id !in store.subscribers
    ensures UnsubscribeFromUpdates(SubscribeToUpdates(store, id, handler), id) == store
  {
    assert (store.subscribers[id := handler] - {id}) == store.subscribers;
  }

  /** The result of one `handle` call: the new store, the callback triggered, and what each subscriber receives. */
  datatype Notified<H> = Notified(store: Store<H>, event: Option<Event>, deliveries: map<string, Delivery<H>>)

  /**
    `handle(verificationResult:)` of Sources/FreemiumKit/Models/InAppPurchase.swift:
    the shared bookkeeping step, after which every registered subscriber
    receives the transaction once, tagged with the branch that was taken.
    Unverified results notify nobody.
   */
  function HandleNotifying<H>(store: Store<H>, result: VerificationResult, now: int): (r: Notified<H>)
    ensures r.store.subscribers == store.subscribers
    ensures r.store.state == Handle(store.state, result, now).state
    ensures result.Unverified? ==> r.store.state == store.state && r.event.None? && r.deliveries == map[]
    ensures result.Verified? ==>
      var t := result.transaction;
      && r.event == Some(Event(Classify(t, now), t))
      && t in Bucket(r.store.state, Classify(t, now))
      && r.deliveries.Keys == store.subscribers.Keys
      && forall k :: k in r.deliveries ==>
           r.deliveries[k].handler == store.subscribers[k] && r.deliveries[k].event == Event(Classify(t, now), t)
  {
    var outcome := Handle(store.state, result, now);
    var deliveries :=
      match outcome.event
      case None => map[]
      case Some(e) => map k | k in store.subscribers :: Delivery(store.subscribers[k], e);
    Notified(store.(state := outcome.state), outcome.event, deliveries)
  }

  /** A key removed by `unsubscribeFromUpdates` receives nothing from later transactions. */
  lemma UnsubscribedHearsNothing<H>(store: Store<H>, id: string, result: VerificationResult, now: int)
    ensures id !in HandleNotifying(UnsubscribeFromUpdates(store, id), result, now).deliveries
  {
  }
}
