# FreemiumKit entitlement bookkeeping in Dafny

A model of the entitlement logic of FreemiumKit and HandyStoreKit, two Swift
libraries that wrap StoreKit. The model covers:

- **Classifying transactions.** All three purchase managers have the same
  `handle(verificationResult:)`. It drops unverified results. It files a
  verified transaction into one of four sets: revoked, expired, upgraded or
  purchased, checked in that order. Only the expired and upgraded branches
  remove the transaction from the purchased set. The managers are FreemiumKit's
  `InAppPurchase` (in two versions) and HandyStoreKit's `TransactionManager`.
  At start-up, a manager replays the current entitlements through `handle`;
  the model writes this replay as a left fold.
- **Derived product IDs.** The FreemiumKit managers parse product IDs
  leniently into the app's product enum. `TransactionManager` uses the raw
  strings.
- **Permissions.** The value types `Permission` (`locked` / `limited(n)` /
  `unlimited`) and the `denied` variant, with `limit`, `isGranted` and
  the derived queries.
- **Matching predicates.** The prefix, substring and suffix predicates that
  feature rules use. They come in a sequence form (FreemiumKit's `Sequence`
  extension) and a set form (HandyStoreKit's `Set<Product.ID>.containsAny`).

| file | module | models |
|---|---|---|
| basics.dfy | `Basics` | Swift `Optional` and the 64-bit `Int` range (`Int.max` is the sentinel limit) |
| strings.dfy | `Strings` | `hasPrefix`, `hasSuffix`, `contains` on strings |
| permissions.dfy | `Permissions` | Sources/FreemiumKit/Models/Permission.swift |
| denied_permissions.dfy | `DeniedPermissions` | the `denied` enum of Sources/FreemiumKit/Permission.swift and Sources/HandyStoreKit/Permission.swift; the queries are FreemiumKit's only |
| sequence_ext.dfy | `SequenceExt` | Sources/FreemiumKit/Extensions/SequenceExt.swift |
| unlockable.dfy | `Unlockable` | the `containsAny` family of Sources/HandyStoreKit/Unlockable.swift |
| transactions.dfy | `Transactions` | the `handle` step shared by all three managers, and the start-up replay |
| in_app_purchase.dfy | `InAppPurchase` | parsed product IDs, `permission(for:)`, subscribers (both FreemiumKit `InAppPurchase` files) |
| transaction_manager.dfy | `TransactionManager` | raw product IDs and the three permission queries of Sources/HandyStoreKit/TransactionManager.swift |
| twoot_it.dfy | `TwootIt` | the "Twoot it!" feature rule of the doc comment in Sources/FreemiumKit/Protocols/Unlockable.swift, as one concrete caller rule |

The modelling choices:

- A `Transaction` is a value record. It keeps the id, product ID, optional
  expiration date, optional revocation date and the upgraded flag.
- Dates are integer timestamps. The time `handle` compares against
  (`Date.now`) is an explicit parameter, so each replayed result carries its
  own time (`Arrival`).
- The four callbacks (`onPurchase`, …) become the returned `Event`.
- Subscriber closures are opaque handler values of a type parameter `H`. The
  notifications of one `handle` call form a map from subscriber key to what
  that subscriber receives.
- The caller's feature rule is a function parameter.
- The app's `ProductID(rawValue:)` is a parse function `string -> Option<P>`.

The three `handle` copies are identical except for the subscriber
notification in Sources/FreemiumKit/Models/InAppPurchase.swift. So
`Transactions.Handle` models all three, and `InAppPurchase.HandleNotifying`
adds the notification.

HandyStoreKit's Sources/HandyStoreKit/Permission.swift declares only the bare
`denied` / `limited` / `unlimited` enum, with no queries. The `IsGranted` and
`Limit` that `TransactionManager.PermissionIsUnlimited` and
`TransactionManager.PermissionLimit` are stated against come from
`DeniedPermissions`. That module models FreemiumKit's own `denied` enum in
Sources/FreemiumKit/Permission.swift, and serves here as the reference for what
the HandyStoreKit queries compute.

Some behaviours of the code are easy to misread:

- A reader might expect a revocation to remove the transaction from the
  purchased set. The code does not (Sources/HandyStoreKit/TransactionManager.swift:105-107,
  `TransactionManager.RevocationDoesNotWithdrawPurchase`). A refund arrives as
  a different transaction value, one that carries a revocation date. So the
  earlier purchase stays, and its product ID is both purchased and revoked.
- The buckets are sets of whole transactions, not of product IDs. A newer
  transaction of the same product does not replace an older one
  (`TransactionManager.NoDeduplicationByProduct`).
- For whole transactions, in whatever order results arrive, the revoked set
  is apart from the other three, and the purchased set is apart from the
  upgraded one (`Transactions.InitKeepsRevokedApart`). The branch taken
  depends on the revocation date and the upgraded flag, and both belong to
  the transaction value.
- The purchased set is apart from the expired one only when results arrive
  in time order (`Transactions.InitKeepsPurchasedApart`). Out of order, one
  transaction can sit in both (`Transactions.PurchasedAndExpiredShareOutOfOrder`).
- The expired and upgraded sets can share a transaction: an upgraded
  subscription handled again after its expiration date sits in both
  (`Transactions.ExpiredAndUpgradedCanShare`).
- Product IDs can sit in several sets.
- No branch evicts other purchases of the same subscription tier.

## Model

| member | source | states |
|---|---|---|
| Strings.Occurs | Sources/HandyStoreKit/Unlockable.swift:51-53 | the left-to-right search is true exactly when the pattern occurs at some position of the string |
| Strings.ContainsSubstring | Sources/HandyStoreKit/Unlockable.swift:51-53 | Foundation's `contains` is true exactly when the pattern is non-empty and occurs at some position of the string |
| Strings.PrefixIsContained | Sources/HandyStoreKit/Unlockable.swift:41-53 | a non-empty prefix of a string is contained in it |
| Strings.SuffixIsContained | Sources/HandyStoreKit/Unlockable.swift:51-63 | a non-empty suffix of a string is contained in it |
| Strings.EmptyPatternMatches | Sources/HandyStoreKit/Unlockable.swift:41-63 | the empty pattern is a prefix and a suffix of every string, yet `contains` never finds it |
| Permissions.Limit | Sources/FreemiumKit/Models/Permission.swift:12-24 | `limit` is 0 for locked, n for limited(n), and `Int.max` for unlimited |
| Permissions.IsGranted | Sources/FreemiumKit/Models/Permission.swift:40-52 | locked is never granted and unlimited always is; `limited(n)` is granted exactly when the count is below n, for every count; for a count in `0 ..< Int.max`, granted exactly when it is below `limit` |
| Permissions.IsDenied | Sources/FreemiumKit/Models/Permission.swift:26-38 | as written, `isDenied` answers exactly what `isGranted` answers |
| Permissions.IsDeniedCorrected | Sources/FreemiumKit/Models/Permission.swift:26-38 | the intended `isDenied`: true for locked, false for unlimited, and in range true exactly when `limit <= current` |
| Permissions.IsAlwaysGranted | Sources/FreemiumKit/Models/Permission.swift:54-55 | true exactly when every usage count is granted |
| Permissions.IsAlwaysDenied | Sources/FreemiumKit/Models/Permission.swift:57-58 | true exactly for locked, and then no usage count is granted |
| Permissions.GrantedIsDownwardClosed | Sources/FreemiumKit/Models/Permission.swift:40-52 | a count that is granted stays granted when it is lowered |
| Permissions.AlwaysGrantedAndAlwaysDeniedExclude | Sources/FreemiumKit/Models/Permission.swift:54-58 | `isAlwaysGranted` and `isAlwaysDenied` are never both true |
| Permissions.LimitedZeroIsNotAlwaysDenied | Sources/FreemiumKit/Models/Permission.swift:46-58 | `limited(0)` grants no non-negative count, yet it is not `isAlwaysDenied` |
| Permissions.IsDeniedAnswersGranted | Sources/FreemiumKit/Models/Permission.swift:27-38 | `unlimited.isDenied(current: 0)` is true; the as-written and corrected `isDenied` differ there |
| Permissions.DeniedComplementsGranted | Sources/FreemiumKit/Models/Permission.swift:26-52 | the corrected `isDenied` is the complement of `isGranted` for every permission and count |
| Permissions.SampleValues | Sources/FreemiumKit/Models/Permission.swift:40-52 | `limited(0)` is denied at 0; unlimited is granted at 1 000 000; locked is denied at 0; `limited(1)` is granted at 0 and not at 1 |
| DeniedPermissions.Limit | Sources/FreemiumKit/Permission.swift:12-24 | `limit` is 0 for denied, n for limited(n), and `Int.max` for unlimited |
| DeniedPermissions.IsGranted | Sources/FreemiumKit/Permission.swift:26-38 | denied is never granted and unlimited always is; `limited(n)` is granted exactly when the count is below n, for every count; for a count in `0 ..< Int.max`, granted exactly when it is below `limit` |
| DeniedPermissions.IsUnlimited | Sources/FreemiumKit/Permission.swift:40-41 | true exactly for unlimited, which is exactly when every usage count is granted |
| DeniedPermissions.GrantedIsDownwardClosed | Sources/FreemiumKit/Permission.swift:27-38 | a count that is granted stays granted when it is lowered |
| SequenceExt.AnySatisfies | Sources/FreemiumKit/Extensions/SequenceExt.swift:11-13 | the scan behind every `contains` overload is true exactly when some element satisfies the predicate |
| SequenceExt.First | Sources/FreemiumKit/Extensions/SequenceExt.swift:5-8 | returns none exactly when no key equals the value; otherwise returns the earliest element whose key equals it |
| SequenceExt.ContainsEqual | Sources/FreemiumKit/Extensions/SequenceExt.swift:10-13 | true exactly when some element's key equals the value |
| SequenceExt.ContainsNotEqual | Sources/FreemiumKit/Extensions/SequenceExt.swift:15-18 | as written: true exactly when some element's key EQUALS the value |
| SequenceExt.ContainsNotEqualCorrected | Sources/FreemiumKit/Extensions/SequenceExt.swift:15-18 | as its doc comment says: true exactly when some element's key differs from the value |
| SequenceExt.ContainsPrefixedBy | Sources/FreemiumKit/Extensions/SequenceExt.swift:20-23 | true exactly when some element's key starts with the prefix |
| SequenceExt.ContainsPrefixedByOneOf | Sources/FreemiumKit/Extensions/SequenceExt.swift:25-28 | true exactly when some prefix of the list is matched by some element |
| SequenceExt.ContainsSubstringOf | Sources/FreemiumKit/Extensions/SequenceExt.swift:30-33 | true exactly when some element's key contains the substring |
| SequenceExt.ContainsSubstringOfOneOf | Sources/FreemiumKit/Extensions/SequenceExt.swift:35-38 | true exactly when some substring of the list occurs in some element's key |
| SequenceExt.ContainsSuffixedBy | Sources/FreemiumKit/Extensions/SequenceExt.swift:40-43 | true exactly when some element's key ends with the suffix |
| SequenceExt.ContainsSuffixedByOneOf | Sources/FreemiumKit/Extensions/SequenceExt.swift:45-48 | true exactly when some suffix of the list is matched by some element |
| SequenceExt.ContainsEqualIffFirstFinds | Sources/FreemiumKit/Extensions/SequenceExt.swift:6-13 | `contains(where:equalTo:)` is true exactly when `first(where:equalsTo:)` returns an element |
| SequenceExt.FirstHasKey | Sources/FreemiumKit/Extensions/SequenceExt.swift:6-8 | the element `first` returns is in the sequence and carries the requested key |
| SequenceExt.NotEqualAnswersEqual | Sources/FreemiumKit/Extensions/SequenceExt.swift:11-18 | as written, `notEqualTo` and `equalTo` give the same answer on every input |
| SequenceExt.NotEqualCounterexample | Sources/FreemiumKit/Extensions/SequenceExt.swift:16-18 | on `["a"]` with the identity key, `notEqualTo: "a"` answers true as written, and false when corrected |
| SequenceExt.NotEqualCorrectedNegatesAllEqual | Sources/FreemiumKit/Extensions/SequenceExt.swift:15-18 | the corrected `notEqualTo` is true exactly when not every key equals the value |
| SequenceExt.EmptySequenceFindsNothing | Sources/FreemiumKit/Extensions/SequenceExt.swift:6-48 | on an empty sequence `first` returns none and every `contains` overload is false |
| SequenceExt.NoPatternsMatchNothing | Sources/FreemiumKit/Extensions/SequenceExt.swift:26-48 | the "one of" overloads are false for an empty pattern list |
| SequenceExt.PrefixOrSuffixMatchIsSubstringMatch | Sources/FreemiumKit/Extensions/SequenceExt.swift:21-43 | for a non-empty pattern, a prefix or suffix match is also a substring match; the empty pattern is a prefix and suffix of any element of a non-empty sequence but never a substring |
| Unlockable.ContainsAny | Sources/HandyStoreKit/Unlockable.swift:40-63 | `containsAny(prefixedBy:)`, `(containing:)` and `(suffixedBy:)` are true exactly when some ID of the set matches the pattern |
| Unlockable.ContainsAnyOf | Sources/HandyStoreKit/Unlockable.swift:45-68 | the `…AnyOf` forms are true exactly when some pattern of the list is matched by some ID of the set |
| Unlockable.SingletonListIsSinglePattern | Sources/HandyStoreKit/Unlockable.swift:41-68 | each `…AnyOf` form with a one-pattern list equals its single-pattern form |
| Unlockable.AnyOfSplits | Sources/HandyStoreKit/Unlockable.swift:46-68 | an `…AnyOf` query over two concatenated lists is the disjunction of the two queries |
| Unlockable.MatchingIsMonotone | Sources/HandyStoreKit/Unlockable.swift:41-68 | adding IDs to the set never turns any of the six predicates from true to false |
| Unlockable.EmptyInputsMatchNothing | Sources/HandyStoreKit/Unlockable.swift:41-68 | all six predicates are false on the empty set, and the `…AnyOf` forms are false for an empty list |
| Unlockable.PrefixOrSuffixMatchIsContaining | Sources/HandyStoreKit/Unlockable.swift:41-63 | for a non-empty pattern, `prefixedBy` or `suffixedBy` being true implies `containing` is true; for "" on a non-empty set, `prefixedBy` and `suffixedBy` are true and `containing` is false |
| Transactions.Classify | Sources/HandyStoreKit/TransactionManager.swift:102-120 | exactly one branch applies: revoked if there is a revocation date; else expired if the expiration date is strictly before now; else upgraded if flagged; else purchased |
| Transactions.Handle | Sources/FreemiumKit/InAppPurchase.swift:87-105 | unverified: state unchanged, no callback. Verified: the transaction joins its class's bucket, the callback of that class fires, and the other non-purchased buckets are unchanged. Purchased is unchanged on revocation and loses the transaction on expiry or upgrade |
| Transactions.HandleIsIdempotent | Sources/FreemiumKit/InAppPurchase.swift:87-105 | handling the same result twice at the same time gives the same state as handling it once |
| Transactions.Replay | Sources/HandyStoreKit/TransactionManager.swift:63-65 | the replay never shrinks the revoked, expired or upgraded sets; every transaction it adds arrived verified |
| Transactions.Init | Sources/FreemiumKit/InAppPurchase.swift:67-69 | the start-up state holds only transactions that arrived verified in the entitlements |
| Transactions.ReplayAppend | Sources/HandyStoreKit/TransactionManager.swift:63-65 | replaying a then b is replaying a followed by b |
| Transactions.ReplayIgnoresUnverified | Sources/HandyStoreKit/TransactionManager.swift:102-103 | dropping every unverified result from the replayed sequence changes nothing |
| Transactions.VerifiedOnly | Sources/HandyStoreKit/TransactionManager.swift:102-103 | the filtered sequence is no longer than the input, holds only verified arrivals, and holds every verified arrival of the input |
| Transactions.HandleKeepsFieldsMatching | Sources/HandyStoreKit/TransactionManager.swift:102-120 | at any time, `handle` keeps revoked transactions carrying a revocation date, the others without one, upgraded ones flagged and purchased ones unflagged |
| Transactions.ReplayKeepsFieldsMatching | Sources/HandyStoreKit/TransactionManager.swift:63-65 | a replay in any order keeps the fields of the transactions in line with their buckets |
| Transactions.InitKeepsRevokedApart | Sources/HandyStoreKit/TransactionManager.swift:63-65 | after any start-up, revoked is disjoint from expired, upgraded and purchased, and purchased from upgraded |
| Transactions.HandleKeepsConsistent | Sources/HandyStoreKit/TransactionManager.swift:102-120 | when time does not run backwards, `handle` keeps the buckets consistent. Revoked transactions carry a revocation date and expired ones have expired. Purchased and upgraded ones are unrevoked. Nothing is both purchased and expired |
| Transactions.ReplayKeepsConsistent | Sources/HandyStoreKit/TransactionManager.swift:63-65 | a chronological replay keeps the buckets consistent |
| Transactions.InitKeepsPurchasedApart | Sources/HandyStoreKit/TransactionManager.swift:63-65 | after a start-up whose results arrive in time order, no transaction is both purchased and in another bucket |
| Transactions.ExpiredAndUpgradedCanShare | Sources/HandyStoreKit/TransactionManager.swift:108-115 | an upgraded transaction with expiration 100, handled at 50 and again at 200, ends up both upgraded and expired, and not purchased |
| Transactions.PurchasedAndExpiredShareOutOfOrder | Sources/HandyStoreKit/TransactionManager.swift:108-119 | an unflagged transaction with expiration 100, handled at 200 and then at 50, ends up both purchased and expired |
| InAppPurchase.ParsedProductIDs | Sources/FreemiumKit/Models/InAppPurchase.swift:54-56 | each derived ID set is exactly the parsed product IDs of the bucket's transactions; IDs that do not parse are dropped |
| InAppPurchase.ParsedIDsLieInParserRange | Sources/FreemiumKit/Models/InAppPurchase.swift:54-80 | every derived ID is a value `ProductID(rawValue:)` can return |
| InAppPurchase.UnparseableIsDropped | Sources/FreemiumKit/InAppPurchase.swift:21-23 | a transaction whose product ID does not parse leaves the derived IDs as they were |
| InAppPurchase.ParsedIDsAreMonotone | Sources/FreemiumKit/Models/InAppPurchase.swift:54-80 | more transactions never give fewer derived IDs |
| InAppPurchase.PermissionFor | Sources/FreemiumKit/Models/InAppPurchase.swift:113-115 | the permission is the caller's rule applied to the purchased IDs, so states with equal purchased IDs give equal permissions |
| InAppPurchase.PermissionSurvivesRevocation | Sources/FreemiumKit/Models/InAppPurchase.swift:129-135 | an unverified or revoked transaction leaves every permission unchanged |
| InAppPurchase.PurchaseGrantsParsedID | Sources/FreemiumKit/Models/InAppPurchase.swift:146-149 | after a plain purchase, the parsed product ID is among the purchased IDs |
| InAppPurchase.SubscribeToUpdates | Sources/FreemiumKit/Models/InAppPurchase.swift:121-123 | the handler is registered under the key, replacing any earlier one; other keys are untouched |
| InAppPurchase.UnsubscribeFromUpdates | Sources/FreemiumKit/Models/InAppPurchase.swift:125-127 | removes exactly the key; other handlers are untouched |
| InAppPurchase.ResubscribeReplaces | Sources/FreemiumKit/Models/InAppPurchase.swift:121-123 | subscribing twice under one key keeps only the second handler |
| InAppPurchase.UnsubscribeUndoesSubscribe | Sources/FreemiumKit/Models/InAppPurchase.swift:121-127 | unsubscribing a key that was free before undoes the subscription |
| InAppPurchase.HandleNotifying | Sources/FreemiumKit/Models/InAppPurchase.swift:129-151 | performs the shared `handle` step. On a verified result, every registered subscriber gets exactly one delivery to its own handler, tagged with the branch taken. On an unverified result nobody is notified |
| InAppPurchase.UnsubscribedHearsNothing | Sources/FreemiumKit/Models/InAppPurchase.swift:125-151 | an unsubscribed key receives nothing from later transactions |
| TransactionManager.RawProductIDs | Sources/HandyStoreKit/TransactionManager.swift:17-19 | the derived ID set is exactly the product IDs of the bucket's transactions, with no filtering |
| TransactionManager.PermissionFor | Sources/HandyStoreKit/TransactionManager.swift:75-77 | the permission is the caller's rule applied to the purchased IDs, so states with equal purchased IDs give equal permissions |
| TransactionManager.PermissionIsUnlimited | Sources/HandyStoreKit/TransactionManager.swift:79-82 | true exactly when the permission is `.unlimited`, which is exactly when every usage count is granted |
| TransactionManager.PermissionLimit | Sources/HandyStoreKit/TransactionManager.swift:84-96 | 0 for denied, n for limited(n), `Int.max` for unlimited; a count in `0 ..< Int.max` is granted exactly when it is below this limit |
| TransactionManager.PurchasedIDsSurviveRevocation | Sources/HandyStoreKit/TransactionManager.swift:102-107 | an unverified or revoked transaction leaves the purchased IDs unchanged |
| TransactionManager.HandleAddsAtMostOneID | Sources/HandyStoreKit/TransactionManager.swift:102-120 | one `handle` call adds at most the handled product ID to the purchased IDs |
| TransactionManager.RevocationDoesNotWithdrawPurchase | Sources/HandyStoreKit/TransactionManager.swift:105-107 | after a purchase of "A" and then its revoked form, "A" is both purchased and revoked |
| TransactionManager.NoDeduplicationByProduct | Sources/HandyStoreKit/TransactionManager.swift:116-118 | two renewals of one product both stay in the purchased set |
| TwootIt.RawValue | Sources/FreemiumKit/Protocols/Unlockable.swift:7-12 | every raw value starts with "dev.fline.TwootIt."; it has the Pro prefix exactly for the Pro cases and ends in ".Yearly" exactly for the yearly cases, so it determines the case |
| TwootIt.Rule | Sources/FreemiumKit/Protocols/Unlockable.swift:19-28 | posts per day are `limited(3)` when a Pro product is purchased and locked otherwise; attachments are locked exactly when nothing is purchased and unlimited otherwise; scheduled posts are `limited(1)` exactly when nothing is purchased and unlimited otherwise |
| TwootIt.Parse | Sources/FreemiumKit/Protocols/Unlockable.swift:7-12 | `ProductID(rawValue:)` returns the case with that raw value, and none when there is none |
| TwootIt.RawValueRoundTrip | Sources/FreemiumKit/Protocols/Unlockable.swift:7-12 | parsing a case's raw value gives back the case, and a successful parse returns the case with that raw value |
| TwootIt.SetQueryIgnoresOrder | Sources/FreemiumKit/Protocols/Unlockable.swift:22 | running the sequence query `contains(where:prefixedBy:)` over any ordering of the purchased set gives the set's answer |
| TwootIt.ProPurchaseUnlocks | Sources/FreemiumKit/Protocols/Unlockable.swift:19-28 | a verified Pro purchase at start-up gives `limited(3)` posts per day (granted at 2, not at 3) and unlimited attachments |
| TwootIt.UnknownProductUnlocksNothing | Sources/FreemiumKit/Protocols/Unlockable.swift:19-28 | an unknown product is dropped, so posts are locked and scheduled posts are `limited(1)` (granted at 0, not at 1) |
| TwootIt.ExpiredSubscriptionRelocks | Sources/FreemiumKit/Protocols/Unlockable.swift:19-28 | a Pro subscription that arrives again after its expiration date locks posts and attachments again |

## Left out

- Concurrency: the background `Task`s, the `for await` loops over `Transaction.updates` and `currentEntitlements`, and `deinit` cancellation are not modelled. Results are handled one after another.
- Transactions.Init: models the sequential start-up of Sources/FreemiumKit/InAppPurchase.swift and Sources/HandyStoreKit/TransactionManager.swift. In Sources/FreemiumKit/Models/InAppPurchase.swift, the entitlement replay and the update listener run as two concurrent tasks. That interleaving is not modelled.
- InAppPurchase.HandleNotifying: subscribers are notified in dictionary order, which Swift leaves unspecified. The model states which subscriber receives what, but not the order.
- Signature verification is external. A `VerificationResult` is a two-case datatype, and the verification error of an unverified result is dropped.
- Transaction fields that the bookkeeping never reads are dropped: purchase dates, quantity, product type and revocation reason. StoreKit's own `Hashable` identity is replaced by equality of the kept fields.
- `Date` and `Date.now` are floating-point wall-clock times. The model uses integer timestamps and takes `now` as a parameter.
- The callbacks (`onPurchase`, `onExpire`, `onRevoke`, `onUpgrade`) and the subscriber closures are returned as events, not run.
- Strings.ContainsSubstring: models Foundation's `contains`, which answers false for the empty pattern, because both files using it import Foundation. The standard library's own `contains("")` on `String` answers true; that overload is not modelled. `hasPrefix("")` and `hasSuffix("")` answer true.
- Strings.ContainsSubstring: compares strings as plain character sequences. Swift's Unicode canonical equivalence of characters is not modelled. The same holds for `Strings.HasPrefix` and `Strings.HasSuffix`.
- SequenceExt.ContainsPrefixedByOneOf: Swift's `Sequence` is modelled as a finite, multi-pass `seq`. The three `…OneOf` overloads (`ContainsPrefixedByOneOf`, `ContainsSubstringOfOneOf`, `ContainsSuffixedByOneOf`) walk `self` once per pattern, so on a single-pass sequence a later pattern sees only what earlier passes left; the model always sees every element. `SequenceExt.First` and `SequenceExt.AnySatisfies` likewise do not model an infinite sequence, on which a search without a match never returns. Every caller in the library passes a `Set`, which is finite and multi-pass.
- Unlockable.ContainsAny: the set is walked in an unspecified order, as Swift's `Set` is. The model states only the result, which does not depend on that order.
- The SwiftUI views and styles, `AsyncProducts.swift` (purchase and product loading), `RemafoX.swift` (localization), preview fixtures, `Package.swift` and `Snippets/` are presentation or scaffolding. They are not part of this model. `RestorePurchasesButton.swift` calls a `loadCurrentEntitlements()` that neither `InAppPurchase` class defines. Restoring purchases is therefore not modelled.
- The `*ProductIDs` accessors of both managers are modelled once per bucket, by `InAppPurchase.ProductIDs` and `TransactionManager.ProductIDs`. These take the bucket as a parameter; the properties are stated on `ParsedProductIDs` and `RawProductIDs`.

## Findings

| source | as written | input that shows it | evidently intended | confidence | as-written member | corrected member |
|---|---|---|---|---|---|---|
| Sources/FreemiumKit/Models/Permission.swift:27-38 | `isDenied(current:)` returns `false` for locked, `limit > current` for limited and `true` for unlimited, which is exactly `isGranted(current:)`; its doc comment is copied from `isGranted` | `Permission.unlimited.isDenied(current: 0)` is true and `Permission.locked.isDenied(current: 0)` is false | the negation of `isGranted(current:)` | medium (the name is clear, the comment is not); not executed | Permissions.IsDenied | Permissions.IsDeniedCorrected |
| Sources/FreemiumKit/Extensions/SequenceExt.swift:16-18 | the closure of `contains(where:notEqualTo:)` compares with `==`, so it computes `contains(where:equalTo:)` | `["a"].contains(where: \.self, notEqualTo: "a")` is true although no element differs from `"a"` | some element's key differs from the value, as the doc comment says | high; not executed | SequenceExt.ContainsNotEqual | SequenceExt.ContainsNotEqualCorrected |
