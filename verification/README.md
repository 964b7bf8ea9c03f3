# Kubauth in Dafny

A verified model of the parts of Kubauth, an OpenID Connect provider for Kubernetes, whose behaviour spans
several operations: the in-memory token store, the claim algebra and the identity merger built on it, the login
and upstream session flows, the brute-force protector, and the environment expansion of configuration files.
`dafny verify dfyconfig.toml` checks the whole project.

Each file models one component.

- `TokenStore.dfy`, `ReplayList.dfy`: `MemoryStore` as a class, each method one atomic step; what every run of
  those steps keeps. The main results are that following the request-ID indexes gives the same tables as a search
  over all tokens (`IndexRefinesSearch`), and that the pruned list of used JWT identifiers decides as the full log
  would (`PrunedListDecidesLikeLog`).
- `Claims.dfy`, `StringLists.dfy`, `Upstream.dfy`: merge and normalisation over nested claims, with exact conditions
  for the merge laws; renaming as one simultaneous lookup; the claims pipeline of the upstream callback.
- `Merger.dfy`, `GroupBindings.dfy`, `HttpProvider.dfy`: the provider fold in closed form, the provider backed by
  Kubernetes resources, and the OIDC server's end of the exchange.
- `Sessions.dfy`: the login, upstream, welcome and logout handlers over the two browser sessions, for section 10.12
  of RFC 6749 (state), section 4.5 of RFC 7636 (verifier) and section 3.1.3.7 of OpenID Connect Core 1.0 (nonce).
- `Protector.dfy`: failing calls, sleepers and cleaner as an interleaved, timed transition system.
- `ExpandEnv.dfy`: the byte scanner against a grammar.
- `Layers.dfy`: what a stack of merged claim maps shows at every nested path.
- `Identity.dfy`, `Word64.dfy`, `History.dfy`: shared records, 64-bit arithmetic, and what a slot holds after a
  sequence of writes and clears.

Go code that updates fields is a class whose methods are tied to a step function on the class's `View()`; the lemmas
about runs speak of that function. Loops over Go maps pick the next key arbitrarily. Time, randomness, HTTP exchanges,
password checks and the answers of the API server are parameters.

## What the code does where a simpler claim would be false

- A null in the second map overrides, although docs/upstream-claims-merge.md:50 says a null does not; the model
  follows the code. `NullOverrides` is an input, `DocumentedIff` the exact condition for code and note to agree.
- The merge is not associative in general: `MergeNotAssociative` gives a triple, `MergeAssociativeIff` the exact
  condition.
- Issuing a second token without rotation puts the first one out of revocation's reach
  (`UnrotatedTokenSurvivesRevocation`); `IssueAccessIff` says exactly when issuing keeps the index right.
- A rotation on a dangling refresh index fails and leaves the access token live (`FailedRotationKeepsAccess`);
  `RotationDropsAccessIff` says exactly when a rotation drops it.
- The read-only JWT check and the marking call differ on an identifier that expires at that very instant
  (`CheckAndMarkDisagree`), and nowhere else (`RunCheckAgreesIff`).
- A group whose claims do not decode silently discards all claims merged before it (`MalformedGroupResets`), and a
  user whose claims do not decode discards all group claims (`MalformedUserResets`); `ClaimSurvivesIff` says exactly
  which claims remain.
- String lists are joined only when typed. Providers' replies and claims fields are decoded from JSON, so there one
  list replaces the other (`TwoLists`, `MergedDecodedAt`, `ClaimDecodedAt`); `MergedClaimAt` and `ClaimAt` are exact
  for all values. A list given once keeps its duplicates.
- A user that waits in the JSON session comes back with its claims out of normal form as soon as they hold a string
  list (`SessionRoundTrip`).
- A second login GET may replace the query an upstream login started from; `TransactionKeepsQueryIff` says when it does.
- The callback discards the status of the local lookup (`LocalStatusIgnored`); `CallbackAnsweredIff` says exactly when
  it is answered.
- A missing sub or a failed local lookup writes an error response, and the callback goes on. Session changes made
  after a response was written reach the store only if the session middleware (cmd/oidc/oidcserver/oidcserver.go:134)
  still saves them; the model takes that as a parameter of each callback and proves everything for both cases.
- The logout handler ignores a failed `Destroy`; `LogoutEffectiveIff` says exactly when a logout logs out.
- The penalty product overflows 64 bits for very large counts (`DelayOverflows`, `DelayIdealIff`).
- `cleanDelay >= maxPenalty` alone does not keep the cleaner off running calls once calls may be scheduled late;
  `CleanerSafeIff` gives the exact bound.

## Model

| member | source | states |
|---|---|---|
| StringLists.DedupAndSort | internal/misc/misc.go:47-58 | the result is strictly sorted and has exactly the input's elements |
| StringLists.AppendIfNotPresent | internal/misc/misc.go:62-78 | keeps the slice as a prefix and adds exactly the missing items, each once, in order |
| StringLists.StrictlySortedUnique | internal/misc/misc.go:47-58 | a strictly sorted list is determined by its element set, so deduplicate-and-sort has one possible result |
| StringLists.LessIff | internal/misc/misc.go:47-58 | the order is lexicographic: a proper prefix, or the smaller element at the first difference |
| StringLists.DedupLaws | internal/misc/merge.go:50-68 | first-occurrence deduplication absorbs inner deduplications on either side, leaves no duplicate and loses no element |
| StringLists.DedupAbsorbs | internal/misc/merge.go:50-68 | a list swallows another exactly when it is duplicate-free and starts with the other's distinct items |
| Claims.MergeStringSlicesDeduped | internal/misc/merge.go:50-68 | the loop yields the first-occurrence deduplication of the concatenation |
| Claims.MergeMaps | internal/misc/merge.go:25-48 | for every key order, the recursive loop yields the pointwise merge of the two maps |
| Claims.MergeEntry | internal/misc/merge.go:31-45 | one key present on both sides: maps merge recursively, string lists concatenate without duplicates, otherwise the second value wins |
| Claims.MergeIdentity | internal/misc/merge.go:25-48 | the empty map is a two-sided identity |
| Claims.MergeAssociativeIff | internal/misc/merge.go:25-68 | bracketing does not matter if and only if, wherever equal container kinds surround another kind, the right one swallows the left |
| Claims.MergeAssociative | internal/misc/merge.go:25-68 | associativity on every triple without such a sandwich at a shared path |
| Claims.MergeNotAssociative | internal/misc/merge.go:25-48 | a concrete triple on which the two bracketings differ |
| Claims.AbsorbsIff | internal/misc/merge.go:25-68 | merging c onto a gives back c exactly when c already holds every map path of a, and every string list of a, deduplicated, as a prefix of a duplicate-free list |
| Claims.MergeTwiceIff | internal/misc/merge.go:25-68 | merging the same map again changes nothing exactly when its lists are duplicate-free wherever the first map had no list |
| Claims.MergeTwice | internal/misc/merge.go:25-68 | absorption for every map without duplicates in its string lists |
| Claims.MergeWithSelfIff | internal/misc/merge.go:25-68 | merging a value with itself gives it back exactly when no string list in it has a duplicate |
| Claims.MergeKeepsSecond | internal/misc/merge.go:19-24 | every path and leaf of the second argument survives, string lists only grow |
| Layers.StackShows | internal/misc/merge.go:25-68 | for a whole stack of maps merged in either order, the value at every nested path is exactly what the visible layers add up to: the top kind decides, maps unite their keys, string lists are joined without duplicates, anything else stands alone |
| Layers.DecodedStackShows | internal/misc/merge.go:38-43 | maps decoded from JSON never have their lists joined: where the top visible layer is no map, it alone decides |
| Claims.DocumentedIff | internal/misc/merge.go:25-48 | the code merges as docs/upstream-claims-merge.md:48-50 words it if and only if, at no path shared through maps, the second map is null over a value of the first |
| Claims.NullOverrides | internal/misc/merge.go:45 | a concrete input on which the code yields null where the note keeps the value |
| Claims.InterfaceSliceToStringSlice | internal/misc/merge.go:107-120 | succeeds exactly on all-string lists, with those strings |
| Claims.NormalizeStringArray | internal/misc/merge.go:76-85 | for every key order, normalises every value of the map |
| Claims.NormalizeStringArrayValue | internal/misc/merge.go:87-103 | the loop equals the recursive normalisation |
| Claims.NormYieldsNormalForm | internal/misc/merge.go:70-103 | no all-string generic list is left at any depth |
| Claims.NormalFormIff | internal/misc/merge.go:70-103 | a value is in normal form exactly when normalising does not change it |
| Claims.NormIdempotent | internal/misc/merge.go:70-103 | normalising twice is normalising once |
| Claims.NormKeepsJson | internal/misc/merge.go:70-103 | the JSON document is unchanged |
| Claims.NormCanonical | internal/misc/merge.go:70-103 | two values normalise alike if and only if they are the same JSON document |
| Claims.NormOfJson | internal/misc/merge.go:70-103 | normalising what a value encodes to gives the normalised value |
| Claims.MergePreservesNormalForm | internal/misc/merge.go:25-48 | merging normal forms gives a normal form |
| Upstream.PerformRenaming | cmd/oidc/upstreams/upstream.go:223-245 | the loop applies the rules in order |
| Upstream.RenameIsParallelLookup | cmd/oidc/upstreams/upstream.go:223-245 | every output key holds the input value at a source key computed from the rules and the input's keys alone |
| Upstream.RenameCommutes | cmd/oidc/upstreams/upstream.go:223-245 | renaming commutes with any value-wise transformation |
| Upstream.RenameCommutesWithNorm | cmd/oidc/upstreams/upstream.go:223-245 | in particular with normalisation |
| Upstream.RenameGrowth | cmd/oidc/upstreams/upstream.go:223-245 | the number of claims grows by at most the number of copy rules |
| Upstream.RenamePreservesNormalForm | cmd/oidc/upstreams/upstream.go:223-245 | renaming keeps normal form |
| Upstream.CleanupClaims | cmd/oidc/upstreams/upstream.go:204-218 | removes exactly the registered claims and the non-empty removals; sub survives unless listed |
| Upstream.DeleteKeys | cmd/oidc/upstreams/upstream.go:204-218 | for every visiting order, deleting one key at a time removes exactly the key set |
| Upstream.CleanupDistributes | cmd/oidc/upstreams/upstream.go:204-218 | cleaning a merge equals merging the cleaned maps |
| Upstream.BuildUpstreamUser | cmd/oidc/oidcserver/handle-upstream-callback.go:104-179 | gathers the claims, looks the sub up locally where configured, and yields the enriched or the upstream user, with claims in normal form, and whether an error was written on the way |
| Upstream.GatherClaims | cmd/oidc/oidcserver/handle-upstream-callback.go:104-145 | normalises, merges, renames and cleans, in that order, on every path |
| Upstream.ClaimOrigin | cmd/oidc/oidcserver/handle-upstream-callback.go:104-145 | a claim is in the result if and only if the rules lead it back to an input claim and it is neither one of the eleven registered names nor a non-empty removal; its value is exactly the normalised ID-token value, the user-info value, or the user info merged on top of the ID token |
| Upstream.UserOrigin | cmd/oidc/oidcserver/handle-upstream-callback.go:147-177 | the enriched user key by key, local claims on top of upstream ones, with the local name; without a local user the upstream claims, sub and name |
| Upstream.LoginIsSub | cmd/oidc/oidcserver/handle-upstream-callback.go:147-177 | with or without enrichment, the user's login is the upstream sub |
| Upstream.PipelineNormalForm | cmd/oidc/oidcserver/handle-upstream-callback.go:107-179 | upstream claims and final user claims are in normal form for every configuration |
| Upstream.PipelineReadsOnlyJson | cmd/oidc/oidcserver/handle-upstream-callback.go:107-179 | claims and local users that are the same JSON documents give the same user |
| Upstream.PipelineDropsTechnicalClaims | cmd/oidc/oidcserver/handle-upstream-callback.go:138-179 | a registered or removed claim is in the result exactly when local enrichment brings it |
| Upstream.LocalClaimsWin | cmd/oidc/oidcserver/handle-upstream-callback.go:153-166 | every local claim, in normalised form, survives the enrichment |
| Upstream.SessionRoundTrip | cmd/oidc/oidcserver/handle-upstream-welcome.go:97-110 | claims that went through the session normalise back to what was stored, and are in normal form exactly when they held no string list |
| Upstream.JsonNormalFormIff | cmd/oidc/oidcserver/handle-upstream-welcome.go:97-110 | a normal form stays one through JSON exactly when it holds no string list at any depth |
| Merger.GetUserDetail | cmd/merger/provider/provider.go:81-128 | fails exactly when a critical provider fails; otherwise the translated answer or the placeholder |
| Merger.TranslateClaims | cmd/merger/provider/provider.go:119-121 | every claim reappears under its formatted name, and nothing else does |
| Merger.TranslateLoop | cmd/merger/provider/provider.go:119-121 | for every visiting order, the loop computes that map |
| Merger.FormatInjective | cmd/merger/provider/provider.go:119-121 | two claim names never collide under one pattern |
| Merger.FormatSurrounds | cmd/merger/provider/provider.go:116-121 | the name stands between the pattern's prefix and suffix |
| Merger.TakeDetail | cmd/merger/authenticator/authenticator.go:69-93 | one provider's detail folded into the response |
| Merger.Authenticate | cmd/merger/authenticator/authenticator.go:50-100 | aborts exactly when some critical provider fails, otherwise the fold over all details with groups deduplicated and sorted |
| Merger.AbortsIff | cmd/merger/provider/provider.go:89-92 | the merger fails if and only if a provider marked critical fails |
| Merger.FailingProviderInvisible | cmd/merger/provider/provider.go:89-104 | a failing non-critical provider at any position changes nothing but its entry in Details |
| Merger.MergedWithoutPlaceholder | cmd/merger/provider/provider.go:89-104 | the placeholder detail, at any position, leaves every merged field as if it were absent |
| Merger.OneWinnerDecides | cmd/merger/authenticator/authenticator.go:69-78 | status, uid and authority all come from the first credential authority with the highest status; uid and authority stay unset up to passwordMissing |
| Merger.NoWinner | cmd/merger/authenticator/authenticator.go:52-57 | without any status above userNotFound the response is userNotFound, no uid, no authority |
| Merger.PasswordCheckedIff | cmd/merger/authenticator/authenticator.go:102-114 | the merged status is passwordChecked exactly when an authority checked it, none disabled the user and none before it refused |
| Merger.MergedStatusIff | cmd/merger/authenticator/authenticator.go:69-114 | every other merged status as an if-and-only-if on what the credential authorities said: disabled, then checked or refused, then unchecked, then missing, then not found |
| Merger.DecidedBy | cmd/merger/authenticator/authenticator.go:69-78 | uid and authority are those of the first credential authority that said the merged status, and unset for passwordMissing and userNotFound |
| Merger.UidFromReplies | cmd/merger/provider/provider.go:122-126 | that uid is the reply's plus the provider's offset, as a 64-bit value |
| Merger.DisabledWins | cmd/merger/authenticator/authenticator.go:102-114 | one credential authority saying disabled decides, wherever it stands |
| Merger.RankOrderIndependent | cmd/merger/authenticator/authenticator.go:69-78 | permuting providers keeps the priority of the merged status |
| Merger.MergedGroups | cmd/merger/authenticator/authenticator.go:81-83 | groups are the strictly sorted union of the group authorities' groups |
| Merger.GroupsFromReplies | cmd/merger/provider/provider.go:115-118 | the merged groups are exactly the group authorities' reply groups between prefix and suffix of their patterns |
| Merger.GroupsOrderIndependent | cmd/merger/authenticator/authenticator.go:81-95 | permuting providers does not change the groups |
| Merger.MergedEmails | cmd/merger/authenticator/authenticator.go:84-86 | emails are the first-occurrence deduplication of the email authorities' concatenated emails |
| Merger.MergedName | cmd/merger/authenticator/authenticator.go:87-89 | the name is the one of the first name authority that has one |
| Merger.LaterProvidersOnlyAddClaims | cmd/merger/authenticator/authenticator.go:90-93 | appending any providers keeps every claim path and leaf and only enlarges string lists |
| Merger.FirstDefinerFixesKind | cmd/merger/authenticator/authenticator.go:90-93 | a top-level claim exists exactly when a claim authority defines it, with the kind and content of the first one |
| Merger.MergedClaimAt | cmd/merger/authenticator/authenticator.go:90-93 | at every nested path the merged claims are exactly what the claim authorities' values add up to: first provider fixes the kind, maps unite, typed string lists are joined from the last provider to the first |
| Merger.MergedDecodedAt | cmd/merger/authenticator/authenticator.go:90-93 | with replies decoded from JSON lists are not joined: the first provider that reaches a path with anything but a map decides alone |
| Merger.TwoLists | cmd/merger/authenticator/authenticator.go:90-93 | two providers with one list each: joined when typed, the first list alone when decoded |
| Merger.MergedDetails | cmd/merger/authenticator/authenticator.go:93 | the details list every provider in order |
| Merger.MergedLogin | cmd/merger/authenticator/authenticator.go:52-53 | the response is for the requested login |
| GroupBindings.Authenticate | cmd/ucrd/authenticator/crdAuthenticator.go:49-124 | the answer or the first failure, over the bindings sorted by group |
| GroupBindings.SortByGroup | cmd/ucrd/authenticator/crdAuthenticator.go:64-67 | a permutation sorted by group name |
| GroupBindings.MergeGroups | cmd/ucrd/authenticator/crdAuthenticator.go:68-83 | the loop over the sorted bindings folds the groups' claims and stops at the first failing lookup |
| GroupBindings.FoldBreaksIff | cmd/ucrd/authenticator/crdAuthenticator.go:72-82 | the fold completes exactly when no group lookup fails |
| GroupBindings.MergeClaims | cmd/ucrd/authenticator/crdAuthenticator.go:127-137 | absent field keeps, decoded field merges on top, undecodable field yields nothing |
| GroupBindings.BindingOrderIrrelevant | cmd/ucrd/authenticator/crdAuthenticator.go:58-103 | permuting the binding list changes neither the answer nor the reported failure |
| GroupBindings.MalformedGroupResets | cmd/ucrd/authenticator/crdAuthenticator.go:79-81 | a group with undecodable claims discards everything merged before it |
| GroupBindings.FoldKeyIff | cmd/ucrd/authenticator/crdAuthenticator.go:68-83 | when the lookups succeed, a claim key is in the folded claims if and only if it was there or a group defined it, and no group with undecodable claims came later |
| GroupBindings.ClaimSurvivesIff | cmd/ucrd/authenticator/crdAuthenticator.go:58-103 | the answer has a claim if and only if the user's own claims define it, or a bound group does with no undecodable bound group after it in name order and the user's claims field is not undecodable |
| GroupBindings.MalformedUserResets | cmd/ucrd/authenticator/crdAuthenticator.go:102-104 | an undecodable claims field of the user discards every group's claims |
| GroupBindings.LaterGroupsOverride | cmd/ucrd/authenticator/crdAuthenticator.go:64-83 | the last group in name order that defines a key, with no undecodable group after it, fixes the kind and content of that claim |
| GroupBindings.ClaimAt | cmd/ucrd/authenticator/crdAuthenticator.go:68-104 | at every nested path the answer's claims are exactly what the groups' and the user's values add up to, the user's on top |
| GroupBindings.ClaimDecodedAt | cmd/ucrd/authenticator/crdAuthenticator.go:127-137 | with decoded fields lists are not joined: the last group, or the user, to define a path with anything but a map decides alone |
| GroupBindings.UserClaimsWin | cmd/ucrd/authenticator/crdAuthenticator.go:102-104 | the user's own claims survive the merge with the groups' |
| GroupBindings.CheckedIff | cmd/ucrd/authenticator/crdAuthenticator.go:75-121 | passwordChecked exactly for an enabled user with a stored hash matching a given password, and no failing API call |
| GroupBindings.StatusIff | cmd/ucrd/authenticator/crdAuthenticator.go:86-121 | userNotFound, disabled, passwordMissing, passwordUnchecked and passwordFail, each as an if-and-only-if on the cluster |
| GroupBindings.FailureIff | cmd/ucrd/authenticator/crdAuthenticator.go:59-90 | which failure is reported: the list, the first failing group in name order, or the user, each as an if-and-only-if |
| GroupBindings.AnswerFields | cmd/ucrd/authenticator/crdAuthenticator.go:64-101 | login, the bound groups in name order, and uid, name and emails of the entry or nothing |
| HttpProvider.GetStringArrayInMap | cmd/oidc/authenticator/httpprovider/httpprovider.go:131-155 | reads string lists, single strings and the strings of mixed lists, treats null as absent, refuses the rest |
| HttpProvider.StringArrayIs | cmd/oidc/authenticator/httpprovider/httpprovider.go:131-155 | what a list claim reads as: all strings of a string list in either representation, a single string, nothing for null or absent, an error for maps, booleans and numbers |
| HttpProvider.StringsInConcat | cmd/oidc/authenticator/httpprovider/httpprovider.go:139-146 | a mixed list is read element by element, in order |
| HttpProvider.Identify | cmd/oidc/authenticator/httpprovider/httpprovider.go:58-129 | fails exactly on a failed exchange or an unreadable groups or emails claim; otherwise the enriched user and the status |
| HttpProvider.AddGroups | cmd/oidc/authenticator/httpprovider/httpprovider.go:84-99 | name and groups: refused exactly on an unreadable groups claim |
| HttpProvider.AddProfile | cmd/oidc/authenticator/httpprovider/httpprovider.go:84-110 | name, groups and emails: refused exactly when one of the two list claims is unreadable |
| HttpProvider.GroupsClaim | cmd/oidc/authenticator/httpprovider/httpprovider.go:89-99 | the groups claim, written when non-empty, is the strictly sorted union of both sources |
| HttpProvider.EmailsClaim | cmd/oidc/authenticator/httpprovider/httpprovider.go:101-110 | the emails claim, written when non-empty, starts with the user's emails and has exactly the members of both sources; email is its first entry |
| HttpProvider.ProfileValues | cmd/oidc/authenticator/httpprovider/httpprovider.go:84-120 | name, authority and uid carry the answer's values when it has them, and every claim not written stays as it was |
| HttpProvider.OtherClaimsUntouched | cmd/oidc/authenticator/httpprovider/httpprovider.go:82-120 | claims outside the six written ones pass through |
| HttpProvider.Authenticate | cmd/oidc/authenticator/httpprovider/httpprovider.go:47-56 | a user is returned exactly on passwordChecked |
| HttpProvider.Login | cmd/oidc/authenticator/httpprovider/httpprovider.go:47-56 | through merger and OIDC server together, a login fails exactly when a critical provider fails or the first claim authority with a groups or emails claim gives a map, a boolean or a number, and otherwise yields a user exactly when an authority checked the password, none before it refused and none disabled the user; that user is the enriched merged user |
| HttpProvider.UnreadableIff | cmd/oidc/authenticator/httpprovider/httpprovider.go:131-155 | a merged list claim is unreadable exactly when the one of its first definer among the replies is |
| HttpProvider.CheckedByProviders | cmd/merger/authenticator/authenticator.go:50-100 | the merged status is passwordChecked exactly under that condition on the providers' replies |
| HttpProvider.DisabledEntryDenies | cmd/ucrd/authenticator/crdAuthenticator.go:105-107 | a disabled entry behind a credential authority keeps the user out, whatever the other providers say |
| HttpProvider.ClusterLoginIff | cmd/ucrd/authenticator/crdAuthenticator.go:110-121 | with that provider alone, a user gets in if and only if the cluster answers and has an enabled entry whose stored hash matches a given password |
| ReplayList.PrunedListDecidesLikeLog | cmd/oidc/oidcstorage/memory.go:322-339 | a use is accepted exactly when every earlier accepted use of the identifier has expired |
| ReplayList.AcceptedUsesSeparated | cmd/oidc/oidcstorage/memory.go:322-339 | two accepted uses of an identifier are separated by the first one's expiry |
| ReplayList.KnownIff | cmd/oidc/oidcstorage/memory.go:311-320 | the read-only check sees exactly the accepted uses that outlive now |
| ReplayList.CheckAgreesIff | cmd/oidc/oidcstorage/memory.go:311-339 | the read-only check and the marking call agree if and only if no entry of the identifier expires at that very instant |
| ReplayList.RunCheckAgreesIff | cmd/oidc/oidcstorage/memory.go:311-339 | the same over every run: they disagree exactly when an earlier accepted use expires at the instant of this one |
| ReplayList.CheckAndMarkDisagree | cmd/oidc/oidcstorage/memory.go:311-339 | a run of two uses on which they disagree |
| TokenStore.MemoryStore.constructor | cmd/oidc/oidcstorage/memory.go:84-101 | the store starts empty |
| TokenStore.MemoryStore.CreateAuthorizeCodeSession | cmd/oidc/oidcstorage/memory.go:341-347 | the new state, nothing else changed |
| TokenStore.MemoryStore.GetAuthorizeCodeSession | cmd/oidc/oidcstorage/memory.go:349-362 | missing, invalidated with its request, or live |
| TokenStore.MemoryStore.InvalidateAuthorizeCodeSession | cmd/oidc/oidcstorage/memory.go:364-375 | fails on an unknown code, otherwise only clears the flag |
| TokenStore.MemoryStore.CreateAccessTokenSession | cmd/oidc/oidcstorage/memory.go:404-415 | token and index entry written |
| TokenStore.MemoryStore.GetAccessTokenSession | cmd/oidc/oidcstorage/memory.go:417-426 | reads the token table |
| TokenStore.MemoryStore.DeleteAccessTokenSession | cmd/oidc/oidcstorage/memory.go:428-434 | removes the token, not the index entry |
| TokenStore.MemoryStore.CreateRefreshTokenSession | cmd/oidc/oidcstorage/memory.go:436-447 | active token and index entry written |
| TokenStore.MemoryStore.GetRefreshTokenSession | cmd/oidc/oidcstorage/memory.go:449-461 | missing, inactive with its request, or live |
| TokenStore.MemoryStore.DeleteRefreshTokenSession | cmd/oidc/oidcstorage/memory.go:463-469 | removes the token, not the index entry |
| TokenStore.MemoryStore.RevokeRefreshToken | cmd/oidc/oidcstorage/memory.go:512-525 | fails exactly on a dangling index, otherwise deactivates the indexed token |
| TokenStore.MemoryStore.RevokeAccessToken | cmd/oidc/oidcstorage/memory.go:527-537 | deletes the indexed token |
| TokenStore.MemoryStore.RotateRefreshToken | cmd/oidc/oidcstorage/memory.go:635-642 | fails on a dangling index with the state unchanged, otherwise revokes both |
| TokenStore.MemoryStore.ClientAssertionJWTValid | cmd/oidc/oidcstorage/memory.go:311-320 | refuses exactly a listed identifier that expires after now |
| TokenStore.MemoryStore.SetClientAssertionJWT | cmd/oidc/oidcstorage/memory.go:322-339 | for every visiting order and every clock reading during the call, one step of the pruned list |
| TokenStore.CodeFollowsLastEvent | cmd/oidc/oidcstorage/memory.go:341-375 | in every run a code reads as its own events alone dictate |
| TokenStore.CodeSingleUse | cmd/oidc/oidcstorage/memory.go:341-375 | in every run a code reads successfully exactly when its creation was the last event on it, and afterwards returns the request it was created for |
| TokenStore.CodeStaysUsed | cmd/oidc/oidcstorage/memory.go:364-375 | an invalidated code stays invalidated, with its request, until re-created |
| TokenStore.IssueAccessIff | cmd/oidc/oidcstorage/memory.go:404-415 | issuing a fresh access token keeps the index exact if and only if the request ID had no live one |
| TokenStore.IssueRefreshIff | cmd/oidc/oidcstorage/memory.go:436-447 | the same for refresh tokens |
| TokenStore.UnrotatedTokenSurvivesRevocation | cmd/oidc/oidcstorage/memory.go:527-537 | after an issue without rotation, revocation misses the old token |
| TokenStore.DanglingIff | cmd/oidc/oidcstorage/memory.go:512-525 | in every run, rotation fails exactly when the last refresh token issued to the ID was deleted |
| TokenStore.RevocationComplete | cmd/oidc/oidcstorage/memory.go:512-537 | in a coherent state revocation by ID leaves no usable token of that kind, even where it reports a failure; a failed rotation changes nothing |
| TokenStore.RevocationSticks | cmd/oidc/oidcstorage/memory.go:404-537 | no operation other than an issue to the ID makes one of its tokens usable again |
| TokenStore.RevocationLasts | cmd/oidc/oidcstorage/memory.go:404-537 | so an ID without usable tokens stays so through every run that issues none to it |
| TokenStore.RunCoherent | cmd/oidc/oidcstorage/memory.go:404-447 | in every disciplined run live tokens are the indexed ones and index hits are of their own request ID |
| TokenStore.OneLiveTokenPerFamily | cmd/oidc/oidcstorage/memory.go:404-447 | at most one live access token and one active refresh token per request ID, at all times |
| TokenStore.RefreshReadIs | cmd/oidc/oidcstorage/memory.go:436-525 | in every disciplined run a refresh token reads as live from its issue, inactive with its request once its ID was revoked or rotated, missing once deleted or never issued |
| TokenStore.AccessReadIs | cmd/oidc/oidcstorage/memory.go:404-537 | in every disciplined run an access token reads as live with its request from its issue until it is deleted, its ID is revoked, or a rotation of the ID succeeds; otherwise it is missing |
| TokenStore.SucceedsIff | cmd/oidc/oidcstorage/memory.go:364-525 | in every run, which calls report success: invalidating a code that was ever created, revoking or rotating an ID whose last refresh token was not deleted |
| TokenStore.RotationRevokesForGood | cmd/oidc/oidcstorage/memory.go:635-642 | after a successful rotation no token of the ID is usable until one is issued to it; a failed one changes nothing |
| TokenStore.RotationDropsAccessIff | cmd/oidc/oidcstorage/memory.go:635-642 | after a disciplined run a rotation leaves no live access token of the ID if and only if there was none or the last refresh token issued to it was not deleted |
| TokenStore.FailedRotationKeepsAccess | cmd/oidc/oidcstorage/memory.go:635-642 | a run in which the rotation fails and the access token stays live |
| TokenStore.RevokeBoth | cmd/oidc/oidcstorage/memory.go:512-537 | after any disciplined run, the two revocations leave the ID without a usable token |
| TokenStore.CodeReplayRevokesFamily | cmd/oidc/oidcstorage/memory.go:349-375 | a replayed code yields its request, and revoking by that ID leaves no usable token of it, now or later |
| TokenStore.IndexRefinesSearch | cmd/oidc/oidcstorage/memory.go:512-537 | in every disciplined run the indexed store has the tables of a store that revokes by searching all tokens |
| Sessions.OidcServer.HandleLoginGet | cmd/oidc/oidcserver/handle-login.go:33-72 | stores query and client, answers from the SSO session when it can |
| Sessions.OidcServer.HandleLoginPost | cmd/oidc/oidcserver/handle-login.go:73-142 | answers a granted login, keeps the user as the mode says |
| Sessions.OidcServer.HandleUpstreamGo | cmd/oidc/oidcserver/handle-upstream-go.go:45-118 | opens a transaction or changes nothing |
| Sessions.OidcServer.CheckCallback | cmd/oidc/oidcserver/handle-upstream-callback.go:41-132 | passes exactly when state, provider, query, code, verifier, ID token, nonce and user info all check |
| Sessions.OidcServer.CommitCallback | cmd/oidc/oidcserver/handle-upstream-callback.go:104-204 | builds the user, closes the transaction and applies the SSO mode; once an error was written, only if such late changes are kept |
| Sessions.OidcServer.CloseTransaction | cmd/oidc/oidcserver/handle-upstream-callback.go:183-187 | removes exactly the five transaction keys from the login session |
| Sessions.OidcServer.HandleUpstreamCallback | cmd/oidc/oidcserver/handle-upstream-callback.go:34-205 | both together; a refused callback leaves the sessions alone |
| Sessions.OidcServer.LoadPendingUpstreamUser | cmd/oidc/oidcserver/handle-upstream-welcome.go:97-110 | the pending user unless absent or without login |
| Sessions.OidcServer.HandleUpstreamWelcomePost | cmd/oidc/oidcserver/handle-upstream-welcome.go:72-90 | consumes the pending user, remembers it on request |
| Sessions.OidcServer.HandleLogout | cmd/oidc/oidcserver/handle-logout.go:71-81 | destroys what can be destroyed, keeps the client ID |
| Sessions.TransactionCoherence | cmd/oidc/oidcserver/handle-upstream-go.go:91-113 | in every run the session holds exactly the values of the one open upstream-go step, or none of them |
| Sessions.CallbackUsesOpenTransaction | cmd/oidc/oidcserver/handle-upstream-callback.go:54-122 | a callback passes only while a transaction is open, with the state of the last upstream-go step that opened one; provider and presented verifier are that step's, a verifier the code is bound to must match it, and so must the nonce of an ID token |
| Sessions.CallbackPassesIff | cmd/oidc/oidcserver/handle-upstream-callback.go:41-132 | in every run a callback gets past the checks if and only if it brings no error, a code, the open step's non-empty state, a code bound to no verifier or that step's, no ID token or a verified one with that step's nonce, user info where used, a known upstream, and a query is stored |
| Sessions.CallbackEffectIff | cmd/oidc/oidcserver/handle-upstream-callback.go:41-204 | it changes a session or answers if and only if, beyond that, it identifies a user or late changes are kept; otherwise the sessions stay and it fails |
| Sessions.GoIff | cmd/oidc/oidcserver/handle-upstream-go.go:45-118 | in every run an upstream-go redirects if and only if it names a known code-flow upstream, a query is stored and randomness works; otherwise nothing changes |
| Sessions.StoredClientIs | cmd/oidc/oidcserver/handle-logout.go:76-80 | in every run the stored client is that of the last login GET, through logouts too |
| Sessions.StoredQueryIs | cmd/oidc/oidcserver/handle-login.go:38-41 | in every run the stored authorize query is that of the last login GET since the login session was destroyed |
| Sessions.TransactionKeepsQueryIff | cmd/oidc/oidcserver/handle-upstream-callback.go:61-62 | while a transaction is open, the stored query is the one it started from if and only if the last login GET since then, if any, repeated it |
| Sessions.GoBetweenCallbacks | cmd/oidc/oidcserver/handle-upstream-callback.go:183-187 | after a callback completed, no callback gets past the checks before another upstream-go opened a transaction |
| Sessions.ResponseProvenance | cmd/oidc/oidcserver/handle-login.go:44-69 | every authorize response in every run is for a user who authenticated in that step or earlier, with no complete logout since |
| Sessions.NothingAfterLogout | cmd/oidc/oidcserver/handle-logout.go:71-80 | after a complete logout nothing is answered before a new authentication |
| Sessions.NeverKeepsNothing | cmd/oidc/oidcserver/handle-login.go:105-109 | in mode never both sessions stay without a user in every run |
| Sessions.NeverAnswersOnlyAuthentications | cmd/oidc/oidcserver/handle-upstream-callback.go:189-204 | in mode never only the authenticating step is answered |
| Sessions.OnDemandNeedsRemember | cmd/oidc/oidcserver/handle-login.go:105-109 | in mode onDemand the SSO session holds a user if and only if a login or welcome POST with remember on remembered exactly that user, with no later remembering and no destroying logout |
| Sessions.SsoStep | cmd/oidc/oidcserver/handle-login.go:105-109 | for every mode and step, the SSO session is what the policy of the mode writes, emptied by a destroying logout, or unchanged |
| Sessions.SsoKeptIff | cmd/oidc/oidcserver/handle-upstream-callback.go:189-203 | in every run and mode the SSO session holds a user if and only if the last step that wrote or destroyed it wrote that user |
| Sessions.PendingIff | cmd/oidc/oidcserver/handle-upstream-welcome.go:72-90 | in every run a user is pending if and only if the last completed callback was theirs and neither a welcome POST nor a destroying logout came since |
| Sessions.PendingUsedOnce | cmd/oidc/oidcserver/handle-upstream-welcome.go:85 | between two welcome POSTs that got through a callback completed, and the second is for the user that callback left pending |
| Sessions.PendingPut | cmd/oidc/oidcserver/handle-upstream-callback.go:190-200 | only a completed callback leaves a user pending, and it is the user it built |
| Sessions.CallbackAnsweredIff | cmd/oidc/oidcserver/handle-upstream-callback.go:147-204 | a callback is answered if and only if it passes the checks outside mode onDemand, yields a sub, the local lookup works where configured and the query is good; the answer is for the sub |
| Sessions.CallbackOrigin | cmd/oidc/oidcserver/handle-upstream-callback.go:104-179 | the claims of a callback's user, key by key, from the verified ID token, the user info and the local answer |
| Sessions.AnswerIff | cmd/oidc/oidcserver/handle-login.go:43-142 | for every request and user, answered if and only if: a usable SSO user, a granted login with a stored query, a passing and identifying callback, or the pending user's welcome POST |
| Sessions.PageIff | cmd/oidc/oidcserver/handle-login.go:70-101 | exactly when the login or the welcome page is shown |
| Sessions.RedirectIff | cmd/oidc/oidcserver/handle-upstream-go.go:91-118 | exactly when a request ends in a redirect |
| Sessions.LocalStatusIgnored | cmd/oidc/oidcserver/handle-upstream-callback.go:153-166 | the status the local lookup reports changes neither sessions nor response, so a locally disabled user is answered exactly when any other would be |
| Sessions.AlwaysReusesLastUser | cmd/oidc/oidcserver/handle-login.go:43-69 | in mode always, from any state, every valid query after an authentication with a login is answered for that user until the next authentication or a logout that destroys the SSO session |
| Sessions.LogoutEffectiveIff | cmd/oidc/oidcserver/handle-logout.go:71-80 | nothing can be answered before a new authentication exactly when each session was destroyed or held no usable user; the pending one counts only in mode onDemand |
| Sessions.SilentIffInert | cmd/oidc/oidcserver/handle-login.go:43-69 | a state never answers without a new authentication exactly when neither session holds a usable user, the pending one counting only in mode onDemand |
| Protector.DelayNeverAboveMax | internal/handlers/protector/bfa.go:209-218 | the delay never exceeds maxPenalty, overflow or not |
| Protector.DelayIdealIff | internal/handlers/protector/bfa.go:209-218 | for all settings and counts, the 64-bit delay is the described one exactly when the product fits or lies above the cap before and after it wraps |
| Protector.DelayBoundedAndMonotone | internal/handlers/protector/bfa.go:209-218 | while the product fits, the delay lies between 0 and maxPenalty and grows with the count |
| Protector.DelayOverflows | internal/handlers/protector/bfa.go:209-218 | with the default settings the delay turns negative at a concrete count |
| Protector.BfaProtector.constructor | internal/handlers/protector/bfa.go:104-112 | starts without entries |
| Protector.BfaProtector.EntryForLogin | internal/handlers/protector/bfa.go:123-139 | locked exactly when the login's or the unknown user's entry has too many pending failures |
| Protector.BfaProtector.EntryForToken | internal/handlers/protector/bfa.go:141-152 | the same for the token entry |
| Protector.BfaProtector.FailureLocked | internal/handlers/protector/bfa.go:157-166 | the locked section of failure, as one step |
| Protector.BfaProtector.EntryOf | internal/handlers/protector/bfa.go:158-162 | finds the entry or links a fresh zero one |
| Protector.BfaProtector.FailureSleep | internal/handlers/protector/bfa.go:167-170 | pending count up, sleep begins |
| Protector.BfaProtector.FailureWake | internal/handlers/protector/bfa.go:171-172 | pending count down, on the call's own object |
| Protector.BfaProtector.ProtectLoginResult | internal/handlers/protector/bfa.go:189-193 | only the two failing statuses are recorded |
| Protector.BfaProtector.TokenNotFound | internal/handlers/protector/bfa.go:175-177 | records a failure of the unknown token |
| Protector.BfaProtector.CleanUp | internal/handlers/protector/bfa.go:195-207 | for every visiting order, unlinks exactly the stale entries |
| Protector.PendingCountsSleepers | internal/handlers/protector/bfa.go:154-173 | for any interleaving, each object's pending count is the number of calls sleeping on it, linked or not |
| Protector.PendingDrains | internal/handlers/protector/bfa.go:169-171 | it is never negative, and zero once all calls have returned |
| Protector.LockedIff | internal/handlers/protector/bfa.go:123-152 | an entry locks exactly while more calls sleep on it than allowed |
| Protector.EntryLockedIff | internal/handlers/protector/bfa.go:123-152 | in every run a login is locked if and only if too many calls sleep on its entry or the unknown user's, a token if and only if they do on the unknown token's |
| Protector.CallSleepsItsPenalty | internal/handlers/protector/bfa.go:154-171 | in every run a call sleeps exactly the penalty for the failures its login had when it recorded its own |
| Protector.FailureCountExact | internal/handlers/protector/bfa.go:157-166 | nbrOfFailure is the number of failures since the entry was created |
| Protector.LongDelayIsSafe | internal/handlers/protector/bfa.go:195-207 | when cleanDelay covers every penalty a run can reach plus the lags, the cleaner never unlinks an entry a call still works on |
| Protector.TimelyRunsBounded | internal/handlers/protector/bfa.go:154-173 | in a timely run no call sleeps past its last failure by more than the largest penalty plus the start lag |
| Protector.CleanerSafeIff | internal/handlers/protector/bfa.go:195-218 | for all settings: that holds in every run with a given scheduling lag if and only if cleanDelay covers every penalty plus the lag |
| Protector.CleanerSafeByMaxPenalty | internal/handlers/protector/bfa.go:195-218 | where maxPenalty is reached before the product overflows, that is cleanDelay >= maxPenalty plus the lag |
| ExpandEnv.ExpandEnv | internal/misc/expandenv.go:49-107 | the scanner, with all its slices in bounds, computes the expansion of the parsed text |
| ExpandEnv.ParseUnique | internal/misc/expandenv.go:61-102 | every input splits into literals and references in exactly one well-formed way |
| ExpandEnv.RenderOkIff | internal/misc/expandenv.go:87-106 | it succeeds exactly when every reference has a value, and then yields the same literals with the values in place |
| ExpandEnv.ReferenceReplaced | internal/misc/expandenv.go:61-102 | a complete reference splits the expansion: both sides expand on their own with the value in between |
| ExpandEnv.NameBytes | internal/misc/expandenv.go:109-111 | names are letters, digits and the underscore |
| ExpandEnv.NewlinesExact | internal/misc/expandenv.go:58-60 | the line count is the number of newline bytes |
| ExpandEnv.ErrorIff | internal/misc/expandenv.go:79-86 | the error is for the leftmost reference with an empty value, on line one plus the newlines before it, and only then |
| ExpandEnv.NoReferenceNoChange | internal/misc/expandenv.go:43-47 | text without a complete reference is returned unchanged |

## Left out

- Protocol engine, token formats, signatures, password hashing and session cookies: foreign code; tokens, states, nonces and verifiers are opaque values.
- Caller discipline: `Disciplined` states it as a condition on runs (fresh signatures, retire before re-issue), because the calls come from the protocol engine, which is not part of this model.
- Mutexes and data races inside the store: each method is one atomic step; the protector is the only component modelled as interleaved.
- OpenID, PKCE and PAR session tables, clients, upstream registry and public keys of the store: plain put, get and delete.
- Nil maps and nil slices: identified with empty ones.
- Requests with a wrong method or an unparsable form: they leave the sessions alone.
- Session lifetimes and concurrent requests on one browser session: every handler call is one step.
- Sprintf patterns: a pattern is a prefix and a suffix around the name.
- JSON and YAML decoding: the model starts from decoded values; a JSON number is a real.
- nbrOfFailure: counted without a word size, because 2^63 failures are out of reach; the penalty product is not.
- Configuration defaults of a merger provider, the welcome page's display name and the rendered pages: easy or not behaviour of this model.
- Controllers, webhooks, LDAP, audit records, the SSO store in Kubernetes and its cleaners: wrappers over external stores.
