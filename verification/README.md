# Dropway, in Dafny

A model of the parts of Dropway where two pieces of code must agree, or where a promise has to
hold over every run, with proofs. `dafny verify dfyconfig.toml` checks all of it.

| file | what it models |
|---|---|
| `Bytes.dfy`, `Text.dfy`, `Utf.dfy`, `Sorting.dfy` | bytes, Go strings, UTF-8 and UTF-16 with their orders, sorting by a key |
| `Crc32.dfy`, `Zip.dfy` | the dashboard's ZIP writer and its table-driven CRC-32, with a reader that undoes it |
| `Manifest.dfy` | the deploy digest as Go and TypeScript compute it |
| `Deploy.dfy` | the upload pool, and why finalize comes after every upload |
| `Billing.dfy` | Stripe events, the billing store's transactions, quotas and the edge flag, over whole runs |
| `OAuthRedirects.dfy`, `OAuthUpdates.dfy` | the redirect allowlist under concurrent authorize requests, and when an update survives |
| `Projection.dfy`, `EdgeReader.dfy` | the edge projection: the in-memory writer, the remote one, the denylist, and the Worker that reads them |
| `Stream.dfy` | the reader of a streamed completion and its assembler |
| `Jwks.dfy` | the signing-key cache under concurrent verifications |
| `TokenCache.dfy` | the dashboard's bearer-token cache |
| `ChatSpec.dfy`, `ChatImport.dfy`, `ChatRules.dfy`, `ChatStorable.dfy` | chat-log validation, the import, what it makes of lines, parts and trees, and why imported messages are storable |
| `Slug.dfy` | slugs in Go and TypeScript, canonical and preview hosts |

Code that works by changing things is a method or a class here, proved against a function; what
the code promises is then proved of that function. Concurrent code is a state machine whose steps
are the stretches between two awaits or two lock operations, and its safety theorems range over all
interleavings; `RedirectRuns.AloneStores`, `RedirectRuns.AloneStoresLoopback` and
`Jwks.RotatedKeyIsFound` say what one undisturbed call achieves.

The functions that state machines and methods are proved against are themselves tied down: a theorem
says what each computes with the hosts, statuses, words and numbers of the documentation written out
(`Zip.ChecksumIsStandard`, `BillingRuns.PayingKeepsTier`, `RedirectRules.HostnameExactly`,
`StreamReader.EndsAsTheLinesSay`, `ChatImport.SpeakerExactly`, `EdgeReader.DeniedSinceRevoked`).

Some promises in the repository's comments do not hold as written. The code is modelled as it is,
and a theorem says exactly when the promise holds:

- A Stripe event "cannot be applied (permanent)" stops the retries, and transient database errors
  are said never to be reported that way. The probe for a stored customer looks at its blank variable
  before its error, so a failed probe is; a permanent refusal is deserved exactly when the event
  names a customer, or the probe did not fail, or no customer is stored
  (`Store.PermanentRefusalExactly`, `Store.RefusalsDeservedExactly`; `Store.RenewalIsLost` is a
  renewal lost that way).
- An authorize request reads again before it writes, so that an id a concurrent request committed is
  not overwritten with a stale copy of the allowlist. Over every run, no update of a client's list is
  lost exactly when each write that lands finds the list it last read, or that list with its own URI
  appended (`RedirectUpdates.SourceUpdatesSurviveExactly`; `RedirectUpdates.CallbackUpdateIsLost` and
  `RedirectUpdates.LoopbackUpdateIsLost` are runs that lose one).
- Line items that are no plan are skipped when a subscription's tier is read, exactly when they have a
  price: one without a price before the plan item makes the org Free (`Stripe.PlanTierExactly`, with
  `Stripe.PricelessItemHidesPlan`).
- What a checkout charges for is the tier the webhook reads back, exactly when no two tiers are
  configured with one price (`Stripe.PricesRoundTripExactly`).
- A route the writers accept is one the Worker can read exactly when its ids are UUIDs and its expiry
  is a date to both languages (`EdgeReader.RouteIsReadExactly`, with `EdgeReader.NamedRouteIsUnread`).
- The writers call "past_due" a blocking status; the Worker blocks exactly on "suspended" and
  "over_limit" (`EdgeReader.StatusBlocksExactly`).
- A manifest has one digest for every order of its files exactly when no two different files share a
  path (`Manifest.OrderFreeExactly`).
- The Go and TypeScript digests agree exactly when no two paths first differ in a supplementary
  character against one of U+E000..U+FFFF (`Manifest.DigestsAgreeExactly`).
- A ZIP archive reads back exactly when every count, name length, size and offset fits its 16- or
  32-bit field (`Zip.ZipRoundTrip`).
- The dashboard's `slugify` yields a slug the server accepts exactly when the 63-character cap does
  not fall right after a hyphen (`Slug.DashboardValidExactly`, with `Slug.DashboardFails`). It agrees
  with Go's slug where the two lower-casings agree; on U+0130 they do not (`Slug.LowerCasingsShow`).
- The denylist "only ever tightens", and a token once rejected stays rejected, exactly when every
  revocation that landed had read successfully or was not below the bound then stored
  (`ProjectionRuns.RejectionsLastExactly`, with `ProjectionRuns.DenylistLoosens`).
- A stream ends in its terminal event exactly when every send was delivered
  (`StreamReader.ConsumerSees`, with `StreamReader.CancelledSeesNoEnd`).
- The token cache keeps to its cap exactly when the cap is at least one
  (`TokenCache.CapHoldsExactly`), and a cache key belongs to one session and organisation exactly
  when neither id holds a colon (`TokenCache.KeySharedExactly`).
- `runPool` finishes every item before it resolves exactly when its limit is at least one
  (`UploadPool.ResolvesAfterAllExactly`).
- An imported message fails validation exactly when it is the action of a tool whose name is blank
  in its first 128 bytes (`ChatStorable.ImportIsStorableExactly`, with
  `ChatStorable.NamelessToolFails`).
- A ChatGPT tree imports in one order exactly when no two different messages of it share a creation
  time (`ChatImport.MappingOrderExactly`).
- The site bands of the billing store and of the quota policy agree on exactly the four known tiers
  (`Plans.BandsAgree`).

## Model

| member | source | states |
|---|---|---|
| Crc32.TableEntry | apps/dashboard/lib/zip.ts:15-19 | a table entry is its index shifted eight times through the reflected polynomial |
| Crc32.BuildTable | apps/dashboard/lib/zip.ts:13-21 | all 256 entries are right |
| Crc32.TableStep | apps/dashboard/lib/zip.ts:26 | for every 32-bit register and byte, one table step equals feeding the eight message bits one at a time |
| Crc32.TableFeed | apps/dashboard/lib/zip.ts:25-27 | the loop body feeds the byte bit by bit |
| Crc32.TableCrc | apps/dashboard/lib/zip.ts:23-29 | for every byte string the table-driven checksum is the bit-serial CRC-32 with polynomial 0xEDB88320 |
| Crc32.OneByteChangeDetected | apps/dashboard/lib/zip.ts:23-29 | changing any one byte of any data changes its checksum |
| Zip.ChecksumIsStandard | apps/dashboard/lib/zip.ts:23-29 | data followed by its own checksum always has the checksum 0x2144DF1C, no data has 0, and one zero byte has 0xD202EF8D |
| ZipLayout.SetUint16 | apps/dashboard/lib/zip.ts:51-55 | a little-endian 16-bit store in place, wrapping |
| ZipLayout.SetUint32 | apps/dashboard/lib/zip.ts:56-58 | a little-endian 32-bit store in place, wrapping |
| ZipLayout.WriteLocalHeader | apps/dashboard/lib/zip.ts:49-60 | the DataView stores fill in the 30-byte local header, every byte of it |
| ZipLayout.WriteCentralHeader | apps/dashboard/lib/zip.ts:64-77 | the DataView stores fill in the 46-byte directory header, zeros where nothing is stored |
| ZipLayout.WriteEndRecord | apps/dashboard/lib/zip.ts:84-89 | the DataView stores fill in the 22-byte end record |
| ZipLayout.LocalIsStandard | apps/dashboard/lib/zip.ts:50-55 | every local header begins PK 3 4, version 2.0, a name in UTF-8, stored, no time stamp |
| ZipLayout.CentralIsStandard | apps/dashboard/lib/zip.ts:65-71 | every directory entry begins PK 1 2 and the same |
| ZipLayout.EndIsStandard | apps/dashboard/lib/zip.ts:84-85 | every end record begins PK 5 6 on one disk |
| ZipLayout.TotalLength | apps/dashboard/lib/zip.ts:92 | the length summed over the chunks is that of their concatenation |
| ZipLayout.Join | apps/dashboard/lib/zip.ts:92-99 | the copy loop fills the output exactly with the concatenated chunks |
| ZipLayout.OffsetsLand | apps/dashboard/lib/zip.ts:77-80 | every recorded offset lands on its entry's local header, name and bytes |
| ZipLayout.ArchiveRoundTrip | apps/dashboard/lib/zip.ts:38-100 | within the fields' widths, a reader that starts at the last 22 bytes, follows the directory and checks each local header against it recovers exactly the members, in order |
| ZipLayout.ReadsOnlyInLimits | apps/dashboard/lib/zip.ts:83-89 | whatever an archive reads as, its parts are below 2^32 bytes, its count is the wrapped one and its names are below 2^16 bytes |
| ZipLayout.ArchiveReadsExactly | apps/dashboard/lib/zip.ts:38-100 | an archive reads back as its members if and only if every count, length and offset fits its field |
| ZipLayout.TooManyMembers | apps/dashboard/lib/zip.ts:86-87 | in particular the 16-bit count wraps: no archive of 65536 or more members reads back |
| Zip.BuildZip | apps/dashboard/lib/zip.ts:38-100 | the bytes returned are the archive of the entries, with their encoded names and checksums |
| Zip.ZipRoundTrip | apps/dashboard/lib/zip.ts:38-100 | names, bytes, order and checksums of an entry list come back if and only if every count, length and offset fits its field |
| Zip.CorruptionDetected | apps/dashboard/lib/zip.ts:45-56 | a stored byte changed in place makes the recorded checksum disagree |
| Utf.Utf8RoundTrip | apps/dashboard/lib/zip.ts:44 | decoding undoes encoding for every sequence of scalar values |
| Utf.DecodesExactly | internal/chatspec/chatspec.go:119-121 | the strict decoder accepts exactly the byte strings that encode some scalar values |
| Utf.Utf16RoundTrip | apps/dashboard/lib/deploy-manifest.ts:87-95 | TextEncoder reads the scalar values back from their code units |
| Utf.KnownEncodings | apps/dashboard/lib/zip.ts:44 | one character of each width has the bytes and code units the standards give it |
| Utf.Utf8KeepsOrder | internal/manifest/manifest.go:68-72 | UTF-8 byte order is code-point order |
| Utf.Utf16Order | apps/dashboard/lib/deploy-manifest.ts:77-79 | code-unit order is code-point order exactly for pairs that are not inverted |
| Utf.LessExactly | internal/manifest/manifest.go:69-71 | one string comes first exactly if it is a proper prefix, or smaller where the two first differ |
| Sorting.SortSorts | internal/chatspec/chatspec.go:434 | the sort returns an ordered permutation |
| Sorting.SortIsStable | internal/chatspec/chatspec.go:434 | elements with equal keys keep their order |
| Sorting.SortIsUnique | internal/manifest/manifest.go:69-71 | if keys determine elements, every sort of a list returns the same one |
| Manifest.Digest | internal/manifest/manifest.go:68-80 | the bytes fed to the hash are the lines of some library sort of the files |
| Manifest.PreImagesAgree | apps/dashboard/lib/deploy-manifest.ts:87-95 | for a list in one order, TypeScript's encoded text is byte for byte what Go feeds |
| Manifest.GoPreImageIgnoresOrder | internal/manifest/manifest.go:68-80 | where no two different files share a path, every permutation gives the same bytes, whatever sort is used |
| Manifest.OrderFreeExactly | internal/manifest/manifest.go:64-80 | every permutation and every sort give the same bytes if and only if no two different files share a path |
| Manifest.PreImageIsInjective | internal/manifest/manifest.go:74-78 | with 64-character hashes and newline-free paths, equal bytes imply equal (path, hash) lists |
| Manifest.PreImageReadsBack | internal/manifest/manifest.go:74-78 | a reader that cuts off 64 characters, two spaces and a line finds the hashes and paths in order |
| Manifest.GoOrderIsCodePoints | internal/manifest/manifest.go:69-71 | Go's sort puts the paths in code-point order |
| Manifest.TsOrderIsCodeUnits | apps/dashboard/lib/deploy-manifest.ts:77-79 | TypeScript's sort puts them in code-unit order |
| Manifest.DigestsAgree | apps/dashboard/lib/deploy-manifest.ts:77-95 | without an inverted pair of paths the two languages hash the same bytes |
| Manifest.DigestsAgreeInBmp | apps/dashboard/lib/deploy-manifest.ts:77-95 | in particular for paths of Basic Multilingual Plane characters |
| Manifest.DigestsAgreeExactly | apps/dashboard/lib/deploy-manifest.ts:77-95 | the two languages agree if and only if no pair of paths is inverted |
| Manifest.AstralPathsDisagree | apps/dashboard/lib/deploy-manifest.ts:77-79 | files named U+FF5E and U+10000 have two digests |
| UploadPool.PoolIsOrdered | apps/dashboard/lib/deploy.ts:54-68 | on every schedule items start in index order, each at most once, with no more in flight than the limit, or than there are items |
| UploadPool.ResolvedMeans | apps/dashboard/lib/deploy.ts:61-67 | when the pool resolves, exactly the defined items before the cursor have finished, each once |
| UploadPool.ResolvesAfterAll | apps/dashboard/lib/deploy.ts:54-68 | with a limit of at least one the pool resolves only after every item finished exactly once |
| UploadPool.ResolvesAfterAllExactly | apps/dashboard/lib/deploy.ts:60 | and on every schedule only then: a limit below one resolves with nothing done |
| UploadPool.NoWorkers | apps/dashboard/lib/deploy.ts:60 | with a limit below one the pool resolves at once |
| UploadPool.TurnsEnd | apps/dashboard/lib/deploy.ts:61-65 | each turn of a live worker uses up work |
| UploadPool.SchedulesAreBounded | apps/dashboard/lib/deploy.ts:54-68 | no schedule lasts more than two turns an item and one a worker |
| Deploy.HashFiles | apps/dashboard/lib/deploy-manifest.ts:101-114 | one entry per file, in order, and for each hash the first file that has it |
| Deploy.BuildManifest | apps/dashboard/lib/deploy-manifest.ts:97-117 | one entry per file with its hash, size and type, ordered by path, each with a file of its hash |
| Deploy.FinishedWereOk | apps/dashboard/lib/deploy.ts:104-111 | an upload that finished did so in a turn in which it succeeded |
| Deploy.FinalizeAfterUploads | apps/dashboard/lib/deploy.ts:97-122 | finalize is reached only if each missing blob was put to its URL and accepted |
| Plans.BandsAgree | cloud/billing/store.go:693-707 | the two statements of the site bands agree on exactly the four known tiers |
| Stripe.FromSubscription | cloud/billing/stripe.go:247-293 | the plan item is the first with a known price, and its price, seats and period fill the event |
| Stripe.UnknownPriceExactly | cloud/billing/stripe.go:262-280 | a price is unknown exactly when no line item has a known one, and then it is the first item's |
| Stripe.PlanTierExactly | cloud/billing/stripe.go:262-280 | the tier is that of the first plan-priced item if and only if no item without a price stands before it |
| Stripe.PricelessItemHidesPlan | cloud/billing/stripe.go:262-280 | an item without a price before a Pro item leaves the org Free with the wrong seats |
| Stripe.PricesRoundTripExactly | cloud/billing/stripe.go:61-88 | the price a tier is sold at reads back as that tier, for every tier, if and only if no two tiers share a price |
| Stripe.OtherPrices | cloud/billing/stripe.go:61-74 | a price nothing is configured with is free and unrecognized, no price free and recognized |
| Stripe.CheckoutNamesTarget | cloud/billing/stripe.go:188-222 | a checkout grants the paid tier it names and otherwise free, is active, and is refused exactly without an org |
| Stripe.TiersAreKnown | cloud/billing/stripe.go:61-74 | only known tiers come out of the Stripe mapping |
| Store.UpsertStores | cloud/billing/store.go:390-475 | a committed upsert stores the event's tier and normalized status in both tables, each other field under its own name, keeps what the event leaves out, and touches no other org |
| Store.CancelStores | cloud/billing/store.go:508-549 | a cancellation makes the org free in both tables, keeps customer, subscription, seats and period, and touches no other org |
| Store.WholeOrNothing | cloud/billing/store.go:145-205 | with any calls failing, a delivery is the whole one, or nothing and transient, or nothing and misled by its probe |
| Store.PermanentRefusalExactly | cloud/billing/store.go:405-423 | a delivery refused as permanent is one the event deserves if and only if it names a customer, or its probe did not fail, or no customer is stored |
| Store.RefusalsDeservedExactly | cloud/billing/billing.go:198-204 | every permanent refusal is deserved if and only if no probe fails where a customer is stored |
| Store.RenewalIsLost | cloud/billing/store.go:413-420 | a renewal the next delivery would commit is refused for good |
| Store.CommitsExactly | cloud/billing/store.go:145-205 | a delivery commits if and only if it would without failures and none of the database calls it makes fails |
| Store.UpsertRefusedExactly | cloud/billing/store.go:390-475 | an upsert is refused if and only if there is no customer to bill, the tier or the org does not exist, or another org holds the customer or the subscription |
| Store.RefusedExactly | cloud/billing/billing.go:228-258 | an event is refused if and only if its price is unknown, it names no org, or it is a paying subscription the tables cannot take |
| Store.BillingStore.UpsertSubscription | cloud/billing/store.go:390-475 | statement by statement, with any call failing, the transaction does and reports what `TryUpsert` says |
| Store.BillingStore.SetCanceled | cloud/billing/store.go:508-549 | likewise for a cancellation and `TryCancel` |
| Store.BillingStore.ApplyInTx | cloud/billing/billing.go:228-258 | dispatch on the event type inside the transaction, as `TryApply` |
| Store.BillingStore.ProcessEvent | cloud/billing/store.go:145-205 | with rollback and whatever call fails, the store moves as one `Receive` of the runs, and reports its outcome |
| Store.BillingStore.SaveCustomerID | cloud/billing/store.go:633-649 | records the customer, never the tier; a failing call changes nothing |
| Store.LedgerDoesNotMatter | cloud/billing/store.go:160-190 | applying an event neither reads nor writes the dedupe ledger |
| BillingRuns.ExecKeeps | cloud/billing/store.go:145-205 | every step keeps the invariant of every org |
| BillingRuns.ReachableStates | cloud/billing/store.go:390-475 | in every reachable state both tier reads agree on a known tier, a paid tier has a paying status, an active row is within its cap, and the edge flag says whether the row is active |
| BillingRuns.RunBlanksNothing | cloud/billing/store.go:438-465 | over any run, customer, subscription, period bounds and seats once set are never blanked |
| BillingRuns.FailureChangesNothing | cloud/billing/store.go:145-205 | a refused, duplicate or lost delivery changes nothing |
| BillingRuns.ExactlyOnce | cloud/billing/store.go:145-205 | for every schedule the tables are those of applying each committed event once, in commit order, and the ledger holds just those ids |
| BillingRuns.TierIsLastGrant | cloud/billing/billing.go:228-258 | in every reachable state both tier reads give what the last committed event about the org grants: a paying subscription's tier, else Free |
| BillingRuns.CommittedUpsertGrants | cloud/billing/store.go:390-475 | right after a committed event of a paying subscription both tier reads give its tier |
| BillingRuns.PayingKeepsTier | cloud/billing/billing.go:71-78 | right after a committed checkout, creation or update whose status is active, trialing or past_due, both tier reads give the event's tier and the row holds that status |
| BillingRuns.LapsedIsFree | cloud/billing/billing.go:239-250 | with any other status, or on a deletion, both reads give free and the row is canceled |
| BillingRuns.OthersAreRecorded | cloud/billing/billing.go:252-258 | any other event is recorded in the ledger and changes nothing else |
| BillingRuns.CustomersAreDistinct | cloud/billing/store.go:438-465 | in every reachable state no two orgs hold one customer or one subscription |
| BillingRuns.SaveStores | cloud/billing/store.go:633-649 | saving a customer sets the customer of the row, or makes a free active row without seats, and nothing else |
| BillingRuns.CapsArePublished | cloud/quota/quota.go:251-260 | both statements of the bands are ten sites on free, a hundred on pro, no limit above |
| BillingRuns.ServedIsWithinCap | cloud/billing/store.go:704-722 | in every reachable state an org that is served, its last flag write landed, has no more sites than its plan's published cap |
| BillingRuns.SitesAreGated | cloud/quota/quota.go:251-260 | in every reachable state a site is created if and only if the plan has room for one more |
| BillingRuns.OverLimitExactly | cloud/billing/store.go:704-722 | a committed change of plan leaves the org over its limit if and only if it has more sites than the new cap |
| RedirectRules.ProtocolsDiffer | apps/dashboard/lib/oauth-loopback-redirect.ts:51-70 | no string is both a ChatGPT and a loopback redirect |
| RedirectRules.HostnameExactly | apps/dashboard/lib/oauth-loopback-redirect.ts:24-34 | a hostname is taken if and only if, lower-cased and unbracketed, it is localhost, ::1, or 127 and three more dotted decimals of 0 to 255 |
| RedirectRuns.CallbackExactly | apps/dashboard/lib/oauth-chatgpt-redirect.ts:57-83 | a URL is read as an id's callback if and only if it is plain https on chatgpt.com or chat.openai.com with the path /connector/oauth/ and an id of 1 to 128 letters, digits, hyphens and underscores |
| RedirectRuns.StableExactly | apps/dashboard/lib/oauth-chatgpt-redirect.ts:57-83 | and as the stable callback if and only if the path is the documented one, perhaps with a slash |
| RedirectRuns.LoopbackExactly | apps/dashboard/lib/oauth-loopback-redirect.ts:51-67 | a URL is read as a loopback redirect if and only if it is plain http on such a host, exactly as sent, with a path that holds no way up |
| RedirectRuns.RegistersExactly | apps/dashboard/lib/oauth-chatgpt-redirect.ts:93-119 | a callback may be appended if and only if it is new, spelled canonically, on a host of the list, and, with an id, no other id is there and this id or the stable callback is |
| RedirectRuns.LoopbackRegistersExactly | apps/dashboard/lib/oauth-loopback-redirect.ts:74-87 | a loopback redirect may be appended if and only if it is new and some entry has its path |
| RedirectRules.ExpandRegistration | apps/dashboard/lib/oauth-chatgpt-redirect.ts:146-159 | the loop appends exactly the missing stable callbacks, or reports that nothing is missing |
| RedirectRules.MissingExactly | apps/dashboard/lib/oauth-chatgpt-redirect.ts:146-159 | a stable callback is added exactly when some entry asks for it and it is absent, and once |
| RedirectRules.ExpandedIsComplete | apps/dashboard/lib/oauth-chatgpt-redirect.ts:146-159 | an expanded registration has every host's stable callback, so expanding again adds nothing |
| RedirectRuns.ExecKeeps | apps/dashboard/lib/oauth-chatgpt-redirect.ts:202-273 | each await-to-await step of each request keeps the allowlist invariant |
| RedirectRuns.RunKeeps | apps/dashboard/lib/oauth-chatgpt-redirect.ts:202-273 | so does any interleaving |
| RedirectRuns.WriteHasCause | apps/dashboard/lib/oauth-chatgpt-redirect.ts:222-250 | a request about to write appends to a list that was stored, and its URI is no new id there or its own second lookup said no |
| RedirectRuns.NewIdHasItsNo | apps/dashboard/lib/oauth-chatgpt-redirect.ts:255-273 | the write that first stored an unregistered id is that of a request whose own lookup, made after its last read, said no |
| RedirectRuns.SafeFor | apps/dashboard/lib/oauth-loopback-redirect.ts:102-127 | the same safety for any pair of classifiers that share no string |
| RedirectRuns.StoredListsAreSafe | apps/dashboard/lib/oauth-chatgpt-redirect.ts:93-119 | after any interleaving, lost updates included, a stored list extends its registration, gains no host and no loopback path, has at most max(1, registered) ids per host, and each new id was first stored on its own request's no |
| RedirectRuns.StoredUrisAreKnown | apps/dashboard/lib/oauth-chatgpt-redirect.ts:42-119 | for every URL parser and every run, a stored URI that was not registered parses to https on chatgpt.com or chat.openai.com and is spelled as documented, or to http on a loopback host with the path of a registered loopback URI |
| RedirectUpdates.UpdatesSurviveExactly | apps/dashboard/lib/oauth-chatgpt-redirect.ts:232-250 | over any run, each stored list is a prefix of every later one if and only if every landed write finds the list it last read, or that list with its own URI |
| RedirectUpdates.SourceUpdatesSurviveExactly | apps/dashboard/lib/oauth-loopback-redirect.ts:102-127 | the same of the source's own rules, whatever the URL parser |
| RedirectUpdates.CallbackUpdateIsLost | apps/dashboard/lib/oauth-chatgpt-redirect.ts:232-250 | a run that stores a new callback id, with its consent lookups, and overwrites it with a stale copy |
| RedirectUpdates.LoopbackUpdateIsLost | apps/dashboard/lib/oauth-loopback-redirect.ts:102-127 | two loopback requests on one path: the second write drops the first one's URI |
| RedirectUpdates.SourceLosesAnUpdate | apps/dashboard/lib/oauth-loopback-redirect.ts:102-127 | such a run by the source's own rules |
| RedirectRuns.AloneStores | apps/dashboard/lib/oauth-chatgpt-redirect.ts:202-273 | a request nothing disturbs appends its URI, as sent, exactly when the rules and the consent lookup allow it |
| RedirectRuns.AloneStoresLoopback | apps/dashboard/lib/oauth-loopback-redirect.ts:73-127 | likewise a loopback request whose path is on the list, whatever its port |
| EdgeKeys.RouteKeysAreInjective | internal/projection/projection.go:246 | two hosts never share a route key |
| EdgeKeys.StatusKeysAreInjective | internal/projection/projection.go:178 | two orgs never share a status key |
| EdgeKeys.RevokedKeysAreInjective | internal/edgerevoke/edgerevoke.go:65-67 | two subjects never share a denylist key, whatever their ids hold |
| EdgeKeys.FamiliesAreDisjoint | internal/projection/projection.go:246 | the three key families never meet |
| LocalProjection.Local.RebuildFromDB | internal/projection/local.go:81-94 | both loops amount to the rebuild step: the target, or nothing if one of it is invalid |
| LocalProjection.Local.RevokeSubject | internal/projection/local.go:99-121 | the revoke step: the larger bound is kept |
| LocalProjection.Local.SetStatus | internal/projection/local.go:142-157 | the status step: active clears the flag, anything else sets it |
| RemoteProjection.CloudflareKV.ListKeys | internal/projection/cloudflare.go:142-185 | however the server pages, empty pages included, exactly the namespace's keys under the prefix, or a failed call |
| RemoteProjection.CloudflareKV.RevokeSubject | internal/projection/cloudflare.go:202-236 | with a read that works, the revoke step the refinement is about; with any fate, an event of the denylist runs |
| RemoteProjection.CloudflareKV.SetStatus | internal/projection/cloudflare.go:285-306 | acknowledged, the status step the refinement is about; with any fate, that step or nothing |
| RemoteProjection.CloudflareKV.RebuildFromDB | internal/projection/cloudflare.go:108-138 | completed, the rebuild step the refinement is about; stopped after any call, each route key as before or as in the target and no other key moved; invalid input changes nothing |
| ProjectionRuns.StepRefines | internal/projection/cloudflare.go:108-306 | each acknowledged remote operation does to the flat namespace what the in-memory one does to its maps |
| ProjectionRuns.RemoteRefinesLocal | internal/projection/local.go:61-157 | over any run the two writers hold the same projection |
| ProjectionRuns.RerunCompletes | internal/projection/cloudflare.go:108-138 | a rebuild stopped anywhere and run again is the in-memory rebuild |
| ProjectionRuns.RevokeKeepsMaxExactly | internal/projection/cloudflare.go:202-236 | a landed revocation keeps the larger bound if and only if its read succeeded or its bound is not smaller |
| ProjectionRuns.DenylistIsMax | internal/projection/cloudflare.go:202-276 | after any run with reads that succeed or bounds that do not go down, the stored bound is the largest that landed |
| ProjectionRuns.RejectedStaysRejected | internal/edgerevoke/edgerevoke.go:19-23 | a token once rejected by the three-key rule stays rejected through every later operation |
| ProjectionRuns.RejectionsLastExactly | internal/edgerevoke/edgerevoke.go:19-23 | over any run every rejected token stays rejected at every later step if and only if each landed revocation read successfully or was not below the bound then stored |
| ProjectionRuns.DenylistLoosens | internal/projection/cloudflare.go:215-222 | a user revoked at 20 and, with a failed read, at 10: a token of 15 is let back in |
| EdgeReader.FoundExactly | edge/serving-worker/src/route.ts:53-72 | a request finds a host's route if and only if its Host header, trimmed and lower-cased, is that host, perhaps with a dot, perhaps with a port |
| EdgeReader.SiteIsFoundExactly | edge/serving-worker/src/route.ts:53-72 | in particular the host under which the writers publish a site of Valid slugs |
| EdgeReader.RouteIsReadExactly | contracts/src/index.ts:110-201 | a value the writers accept is read if and only if its ids are UUIDs and its expiry a date to both; and what is read is what the writers accept |
| EdgeReader.NamedRouteIsUnread | contracts/src/index.ts:134-139 | a route with other ids is published and not read |
| EdgeReader.RoutesAreReadable | internal/projection/projection.go:94-124 | if only routes with UUIDs are published, then in every state of every run, stopped rebuilds included, every route can be read |
| EdgeReader.RebuildIsServed | internal/projection/cloudflare.go:108-138 | after an acknowledged rebuild every request is served by the target's route for its host, and by none if there is none; no other key moved |
| EdgeReader.WriteIsServed | internal/projection/cloudflare.go:69-98 | an acknowledged write or deletion changes what its own host is served by and nothing else |
| EdgeReader.IsRevoked | edge/serving-worker/src/revoke.ts:114-150 | over the Worker's own three keys, a token is turned away exactly when the writers' rule rejects it, or the denylist cannot be read |
| EdgeReader.DeniedExactly | edge/serving-worker/src/revoke.ts:28-30 | the Worker and the writers mean the same by a rejected token |
| EdgeReader.DeniedSinceRevoked | edge/serving-worker/src/revoke.ts:114-150 | over any run in which no revocation loosens, the Worker turns a token away if and only if some revocation of its user, site or org landed with a bound after its issue |
| EdgeReader.StatusBlocksExactly | edge/serving-worker/src/ratelimit.ts:105-138 | an acknowledged status blocks its org if and only if it says suspended or over_limit; active, nothing and past_due do not; no other org is touched |
| EdgeReader.StatusLasts | edge/serving-worker/src/ratelimit.ts:115-138 | whether an org is blocked stays through every run without a status write of its own |
| Assembly.Assembler.ApplyToolDelta | internal/openrouter/stream.go:217-235 | the calls become those of the fragments so far, one more included |
| Assembly.Assembler.Apply | internal/openrouter/stream.go:187-215 | message and usage stay those of all chunks applied, and the delta is the chunk's text |
| Assembly.Assembler.Finish | internal/openrouter/stream.go:239-245 | the message and usage of all chunks |
| Assembly.InterleavingDoesNotMatter | internal/openrouter/stream.go:217-235 | streams with the same fragments per index, however interleaved, assemble the same calls |
| Assembly.UsageIsLast | internal/openrouter/stream.go:187-201 | usage is the last id, model and counts any chunk gave, and absent only without chunks |
| Assembly.CallIsAssembled | internal/openrouter/stream.go:217-235 | a call's arguments are those of its index's fragments in order, its id, type and name the last given, and the type is function if none is |
| StreamReader.NextLine | internal/openrouter/stream.go:137 | one line up to and with its newline, or the rest |
| StreamReader.LinesRejoin | internal/openrouter/stream.go:136-138 | the lines are the body, nothing lost |
| StreamReader.Feed | internal/openrouter/stream.go:156-160 | a chunk is applied and its text, if any, sent |
| StreamReader.SendLast | internal/openrouter/stream.go:121-130 | the one terminal send |
| StreamReader.ReadStream | internal/openrouter/stream.go:107-175 | the events sent are the deliverable prefix of the deltas and the terminal event |
| StreamReader.ConsumerSees | internal/openrouter/stream.go:104-175 | deltas, then at most one terminal event and nothing after it, one if and only if every send is delivered; a done message's text is the concatenation of the deltas, its calls those of the chunks |
| StreamReader.EndsAsTheLinesSay | internal/openrouter/stream.go:136-174 | when every send is delivered, the last event is done if and only if the first data line that is [DONE] or does not decode is the former, or there is none and the body ended cleanly with the context alive; the deltas and a done message hold the texts and tool fragments of the lines before, in order, and its usage is theirs |
| StreamReader.SomewhereItStops | internal/openrouter/stream.go:136-174 | every body has such a first line, or none |
| StreamReader.CancelledSeesNoEnd | internal/openrouter/stream.go:113-120 | a consumer that has gone away gets no terminal event |
| StreamReader.CommentsAreSkipped | internal/openrouter/stream.go:139-144 | a line that is only its line ending, and a comment, are skipped |
| StreamReader.SkippedLinesAreInvisible | internal/openrouter/stream.go:140-163 | a skipped line anywhere changes nothing |
| Jwks.CollectKeys | internal/auth/jwks.go:270-280 | the loop collects the usable keys of the document |
| Jwks.KeysExactly | internal/auth/jwks.go:270-280 | an id is kept exactly when some usable entry has it, with the key of the last such entry |
| Jwks.CachedAreEd25519 | internal/auth/jwks.go:270-280 | exactly the ids of the document's OKP keys on Ed25519 with 32 bytes are kept |
| Jwks.KeysAreFromDocuments | internal/auth/jwks.go:153-292 | after any interleaving the cached keys are those of one decoded document, and each key handed out is some such document's |
| Jwks.FoundIsEd25519 | internal/auth/jwks.go:153-169 | after any interleaving a key handed to a verification has 32 bytes and is an Ed25519 key of some decoded document under that id |
| Jwks.NeverEmptyAgain | internal/auth/jwks.go:282-290 | a cache that holds keys never goes empty |
| Jwks.RotatedKeyIsFound | internal/auth/jwks.go:153-169 | an undisturbed verification ends with the cached key, else with the key of a freshly fetched document if the gate lets it fetch, else without |
| Jwks.FetchesAreSpaced | internal/auth/jwks.go:241-250 | an unforced fetch begins at least the interval after the fetch before it, failed or not |
| Jwks.FetchRate | internal/auth/jwks.go:241-250 | in any window of length T at most 1 + T / interval unforced fetches begin |
| TokenCache.TokenCache.Get | apps/dashboard/lib/token-cache.ts:56-65 | the live token for the key, and an expired slot dropped |
| TokenCache.TokenCache.Set | apps/dashboard/lib/token-cache.ts:68-71 | eviction, then the slot in its old place or at the end |
| TokenCache.TokenCache.Delete | apps/dashboard/lib/token-cache.ts:74-76 | that key gone, the rest in order |
| TokenCache.TokenCache.SweepExpired | apps/dashboard/lib/token-cache.ts:88-90 | deleting while iterating leaves exactly the live slots, in order |
| TokenCache.TokenCache.DropOldest | apps/dashboard/lib/token-cache.ts:91-95 | the oldest slots go until one more fits |
| TokenCache.TokenCache.EvictIfNeeded | apps/dashboard/lib/token-cache.ts:85-96 | below the cap nothing happens; at it, sweep and then drop the oldest |
| TokenCache.EvictsOldest | apps/dashboard/lib/token-cache.ts:85-96 | below the cap nothing goes, at it the expired go, and if that makes no room the oldest go until one fits |
| TokenCache.PutKeepsPlace | apps/dashboard/lib/token-cache.ts:70 | a key set again keeps its place, a new one goes to the end |
| TokenCache.SetKeyAnswer | apps/dashboard/lib/token-cache.ts:68-71 | whatever is evicted, a key just set is answered with its token until its time to live is over, and not at that moment |
| TokenCache.RunBounded | apps/dashboard/lib/token-cache.ts:85-96 | after any run at most max(cap, 1) slots |
| TokenCache.CapHoldsExactly | apps/dashboard/lib/token-cache.ts:85-96 | the cap bounds every run if and only if it is at least one |
| TokenCache.HitIsLastSet | apps/dashboard/lib/token-cache.ts:56-76 | on any clock a hit is the token last set for that key, unexpired and not deleted since |
| TokenCache.SetAgreesExactly | apps/dashboard/lib/token-cache.ts:68-96 | a set leaves the cache indistinguishable from an unbounded expiring map if and only if it drops no other key's live slot |
| TokenCache.AgreesExactly | apps/dashboard/lib/token-cache.ts:56-96 | over whole runs on a monotone clock, the same if and only if |
| TokenCache.BelowCapacityAgrees | apps/dashboard/lib/token-cache.ts:56-96 | in particular when no set happens at capacity |
| TokenCache.KeySharedExactly | apps/dashboard/lib/token-cache.ts:105-110 | another session and organisation has the same key if and only if an id holds a colon |
| ChatSpec.CleanPathExactly | internal/chatspec/chatspec.go:156-169 | a path is clean exactly when it is short, without NUL or backslash, and no segment is empty, one dot or two |
| ChatRules.StorableExactly | internal/chatspec/chatspec.go:92-150 | which messages may be stored, with every bound and word written out |
| ChatSpec.Truncate | internal/chatspec/chatspec.go:506-515 | the loop cuts at the last character start that leaves room for the marker |
| ChatSpec.TruncationFits | internal/chatspec/chatspec.go:506-515 | the result fits, is valid UTF-8 if the text was, is never blank if the text was not, changes only long text, and gives up at most three bytes of room |
| ChatImport.DerivedExactly | internal/chatspec/chatspec.go:329-357 | a derived action passes Validate if and only if the tool's name is not blank in its first 128 bytes |
| ChatRules.ActionExactly | internal/chatspec/chatspec.go:329-357 | an action is a file edit if and only if the tool is one of six editors and its path is good; it records the path, and otherwise the tool's name up to 128 bytes |
| ChatImport.GroupsKeepOrder | internal/chatspec/chatspec.go:296-320 | the groups are the kept parts in order, each one tool or a run of prose, and no two runs touch |
| ChatImport.AddPart | internal/chatspec/chatspec.go:297-317 | the switch adds a part to the open prose, or closes it and adds an action |
| ChatImport.CompileParts | internal/chatspec/chatspec.go:296-320 | the loop yields one message per group |
| ChatRules.ToolParts | internal/chatspec/chatspec.go:306-315 | a tool part is an action between the messages of the parts before it and those after |
| ChatRules.ProseParts | internal/chatspec/chatspec.go:298-305 | text parts in a row are one message, an empty line between them |
| ChatRules.NoisePart | internal/chatspec/chatspec.go:297-317 | any other part leaves no trace |
| ChatImport.CollectLines | internal/chatspec/chatspec.go:239-247 | the trimmed non-blank lines, in order |
| ChatImport.NormalizeJsonl | internal/chatspec/chatspec.go:268-323 | the messages of the decodable lines, in order |
| ChatRules.LinesPart | internal/chatspec/chatspec.go:239-247 | the messages of two texts joined by a newline are those of the first, then those of the second |
| ChatRules.LineExactly | internal/chatspec/chatspec.go:268-274 | a line gives the messages of the event its trimmed text decodes to, and none if it is blank or does not decode |
| ChatRules.PlainEvent | internal/chatspec/chatspec.go:275-290 | an event of plain text is one message of whoever speaks, in the inner message or outside it |
| ChatRules.RoleExactly | internal/chatspec/chatspec.go:487-502 | who speaks: user or human, assistant, model or ai in any case, else the event's type |
| ChatImport.AnyOrderFindsTheMarker | internal/chatspec/chatspec.go:471-483 | whatever order the marker map is walked in, the same speaker and rest are found |
| ChatImport.SpeakerExactly | internal/chatspec/chatspec.go:471-483 | a line opens a user turn if and only if, trimmed and lower-cased, it starts with user:, human: or me:, and an assistant turn if and only if with assistant:, ai:, claude: or chatgpt:; what follows its first colon belongs to the turn |
| ChatImport.NormalizeText | internal/chatspec/chatspec.go:445-469 | one trimmed message per non-blank turn, a turn being a marker line and the lines up to the next |
| ChatImport.TurnIsOneMessage | internal/chatspec/chatspec.go:445-469 | in any text such a line and the lines up to the next give one message of that role, between the messages of the text before and after |
| ChatImport.UnopenedIsUsers | internal/chatspec/chatspec.go:441-447 | lines before any such line are one message of the user's |
| Text.UnixKeeps | internal/chatspec/chatspec.go:455 | text without a carriage return and newline is split as it is |
| Text.UnixJoins | internal/chatspec/chatspec.go:455 | the first such pair of a text becomes a newline, and the rest is treated alike |
| Text.TrimExactly | internal/chatspec/chatspec.go:450-451 | trimming drops the white space at both ends, all of it, and nothing else |
| ChatImport.JoinParts | internal/chatspec/chatspec.go:416-429 | the non-blank string parts, a blank line between |
| ChatImport.NormalizeChatGpt | internal/chatspec/chatspec.go:380-439 | the plain message list if it yields any, else the tree's messages by creation time |
| ChatRules.TreeIsByTime | internal/chatspec/chatspec.go:434-437 | a tree's messages are those of its nodes, oldest first |
| ChatRules.NodeExactly | internal/chatspec/chatspec.go:407-433 | a node's string parts with something in them, an empty line between, are one message of its author; a node without any is skipped |
| ChatImport.MappingOrderDoesNotMatter | internal/chatspec/chatspec.go:407-439 | if creation times tell the messages apart, the map's iteration order does not matter |
| ChatImport.MappingOrderExactly | internal/chatspec/chatspec.go:394-439 | the map's order never shows if and only if the plain list is used or no two different messages share a time |
| ChatImport.Parse | internal/chatspec/chatspec.go:184-199 | the format picks the parser, or the import is refused |
| ChatRules.NamedFormat | internal/chatspec/chatspec.go:187-196 | each format's name, and no other, picks its parser |
| ChatRules.DetectedFormat | internal/chatspec/chatspec.go:215-237 | without a name one JSON document is a tree, lines that are all JSON are events, and anything else is text |
| ChatImport.BoundAll | internal/chatspec/chatspec.go:203-205 | every content is truncated in place |
| ChatImport.Normalize | internal/chatspec/chatspec.go:180-211 | the newest min(1000, n) parsed messages, each truncated, with dropped plus kept equal to n; or the right error |
| ChatRules.NewestExactly | internal/chatspec/chatspec.go:203-210 | an import is the newest thousand messages, each truncated, and the count of the others |
| ChatStorable.JsonlIsSound | internal/chatspec/chatspec.go:268-323 | every message is a non-blank UTF-8 chat turn of a known role, or the action of one of the export's tools |
| ChatStorable.TextIsSound | internal/chatspec/chatspec.go:445-469 | valid UTF-8 text splits into non-blank valid messages |
| ChatStorable.DocIsSound | internal/chatspec/chatspec.go:380-439 | so does a ChatGPT document |
| ChatStorable.ImportIsStorableExactly | internal/chatspec/chatspec.go:180-211 | of what an import of valid UTF-8 returns, exactly the actions of nameless tools fail Validate |
| ChatStorable.NamedToolsAreStorable | internal/chatspec/chatspec.go:92-123 | with named tools, at most 1000 messages come back and all pass Validate |
| ChatStorable.NamelessToolFails | internal/chatspec/chatspec.go:329-333 | an export of one nameless tool part imports as one message that fails Validate |
| Slug.CleanIsWords | internal/slug/slug.go:49-53 | the replacements and trims amount to the alphanumeric words joined by single hyphens |
| Slug.SlugifyIsValid | internal/slug/slug.go:49-58 | the result is Valid, or empty exactly when there is no word; it is the joined words, cut only past 63 characters and by one more at most |
| Slug.FixedExactly | internal/slug/slug.go:35-58 | a text is its own slug if and only if it is Valid or empty |
| Slug.ValidExactly | internal/slug/slug.go:35-40 | Valid is one to 63 lower-case letters, digits and hyphens, no hyphen at either end and no two together |
| Slug.SlugifyIsIdempotent | internal/slug/slug.go:49-58 | slugifying twice changes nothing |
| Slug.AsciiLowerKeeps | internal/slug/slug.go:50 | ASCII lower-casing leaves slug text alone, as the two rows above ask |
| Slug.SlugifiersAgree | apps/dashboard/lib/skills-shared.ts:13-20 | where the two lower-casings agree, as on ASCII, Go's slug is the dashboard's with trailing hyphens trimmed |
| Slug.LowerCasingsShow | apps/dashboard/lib/skills-shared.ts:15 | where they differ the slugs do: U+0130 and x give ix in Go and i-x in the dashboard |
| Slug.DashboardValidExactly | apps/dashboard/lib/skills-shared.ts:13-20 | the dashboard's slug is Valid or empty if and only if the cap does not fall right after a hyphen |
| Slug.DashboardFails | apps/dashboard/lib/skills-shared.ts:13-20 | sixty-two letters, a break and a letter give the dashboard a slug the server rejects |
| Hosts.HostIsInjective | internal/projection/projection.go:199-201 | two sites of Valid slugs share a host only if they are the same site |
| Hosts.HostOfBlog | internal/projection/projection.go:199-201 | acme's blog is at acme--blog.dropwaycontent.com |
| Hosts.PreviewOfBlog | internal/projection/projection.go:208-229 | without an id the preview's label is preview, before org and app |
| Hosts.PreviewLabel | internal/projection/projection.go:214-229 | the loop collects characters other than hyphens until it holds exactly eight bytes |
| Hosts.AsciiLabel | internal/projection/projection.go:214-229 | for an ASCII id the label is its first eight characters other than hyphens |
| Hosts.LabelHasNoHyphen | internal/projection/projection.go:214-229 | a label is never empty and holds no hyphen |
| Hosts.PreviewIsNotCanonical | internal/projection/projection.go:208-210 | a preview host is never a canonical host |
| Hosts.PreviewsCoincideExactly | internal/projection/projection.go:208-210 | two preview hosts coincide if and only if label, org and app do |

## Left out

- HTTP, Postgres, S3, Stripe and Cloudflare clients: a transaction commits or rolls back as one step, a remote call lands or not and may lose its reply.
- SHA-256, Ed25519 and token parsing: hashes are opaque, and the theorems are about the bytes hashed and the keys kept.
- URL and JSON parsing: models start from parsed records, and the parsers are parameters. So is base64.
- Unicode white space and letter case in chat imports: those of ASCII. In slugs, each language's lower-casing is a parameter; where the two slugifiers are compared they are taken to agree, as they do on ASCII.
- Deploy paths with lone surrogates: paths are sequences of scalar values. The ZIP model keeps them, replaced as TextEncoder does.
- A commit that succeeds but whose acknowledgement is lost: a failed commit counts as rolled back.
- Overlapping remote revocations, overlapping post-commit flag writes, and a KV store that lags: the code promises no order there.
- Reprojection of an org's routes and the analytics call after a billing commit: they read, and change none of the modelled state.
- Quotas other than sites (storage, members, domains): one comparison each.
- The JSON text form of a stored redirect list: the model starts from the list it decodes to.
- The moment of the last successful key refresh: it is recorded and never read.
- The expiry of a route at the edge and the Worker's rate limit: one comparison and one counter. JSON in the namespace: values are records, and an optional field left out is the empty one.
- The file mirror of the in-memory projection: it is written from the same maps.
- Markdown rendering, dashboard pages, e-mail, analytics and logging: no property over all inputs to prove.
- API keys, password hashes, custom domains, role checks and skill paths: decision tables that a reading of each branch settles.
