# ShadowDNS verification model

ShadowDNS keeps one copy of a root zone and answers for its backup zones by rewriting names at
query time. This project models that core and the machinery around it in Dafny, and proves that
each fast or rewritten form agrees with a simple reference.

`dafny verify dfyconfig.toml` checks the whole project.

## What is modelled

- **Alias answering.** `DnsNames` has names as folded label sequences, `NameText` the byte-level
  rewriting code and its agreement with the labels (`AnywhereText` for the label-anywhere rewrite), `Records` record rewriting and withholding.
  `ZoneStore` is the mutable zone index, proved method by method against the values of `ZoneData`;
  `ChainAgreement` relates emitted and collapsed CNAME chains. `Resolver` and `Handler` are the
  answer stages of both paths, and `Answers` reads off the zone's records what replies hold. `Materialise` defines the renamed copy of the root zone that a
  backup stands for, and `Transparency` proves that the backup path serves that copy under the
  backup's overrides, and under the suffix rule exactly when the root's CNAME targets are clean. `Existence` settles NXDOMAIN against NODATA, `Leak` what a backup may
  reveal of the root zone, `Transfer` the alias AXFR, `Prune` and `PruneMeaning` the offline
  pruner and what its deletions do to replies. `Detect` finds the zone of a query.
- **Rate limiting.** `CreditAccount` is one balance over reals and any clock; `Lru` the account
  list of a shard as a value, with its eviction rule and admission bound; `RateTable` the
  intrusive doubly-linked list with its map, in place; `Limiter` whole runs of decisions and
  `LimiterTable` the sharded object that makes them.
- **Named ACLs.** `AclMatch` evaluates address-match lists, `AclResolve` is the cycle-cutting
  depth-first resolver as an object, `AclMeaning` what resolution does to clients. `AclLexer`,
  `AclParse` and `AclReader` are the lexer, the parser as specification and as running code, and
  the round trip from lists to text and back; `Layout` and `AclForms` say, with the characters and
  words spelled out, what comments, white space and each form of element mean.
- **Running server.** `Build` is the incremental build over heap objects, `ReopenSink` the log
  sink, `Reload` the interleaved protocol of queries, SIGHUP reloads and SIGUSR1 reopens,
  `Truncate` the UDP truncation search, `Ephemeral` the TXT store and its garbage collection.

Objects that the server updates in place are classes here, and each of their methods is tied to a
function on values; the properties below are then proved of those functions over all inputs and
all runs.

## Assumptions that the code forces

- Wildcards follow the code's own nearest-ancestor rule, which only sees ancestors holding records;
  section 3.3.1 of RFC 4592 is not claimed.
- Transparency asks for the SOA at the apex, owners inside the zone, a query type that is not
  withheld, and CNAME targets that the rewrite treats as the renamed zone would. Under the suffix
  rule the last condition says that the target of each CNAME RRset's last record does not lie in
  the backup and outside the root, and `Transparency.TransparentExactlyWhenClean` proves it
  necessary as well as sufficient.
- `Leak` asks that neither origin lies inside the other and that the table of rdata classes knows
  every name-bearing type in the zone. `Leak.NoLeakExactlyWhenApart` shows that the first is
  necessary as well as sufficient; `Leak.NestedOriginsLeak` is a concrete leak.
- Pruning compares RDATA as written while serving from the root rewrites it, so a reply survives
  exactly when the rewrite maps the deleted RDATA onto itself. `PruneMeaning.PrunedMailHostChanges`
  is an MX pair for which it does not.
- Chains of exactly eight CNAMEs may be answered differently with and without collapsing;
  `ChainAgreement.CollapseAgreesWithFollow` says exactly when and
  `ChainAgreement.EightCNAMEsDisagree` has such a zone.
- A transfer carries CNAME records as the root has them, while a query under collapsing gets what
  the chain ends in. `Transfer.CollapsedCNAMEAgreesExactly` says when the two agree in a zone
  without CNAME loops; with a loop they can agree by accident (`Transfer.LoopingCNAMEAgrees`).
- A query that has loaded the query logger just before a reload replaces it can write after the
  old sink is closed; `Reload.LineLostExactlyWhenRetired` says exactly when its line is lost.
- Resolution of an acl can widen a list whose negated group lost part of its body
  (`AclMeaning.PartialLossWidens`), although the comment at internal/config/zones.go:889-895 reads
  as if it could not; `AclMeaning.ResolutionOnlyNarrows` holds for every list without such bodies,
  and `AclMeaning.NegatedBodyWidensExactly` says exactly which bodies of tests and lost references
  widen.
- Incremental building asks that equal fingerprints mean equal parsed content, which fails for
  files that a zone file includes, since only the main file is fingerprinted.
- `Truncate` takes packing as a function of the answer that does not shrink when the answer grows.
- Garbage collection of ephemeral values is invisible to a lookup as long as no sweep read the clock
  later than the lookup did, which any clock that does not run backward ensures.

## Model

| member | source | states |
|---|---|---|
| `DnsNames.RewriteRoundTrip` | internal/alias/rewrite.go:18-60 | rewriting a name into the other zone and back is the identity inside the zone |
| `DnsNames.RewriteInjective` | internal/alias/rewrite.go:46-60 | two names of a zone never collide after the rewrite |
| `NameText.ByteSuffixIsZoneMembership` | internal/dnsutil/dnsutil.go:115-121 | for backslash-free names the byte suffix test is label-wise zone membership, both ways |
| `NameText.RewriteQNameIsRewrite` | internal/alias/rewrite.go:18-30 | the string splice of RewriteQName is the label-wise suffix replacement |
| `NameText.RewriteNameKeepsPrefix` | internal/alias/rewrite.go:46-60 | RewriteName keeps the letters (and case) before the root suffix and replaces exactly the suffix |
| `NameText.RewriteNameFoldsToRewriteQName` | internal/alias/rewrite.go:46-60 | up to letter case RewriteName is RewriteQName the other way round |
| `NameText.RewriteNameIsRewrite` | internal/alias/rewrite.go:46-60 | RewriteName on folded text is the label-wise suffix replacement |
| `NameText.RewriteNameAnywhere` | internal/alias/rewrite.go:80-110 | the label-anywhere rewrite replaces exactly the leftmost occurrence of the root that stands on label boundaries, and leaves the name alone when there is none |
| `AnywhereText.RewriteAnywhereText` | internal/alias/rewrite.go:80-110 | on folded text the byte scan is the label-wise replacement of the first run of the root's labels, which is the form the zone model uses |
| `NameText.LookupKeyIdentifies` | internal/dnsutil/dnsutil.go:37-45 | two names have the same lookup key exactly when their labels are equal up to letter case, so text keys and label keys identify the same owners |
| `NameText.FastPathIsFolding` | internal/dnsutil/dnsutil.go:37-65 | returning an already folded name as it is gives what folding it would |
| `NameText.IsAlreadyLookupKey` | internal/dnsutil/dnsutil.go:50-65 | the scan accepts exactly the names with a final dot and no upper-case letter or non-ASCII byte before it |
| `NameText.LowerCaseIdentifies` | internal/dnsutil/dnsutil.go:37-65 | lower-casing makes two texts equal exactly when they differ in the case of ASCII letters only |
| `Records.BackupSOAIsRewrite` | internal/alias/soa.go:12-28 | the synthesised backup SOA is the rewritten root SOA under the suffix rule |
| `Records.FilterBackupRRs` | internal/alias/classify.go:173-191 | splits a list, in order, into the records that may be emitted and the withheld ones |
| `Records.KeptMembers` | internal/alias/classify.go:127-191 | a record is kept exactly when it is in the list and its type is not an uncovered name-bearing one |
| `Records.RewriteTouchesNames` | internal/alias/rewrite.go:139-209 | the rewrite changes the names of the covered types one by one and nothing else: numbers, payloads and all other types stay |
| `Records.RewriteKeepsHeader` | internal/alias/rewrite.go:46-60 | a rewritten record keeps type and TTL; its owner's root suffix is replaced |
| `ZoneData.AddLookup` | internal/zone/zone.go:88-130 | AddRR appends to one RRset, drops duplicates, and changes no other RRset |
| `ZoneData.AddKeepsWellFormed` | internal/zone/zone.go:88-143 | adding keeps the index sound: no empty store or RRset, records filed under their owner and type, no duplicates, the SOA stored |
| `ZoneData.StoredUnlessSameData` | internal/zone/zone.go:88-143 | a record is dropped exactly when its RRset has the same data already, whatever the TTL |
| `ZoneData.LoadedSOA` | internal/zone/parser.go:32-124 | a loaded zone has an SOA exactly when its file has one inside the zone |
| `ZoneData.LoadedZoneOk` | internal/zone/parser.go:32-124 | a zone loaded from any record list is sound and holds only owners inside its origin |
| `ZoneData.BackupFilterKeeps` | internal/zone/classify.go:79-142 | stripping a backup zone keeps the index sound, keeps every TXT (16), MX (15) and SRV (33) RRset, and drops all else including the SOA |
| `ZoneData.WildcardOwnerIsNearest` | internal/zone/zone.go:164-228 | the wildcard found is exactly the one at the nearest proper ancestor, at or below the origin, with no strictly nearer ancestor or wildcard owner in between, and every such wildcard is found |
| `ZoneData.WildcardFoundForAllTypes` | internal/zone/zone.go:232-258 | the found flag does not depend on the type and is HasWildcard: a nearest wildcard exists |
| `ZoneData.WildcardRecords` | internal/zone/zone.go:164-249 | the records are the nearest wildcard's RRset of the type as stored, or none if it has no such type |
| `ZoneData.NoWildcardRecords` | internal/zone/zone.go:164-249 | without a nearest wildcard there are none and it is not found |
| `ZoneStore.QtypeStore.Inline` | internal/zone/zone.go:88-130 | a new owner starts inline, with its one type and record |
| `ZoneStore.QtypeStore.Insert` | internal/zone/zone.go:88-130 | appends to the type's RRset unless it is a duplicate; the store stays inline exactly while only its own type is inserted, and promoting it loses nothing |
| `ZoneStore.QtypeStore.DropDisallowed` | internal/zone/classify.go:122-130 | deletes every non-overridable type while iterating, and nothing else |
| `ZoneStore.Zone.AddRR` | internal/zone/zone.go:88-130 | updates the index in place to the value of Add, reports duplicates, and shares no store between owners |
| `ZoneStore.Zone.Lookup` | internal/zone/zone.go:269-281 | the stored RRset, whichever of the two store forms holds it |
| `ZoneStore.Zone.LookupWildcard` | internal/zone/zone.go:164-228 | the upward walk computes the nearest-ancestor rule |
| `ZoneStore.Zone.WildcardHit` | internal/zone/zone.go:232-249 | type 0 probes for existence; other types give the wildcard's RRset |
| `ZoneStore.Zone.HasWildcard` | internal/zone/zone.go:255-258 | the type-0 probe |
| `ZoneStore.Zone.FollowCNAME` | internal/zone/zone.go:297-340 | the chain loop emits what the recursive chain specification gives, within its depth budget |
| `ZoneStore.Zone.FollowHop` | internal/zone/zone.go:304-337 | one hop: exact type, exact CNAME, wildcard type, wildcard CNAME, wildcard records renamed to the target |
| `ZoneStore.Zone.CollapseCNAME` | internal/zone/collapse.go:61-110 | the collapse loop computes the consumed-chain specification |
| `ZoneStore.Zone.CollapseHop` | internal/zone/collapse.go:75-100 | one hop of the collapse, records not renamed |
| `ZoneStore.Zone.MinRRTTL` | internal/zone/collapse.go:113-118 | the running minimum TTL |
| `ZoneStore.Zone.Classify` | internal/zone/classify.go:58-66 | sets the role; a backup zone becomes its overrides, a root zone is unchanged |
| `ZoneStore.Zone.FilterBackupRecords` | internal/zone/classify.go:79-142 | in-place deletion while iterating leaves exactly the overridable types and no empty owner |
| `ZoneStore.ParseFile` | internal/zone/parser.go:32-124 | a new zone object holding the in-zone records the file gives under the origin, or the parse failure |
| `ChainAgreement.MinTTLIsMinimum` | internal/zone/collapse.go:113-118 | the fold is a lower bound of every TTL and is reached |
| `ChainAgreement.CollapseAgreesWithFollow` | internal/zone/collapse.go:49-110 | for singleton CNAME RRsets, loops included, the collapse outcome reads off the followed answer (records, tail target, dead end, minimum TTL) exactly unless eight CNAMEs were consumed and the last target resolves in the zone |
| `ChainAgreement.ShortChainsAgree` | internal/zone/zone.go:297-340 | in particular on every chain of fewer than eight CNAMEs |
| `ChainAgreement.EightCNAMEsDisagree` | internal/zone/collapse.go:49-110 | a zone of eight linked CNAMEs and an address on which the two do differ |
| `Answers.StoredAnswer` | internal/server/handler.go:474-489 | an RRset of the query name is the answer, as stored |
| `Answers.ApexSOAAnswer` | internal/server/handler.go:464-472 | the SOA query of the apex is answered with the zone's SOA |
| `Answers.EphemeralAnswer` | internal/server/handler.go:491-501 | TXT queries of a name without stored TXT are answered with its ephemeral values, one record each, in order; no other type sees them (EphemeralIsTXTOnly) |
| `Answers.WildcardAnswer` | internal/server/handler.go:515-537 | a name with neither the type nor a CNAME is answered by the nearest wildcard's RRset under its own name |
| `Answers.NegativeCarriesSOA` | internal/server/handler.go:802-847 | an empty answer carries the SOA with the smaller TTL, a positive one is no error and carries none |
| `Answers.AnswerThroughCNAME` | internal/zone/zone.go:297-340 | a redirected query is answered with the CNAME followed by exactly what its target is answered with, wildcards included, up to seven CNAMEs behind it; nothing follows a target outside the zone |
| `Answers.AtMostEightCNAMEs` | internal/zone/zone.go:297-340 | no answer starts with more than eight CNAMEs, and eight can occur |
| `Answers.CollapsedReplySumsUp` | internal/server/handler.go:548-589 | with collapsing on the reply sums up the answer given with it off: its last records under the query name, or one CNAME to where the chain leaves the zone, or the negative reply, at the smallest TTL of the chain |
| `Answers.OverrideAnswer` | internal/alias/override.go:72-92 | a backup's TXT, MX or SRV RRset is the answer, as the backup stores it |
| `Answers.BackupEphemeralAnswer` | internal/server/handler.go:599-750 | backup names without TXT are answered with their ephemeral values |
| `Answers.WithheldAnswer` | internal/alias/classify.go:127-191 | a withheld type of an existing name is answered with nothing and no error; so are withheld wildcard records (WithheldWildcardAnswer) |
| `Resolver.FinalizeBackupRRs` | internal/alias/override.go:338-350 | follow, withhold, rewrite record by record, as the stage specification |
| `Resolver.CollapseBackupResult` | internal/alias/override.go:301-327 | the three collapse outcomes turned into backup records or NODATA |
| `Materialise.CleanUnderSuffixRule` | internal/alias/rewrite.go:46-60 | a CNAME target is seamless exactly unless it lies in the backup zone and outside the root |
| `Materialise.WildcardMoves` | internal/zone/zone.go:164-258 | wildcard lookup commutes with renaming the whole zone |
| `Materialise.FollowCNAMEMoves` | internal/zone/zone.go:297-340 | following a chain in the renamed zone is renaming the followed chain |
| `Materialise.CollapseCNAMEMoves` | internal/zone/collapse.go:61-110 | collapsing a chain commutes with renaming, minimum TTL included |
| `Transparency.NoOverridesTransparent` | internal/server/handler.go:599-750 | without overrides the backup path equals the root path on the renamed zone: answer, rcode and authority |
| `Transparency.OverridesOverlay` | internal/alias/override.go:72-92 | overrides replace their own RRset and turn NXDOMAIN into NODATA at their own names, and do nothing else |
| `Transparency.AliasTransparency` | internal/server/handler.go:445-750 | the two together, for every root zone with clean CNAME targets, under either rewrite rule, every backup name, served type, collapse mode and ephemeral values |
| `Transparency.TransparentExactlyWhenClean` | internal/server/handler.go:445-750 | under the suffix rule the backup serves its renamed zone on every query, override, mode and ephemeral value if and only if every CNAME RRset of the root ends in a clean target |
| `Transparency.UncleanTargetShows` | internal/server/handler.go:548-589 | an unclean target at which no further chain starts is answered differently in collapse mode |
| `Handler.CappedSOA` | internal/server/handler.go:963-969 | section 3 of RFC 2308: the authority SOA's TTL is the smaller of its own and its minimum, nothing else changes |
| `Existence.RootNxdomainIsNonexistence` | internal/server/handler.go:802-847 | root path: NXDOMAIN exactly when the name neither owns records nor is covered by a wildcard, whatever the type |
| `Existence.BackupNxdomainIsNonexistence` | internal/server/handler.go:851-871 | backup path, overrides, withheld types and both collapse modes included: NXDOMAIN exactly when the name does not exist |
| `Existence.NxdomainIsTypeIndependent` | internal/server/handler.go:685-871 | section 2.1 of RFC 2308, backup path: one NXDOMAIN at a name rules out a positive answer of any type there |
| `Existence.RootNxdomainIsTypeIndependent` | internal/server/handler.go:474-593 | the same on the root path |
| `Existence.RootNamesAre` | internal/server/handler.go:802-871 | a root name exists when it owns records or a nearest wildcard covers it |
| `Existence.BackupNamesAre` | internal/server/handler.go:851-871 | a backup name exists when the backup owns it or its counterpart exists in the root |
| `Leak.PrefixedNameInRoot` | internal/alias/rewrite.go:46-60 | exactly when a name moved into the backup still lies in the root zone |
| `Leak.RewriteLeavesRoot` | internal/alias/rewrite.go:46-60 | with neither origin inside the other no rewritten name is in the root zone |
| `Leak.RewriteLeavesRootExactly` | internal/alias/rewrite.go:46-60 | and only then: some root name stays in the root zone whenever one origin lies inside the other |
| `Leak.NestedOriginsLeak` | internal/alias/rewrite.go:46-60 | a concrete leak when the root lies inside the backup |
| `Leak.BackupSOAClean` | internal/alias/soa.go:12-28 | the synthesised SOA names nothing in the root zone |
| `Leak.NoRootNameLeaks` | internal/alias/override.go:72-350 | every record of every backup reply is the backup's own or has a covered type, an owner outside the root and no RDATA name inside it; so has the authority SOA |
| `Leak.NoLeakExactlyWhenApart` | internal/alias/override.go:72-350 | under the suffix rule every reply over every root zone is free of leaks if and only if neither origin lies inside the other |
| `Sorting.SortSet` | internal/transfer/axfr.go:120-160 | lists every element of a set once, in order |
| `Sorting.TextLeqIsTotalPreorder` | internal/transfer/axfr.go:121-125 | byte order on strings is total and transitive |
| `Sorting.FirstDifferenceDecides` | internal/transfer/axfr.go:121-125 | the first differing byte decides, and a proper prefix comes first |
| `Transfer.EmitRRset` | internal/transfer/axfr.go:162-185 | one RRset of the stream is the exact-match answer for the renamed owner and type |
| `Transfer.SortZone` | internal/transfer/axfr.go:120-160 | owners and types in sorted order, each once |
| `Transfer.OrderIsStrict` | internal/transfer/axfr.go:120-160 | owners ascend in byte order and types by number, the root's owners and types and no others |
| `Transfer.BuildAliasRecords` | internal/transfer/axfr.go:119-189 | the stream body is the concatenation, in sorted owner and type order, of the exact-match answers, with the same overrides and withholding |
| `Transfer.HandleAliasAXFR` | internal/transfer/axfr.go:71-110 | refused over UDP, without a root zone or without its SOA; otherwise SOA, body, SOA |
| `Transfer.BodyHoldsNoSOA` | internal/transfer/axfr.go:119-189 | the SOA stands at the two ends of the stream and nowhere in between |
| `Transfer.TransferMatchesQueries` | internal/transfer/axfr.go:162-185 | each transferred RRset, a CNAME RRset under collapsing excepted, is the answer section of the backup's reply to that query |
| `Transfer.CollapsedCNAMEAgreesExactly` | internal/transfer/axfr.go:178-184 | the exception: under the suffix rule, with clean targets and no CNAME loop, a sole CNAME is answered as transferred exactly when its target lies outside the root zone |
| `Transfer.FirstHopDecides` | internal/transfer/axfr.go:178-184 | loops or not, and under either rewrite rule: a target outside the zone keeps the two equal, a target that is a dead end makes them differ |
| `Transfer.CollapsedCNAMECanDiffer` | internal/server/handler.go:678-682 | a dangling CNAME is transferred, and answered with nothing under collapsing |
| `Transfer.LoopingCNAMEAgrees` | internal/zone/collapse.go:61-110 | a CNAME that points at itself is answered as transferred, the budget running out at the same name, although its target lies inside |
| `Transfer.TransferredExactlyWhenRootOwns` | internal/transfer/axfr.go:146-176 | a name and type take part in the transfer exactly when the root owns the type at the rewritten name; its answer is then in the stream |
| `Transfer.OtherOverridesAreNotStreamed` | internal/transfer/axfr.go:146-176 | overrides at names and types the root does not own have no effect on the stream |
| `Transfer.NoRootNameTransferred` | internal/transfer/axfr.go:178-184 | every transferred record is an override or leaks nothing of the root zone |
| `Prune.GroupByRRset` | internal/prunebackup/prunebackup.go:87-98 | groups the file's records by owner and type, in file order, losing none |
| `Prune.PlanPair` | internal/prunebackup/prunebackup.go:54-146 | a record is planned for deletion exactly when its RRset does not stay: the SOA, the apex NS, and the MX, TXT and SRV RRsets that are not repeated in the root file stay |
| `Prune.DecidedByStays` | internal/prunebackup/diff.go:61-102 | the decision in terms of the files: an override is deleted when the root file has each of its data as often, in any order and with any TTL |
| `PruneMeaning.PruningPreservesMeaning` | internal/prunebackup/diff.go:77-102 | with a root file, a query's reply before and after pruning has the same rcode, authority and record set (TTL aside) exactly when the RRset asked for is no deleted override or its RDATA is a fixed point of the rewrite |
| `PruneMeaning.PrunedMailHostChanges` | internal/prunebackup/diff.go:93-102 | an MX pair on which pruning does change the reply: the mail host lies in the root zone |
| `PruneMeaning.NothingRedundantIsKept` | internal/prunebackup/diff.go:61-102 | what stays is whole RRsets and nothing the server ignores: overrides whose RDATA differs from the root's, an SOA, the apex NS |
| `PruneMeaning.PrunedExactly` | internal/prunebackup/diff.go:61-102 | the pruned file holds exactly the records that stay, each as often as before, with or without a root file |
| `PruneMeaning.PrunedRRset` | internal/prunebackup/diff.go:61-102 | RRset by RRset; the SOA records and the apex NS records stay whole |
| `PruneMeaning.PruningIsIdempotent` | internal/prunebackup/prunebackup.go:117-146 | pruning a pruned file deletes nothing more, with or without a root file |
| `PruneMeaning.OtherQueriesUnchanged` | internal/prunebackup/diff.go:77-88 | queries for anything but a deleted override get the identical reply, NXDOMAIN/NODATA included |
| `PruneMeaning.OutsideDataIsStable` | internal/prunebackup/diff.go:93-102 | under the suffix rule RDATA without names, or with none in the root zone, is a fixed point |
| `PruneMeaning.RootlessPruningIsInvisible` | internal/prunebackup/diff.go:61-72 | without a root file pruning changes no reply at all |
| `CreditAccount.BalanceStaysInRange` | internal/ratelimit/limiter.go:51-70 | the balance stays between minus and plus the ceiling for any clock |
| `CreditAccount.CreditConserved` | internal/ratelimit/limiter.go:51-70 | credit spent within the limit plus the balance never exceeds the ceiling plus what regenerated |
| `CreditAccount.AdmissionBound` | internal/ratelimit/limiter.go:51-70 | for any readings, backward steps included, an account admits at most its ceiling plus rate times (largest reading minus first) |
| `CreditAccount.ZeroCeilingNeverLimits` | internal/ratelimit/limiter.go:65-69 | a zero ceiling never limits, because the floor lifts the balance back |
| `CreditAccount.SpacedChargesAreWithin` | internal/ratelimit/limiter.go:51-70 | charges at least 1/rate apart are never over the limit |
| `CreditAccount.ChargeInNumbers` | internal/ratelimit/limiter.go:51-70 | one charge in numbers: regeneration, ceiling, debit, floor, verdict and clock |
| `CreditAccount.BurstAdmitsCeiling` | internal/ratelimit/limiter.go:51-70 | of a burst at one instant a new account admits exactly the whole credits of its ceiling |
| `Lru.OthersUntouched` | internal/ratelimit/table.go:86-99 | charging one key leaves every surviving account as it was |
| `Lru.LiveIsMostRecent` | internal/ratelimit/table.go:86-99 | the bounded list is always the most recent part of the unbounded one, at most cap long |
| `Lru.EvictedAfterCapOthers` | internal/ratelimit/table.go:86-144 | over every sequence of charges a touched key is live exactly while fewer than cap distinct other keys of its shard were touched since |
| `Lru.LiveUntilCapOthers` | internal/ratelimit/table.go:71-144 | so over every history of charges the shard holds an account exactly when its key was charged and fewer than cap distinct other keys since |
| `Lru.LedgerIsRun` | internal/ratelimit/table.go:71-81 | a live account is the run of its own charges since it was created |
| `Lru.OverIsOwnRun` | internal/ratelimit/table.go:71-81 | a charge is over exactly when it exhausts the run of its account's own charges since the account was created |
| `Lru.ShardAdmissionBound` | internal/ratelimit/table.go:71-81 | the admission bound for one account of a shared, evicting shard |
| `RateTable.TableShard.constructor` | internal/ratelimit/table.go:47-62 | an empty shard of the given capacity |
| `RateTable.TableShard.PushFront` | internal/ratelimit/table.go:102-112 | links an entry in at the head; every link mirrors its partner |
| `RateTable.TableShard.Unlink` | internal/ratelimit/table.go:124-136 | takes an entry out of any position, ends included, and keeps the links mirrored |
| `RateTable.TableShard.MoveToFront` | internal/ratelimit/table.go:115-121 | the same entries with one moved to the head |
| `RateTable.TableShard.EvictTail` | internal/ratelimit/table.go:139-144 | drops the last entry from list and map together |
| `RateTable.TableShard.Touch` | internal/ratelimit/table.go:86-99 | find or create, evicting at capacity, as the list value Touch |
| `RateTable.TableShard.Charge` | internal/ratelimit/table.go:71-81 | one in-place charge is one charge on the list value: same contents, verdict and slip count |
| `Limiter.LogOnlyKeepsTheLedger` | internal/ratelimit/limiter.go:181-186 | over every run log-only mode keeps the very ledger enforcing would, and delivers everything |
| `Limiter.ExemptTrafficIsInvisible` | internal/ratelimit/limiter.go:151-156 | dropping exempt responses from a run changes neither the ledger nor any other decision |
| `Limiter.LedgerIsItsTrace` | internal/ratelimit/limiter.go:161-179 | the ledger is what the run's charges leave shard by shard, and enforcing lets nothing through that was over on either account |
| `Limiter.EnforcedAdmissionBound` | internal/ratelimit/limiter.go:147-201 | over every run in enforcing mode the responses allowed on one account between evictions number at most rate*window plus rate times the span of its readings |
| `Limiter.EnforcedBoundAtItsRate` | internal/ratelimit/limiter.go:147-201 | that rate is the category's configured one, or the aggregate one |
| `Limiter.AllowedExactly` | internal/ratelimit/limiter.go:147-201 | a response is delivered exactly when its client is exempt, or in log-only mode, or when neither of its accounts is over |
| `Limiter.OverOnOwnRun` | internal/ratelimit/limiter.go:161-179 | an account is over exactly when the charge exhausts its own run since it was created |
| `Limiter.ChargedAccounts` | internal/ratelimit/limiter.go:158-176 | which accounts a response is charged to, and at which rates; a category without a rate and a missing aggregate rate charge nothing |
| `Limiter.FirstResponseAllowed` | internal/ratelimit/limiter.go:147-179 | the first response is delivered when the rates allow one per window |
| `Limiter.SlipCountsOvers` | internal/ratelimit/table.go:75-80 | the slip counter of an account is the number of its over-limit charges |
| `Limiter.CadencePacesTheAccount` | internal/ratelimit/slip.go:14-22 | responses over on their category account are truncated at positions 1, n+1, 2n+1, ... of it and dropped in between, whatever the aggregate account says |
| `Limiter.CadencePacesTheAggregate` | internal/ratelimit/limiter.go:188-201 | responses over on the aggregate account only are paced in the same way by that account |
| `LimiterTable.Table.constructor` | internal/ratelimit/table.go:47-62 | 32 separate empty shards of maxSize/32 accounts, at least one each |
| `LimiterTable.Table.Charge` | internal/ratelimit/table.go:71-81 | charging changes the list of the key's shard only |
| `LimiterTable.RateLimiter.Decide` | internal/ratelimit/limiter.go:147-201 | the in-place decision is the decision on the ledger value |
| `AclMatch.DepthIsInvisible` | internal/view/matcher.go:69-108 | within 64 levels the depth limit does not change the outcome |
| `AclMatch.NoGeoLeafNeedsNoDatabase` | internal/config/match.go:108-129 | a list in which the geo scan finds nothing gives the same outcome whatever the databases say |
| `AclMatch.GeoLeafIsFound` | internal/config/match.go:108-129 | within the depth limit the geo scan is positive exactly when some test of the list is geographic |
| `AclMatch.FirstMatchDecides` | internal/view/matcher.go:69-80 | a list accepts exactly when some plain element fires and none before it does, at depth 64 at most |
| `AclMatch.SingleElementsAccept` | internal/view/matcher.go:82-108 | whom each kind of element accepts |
| `AclMatch.DepthLimit` | internal/view/matcher.go:69-80 | exactly 64 levels of groups are looked into |
| `AclResolve.Resolver.ResolveACL` | internal/config/zones.go:880-887 | terminates on every registry, cyclic ones included, and leaves finished acls alone |
| `AclResolve.Resolver.ResolveList` | internal/config/zones.go:905-952 | the list becomes its image: references followed, dropped or turned into reject-all, groups rewritten |
| `AclResolve.Resolver.ResolveElement` | internal/config/zones.go:912-950 | the same for one element, undefined and cyclic references and empty negated bodies included |
| `AclResolve.Resolver.ResolveReferences` | internal/config/zones.go:853-869 | every acl ends as the image of its written list, cut exactly at acls that lead back to it, the rest well-founded; every view list is an image too |
| `AclResolve.PlainListIsItsImage` | internal/config/zones.go:957-964 | the fast path that returns a list without references untouched is right |
| `AclMeaning.ResolutionOnlyNarrows` | internal/config/zones.go:889-980 | whatever client sets the undefined and cycle-cut references stand for, a resolved view list accepts only clients the written one accepts, given that negated bodies lost nothing or everything |
| `AclMeaning.OneConsistentReading` | internal/config/zones.go:853-980 | for every choice of what the lost references stand for there is such a reading of the written acls, and only one |
| `AclMeaning.ResolutionIsExact` | internal/config/zones.go:853-951 | with references defined and acyclic, no empty negated body and depth at most 64, matching the resolved list is evaluating the written one through the registry |
| `AclMeaning.WellWrittenHasOneModel` | internal/config/zones.go:853-951 | such a registry has exactly one consistent reading, the resolved lists |
| `AclMeaning.AcyclicCutsNothing` | internal/config/zones.go:919-922 | nothing is cut in an acyclic registry |
| `AclMeaning.PartialLossWidens` | internal/config/zones.go:938-946 | a negated group that loses part of its body lets clients in that the written list rejects |
| `AclMeaning.NegatedBodyWidensExactly` | internal/config/zones.go:925-946 | for `!{ body }; any;` with positive tests and lost references in the body, resolution never widens if and only if it takes nothing or everything out of the body |
| `AclMeaning.EmptyNegationRejectsAll` | internal/config/zones.go:925-946 | a negated empty group accepts everyone as written and no one once resolved |
| `AclMeaning.LostNegationRejectsAll` | internal/config/zones.go:912-930 | nobody gets past a negated reference that is lost or empty; a plain lost one vanishes |
| `AclLexer.Lexer.GetToken` | internal/config/options.go:271-314 | next: the token and the remaining text of the lexical specification |
| `AclLexer.Lexer.Peek` | internal/config/options.go:261-268 | the same token without moving |
| `AclLexer.Lexer.SkipBlockComment` | internal/config/options.go:337-351 | stops after the first closing mark, or at the end of the text |
| `AclLexer.Lexer.ReadQuotedString` | internal/config/options.go:353-377 | the unescaped value, an unterminated string included |
| `AclLexer.Lexer.ReadWordToken` | internal/config/options.go:379-399 | the longest run up to a separator, quote, brace or comment start |
| `AclLexer.Lexer.ReadBracedBodyRaw` | internal/config/zones.go:989-1016 | returns the text up to the matching brace, and fails exactly when there is none |
| `AclLexer.CutBodyLexesTheSame` | internal/config/zones.go:996-1015 | the body cut out by brace depth lexes on its own to the tokens met in place; braces in comments and strings do not count |
| `Layout.PieceIgnored` | internal/config/options.go:271-351 | a blank, a # or // comment with its newline, and a block comment do not change the tokens of the text behind them |
| `Layout.GapIgnored` | internal/config/options.go:271-351 | nor does any mix of them |
| `Layout.GapBehindToken` | internal/config/options.go:271-351 | nor between a printed token and what follows |
| `Layout.PieceBehindWord` | internal/config/options.go:379-399 | nor right behind a word, which it ends |
| `Layout.OpenComment` | internal/config/options.go:331-351 | a comment that is not closed hides the rest of the text |
| `Layout.WordToken` | internal/config/options.go:379-399 | a word ends exactly at the first blank, brace, semicolon, quote, hash or comment |
| `Layout.StringTokens` | internal/config/options.go:353-377 | quoted strings, escapes and unterminated strings |
| `Layout.MarkTokens` | internal/config/options.go:297-308 | braces and semicolons are tokens of their own |
| `AclParse.GluedNegation` | internal/config/match.go:182-196 | a negation glued to a word reads like a separate one |
| `AclParse.AsnReadsBack` | internal/config/match.go:337-354 | AS numbers of 32 bits read back from their decimal text |
| `AclParse.PrintReadsBack` | internal/config/match.go:154-282 | every written list, nested and negated at will, is read back from its printed text |
| `AclParse.ParsePrintParse` | internal/config/match.go:154-282 | whatever the parser produces is such a list: for every accepted text, printing the result and parsing it again gives the same list |
| `AclForms.BuiltinWords` | internal/config/match.go:246-262 | the four built-in words in any letter case, bare or quoted, plain or negated |
| `AclForms.OtherWords` | internal/config/match.go:262-282 | other words: quoted ones are references, bare ones prefixes, else addresses, else references |
| `AclForms.QuotedReference` | internal/config/match.go:262-282 | a quoted word that is no built-in is a reference, negated or not |
| `AclForms.CountryForm` | internal/config/match.go:316-336 | country codes in either letter case |
| `AclForms.AsnForm` | internal/config/match.go:337-359 | AS numbers are accepted up to 4294967295 and refused above |
| `AclForms.DecimalDigits` | internal/config/match.go:337-359 | a digit behind a number multiplies it by ten and adds its value |
| `AclForms.AsnEnds` | internal/config/match.go:131-137 | only white space may follow the number |
| `AclForms.Trimmed` | internal/config/match.go:316-359 | white space around a value does not count |
| `AclForms.ItemThenRest` | internal/config/match.go:171-219 | an item, plain or negated, is followed by the rest of the list, semicolon or not |
| `AclForms.GroupThenRest` | internal/config/match.go:171-219 | a group is the list up to its closing brace (GroupEnds), followed by the rest; its errors are the list's |
| `AclForms.DanglingNegation` | internal/config/match.go:182-196 | a negation in front of a semicolon, a closing brace or the end is dropped |
| `AclForms.Refused` | internal/config/match.go:168-221 | stray and missing braces and double negations are errors |
| `AclForms.ErrorsSpread` | internal/config/match.go:213-216 | an item's error fails the whole list |
| `AclForms.GeoRefused` | internal/config/match.go:316-359 | the errors of a geographic element |
| `AclForms.BuiltinListsAccept` | internal/view/matcher.go:82-108 | whom the texts any, none, localhost and localnets accept |
| `AclReader.ParseElementList` | internal/config/match.go:168-221 | the recursive loop over the shared lexer computes the parse of the remaining tokens, errors included |
| `AclReader.ParseStep` | internal/config/match.go:171-219 | one turn of it: terminators, separators, both forms of negation, double negation |
| `AclReader.ParseItems` | internal/config/match.go:246-282 | built-ins first, then quoted references, geo, prefix, address, bare reference |
| `AclReader.ParseGeoIPElement` | internal/config/match.go:316-359 | country codes and AS numbers with their errors |
| `AclReader.BracedListReadsBack` | internal/config/zones.go:989-1016 | a printed list between braces is cut out at its own brace, reads back as the list, and leaves what follows |
| `AclReader.ReadBracedList` | internal/config/zones.go:816-838 | the cut and the parse of the cut together |
| `Build.UnchangedIsSameIdentity` | internal/server/fingerprint.go:116-128 | a file is unchanged exactly when the fields its mode compares are equal; never in mode none |
| `Build.ChangedMeans` | internal/server/fingerprint.go:116-128 | size and hash, or size and time, or always changed |
| `Build.LoadZone` | internal/server/build.go:165-215 | reuses the previous object only when it is what the file now parses to in the role it now has; otherwise a new object |
| `Build.BuildZone` | internal/server/build.go:67-97 | a reused or freshly classified zone, or the failure of a root zone without SOA |
| `Build.BuildView` | internal/server/build.go:61-97 | a view's zones, later entries replacing earlier ones of the same origin, equal a full load |
| `Build.SeenOrigins` | internal/server/build.go:64-116 | the served origins, as ServesOrigins spells them out in FullBuildExactly |
| `Build.FullViewExactly` | internal/server/build.go:61-97 | a view loads exactly when each entry does: file present, parsed, and an SOA unless it is a backup; it then holds the zone of the last entry for each listed origin, in its role |
| `Build.FullBuildExactly` | internal/server/build.go:36-154 | a build succeeds exactly when each view loads; a view is matched by the origins it lists and the aliases of the roots it has, and by no others |
| `Build.BuildState` | internal/server/build.go:36-154 | given that equal fingerprints mean equal content, an incremental build gives exactly what a full rebuild of the same inputs gives, failures included, changes no object that existed before, and serves the origins listed and the aliases of its roots |
| `Build.Replay` | internal/server/build.go:36-154 | over every history of reloads each state ever built still shows, at the end, the full rebuild of its own inputs; failed builds leave the last good one |
| `Truncate.TruncateForUDP` | internal/server/handler.go:1081-1122 | when a packing it asks for fails the message is restored; otherwise the answer is what dropping one record at a time keeps, and TC is set exactly on overflow; it packs prefixes of the answer only, logarithmically many |
| `Truncate.DropKeepsLongest` | internal/server/handler.go:1063-1080 | dropping one at a time keeps the longest prefix that fits, or nothing |
| `Truncate.KeptIsWithinBudget` | internal/server/handler.go:1063-1080 | in sizes: what is kept is within the budget unless it is nothing, every longer prefix is over it |
| `Truncate.HalvingsIsLog` | internal/server/handler.go:1067-1073 | the packing bound is the base-2 logarithm, rounded up |
| `Truncate.UdpMaxSize` | internal/server/handler.go:1127-1132 | the advertised size from 512 bytes on, and 512 below that or without one |
| `Ephemeral.EphemeralStore.Put` | internal/ephemeral/store.go:66-87 | adds or refreshes one value and returns the name's count |
| `Ephemeral.EphemeralStore.Lookup` | internal/ephemeral/store.go:92-113 | the unexpired values in order |
| `Ephemeral.EphemeralStore.Delete` | internal/ephemeral/store.go:118-126 | forgets the name |
| `Ephemeral.EphemeralStore.DeleteValue` | internal/ephemeral/store.go:132-154 | removes the one entry with the value, and the name with its last entry |
| `Ephemeral.EmptyNameIsIgnored` | internal/ephemeral/store.go:66-154 | nothing is kept or found under the empty name |
| `Ephemeral.EphemeralStore.Clear` | internal/ephemeral/store.go:158-162 | forgets everything |
| `Ephemeral.EphemeralStore.GcSweep` | internal/ephemeral/store.go:186-212 | keeps exactly the unexpired entries and no empty bucket |
| `Ephemeral.PutIsSeen` | internal/ephemeral/store.go:66-113 | a lookup sees a value put until its time is up, and everything else as before |
| `Ephemeral.PutKeepsOrder` | internal/ephemeral/store.go:66-87 | new values come last, a refreshed one keeps its place |
| `Ephemeral.DeletesAreSeen` | internal/ephemeral/store.go:118-154 | a deleted name shows nothing, a deleted value no longer shows, the rest is as before |
| `Ephemeral.SweepTakesExpired` | internal/ephemeral/store.go:186-212 | a sweep takes out exactly what has expired, and emptied names |
| `Ephemeral.RunsStayTidy` | internal/ephemeral/store.go:66-212 | values stay unique under a name and no empty bucket is kept, over every run and any clock |
| `Ephemeral.SweepsAreInvisible` | internal/ephemeral/store.go:66-212 | sweeps inserted anywhere leave a lookup with the same set of values, as long as no sweep read the clock later than the lookup; the other readings may come in any order |
| `Ephemeral.SweepCanReorder` | internal/ephemeral/store.go:74-86 | only the set is kept: a sweep can change the order after a refresh |
| `Detect.Detect` | internal/alias/detect.go:21-72 | the longest loaded zone that holds the name, and its role: a backup when it is an alias, then answered from the alias's root |
| `Detect.LongestIsUnique` | internal/alias/detect.go:37-52 | that zone is unique, so the order of the loaded zones does not matter |
| `Detect.LongestIsDeepest` | internal/alias/detect.go:35-52 | in labels: it lies inside every other loaded zone that holds the name |
| `ReopenSink.OpenReopenSink` | internal/logging/reopen.go:32-41 | a sink with its file open, or an error for an empty path or a path that does not open |
| `ReopenSink.Sink.Write` | internal/logging/reopen.go:46-53 | what the file takes lands in the current file, a short write being an error; a closed sink refuses |
| `ReopenSink.Sink.Close` | internal/logging/reopen.go:68-77 | closes the file once, for good, reporting an error of that close |
| `ReopenSink.Sink.Reopen` | internal/logging/reopen.go:88-110 | the new file is in place and the old one closed, an error of that close reported, or nothing changes; a closed sink opens nothing |
| `Reload.StepKeeps` | cmd/shadowdns/main.go:195-317 | every step of queries, reload and reopening keeps the invariant on descriptors, handles and the live state |
| `Reload.InstalledGeoIPNeverCloses` | cmd/shadowdns/main.go:166-182 | over every interleaving no GeoIP generation is closed once installed, nor one a query still reads |
| `Reload.QueryKeepsGeneration` | cmd/shadowdns/main.go:166-182 | a query reads the handles that were live at its start until it ends |
| `Reload.ClosedSinkNeverReopens` | cmd/shadowdns/main.go:1080-1104 | a closed log sink never gets a descriptor again, however late a reopen comes |
| `Reload.DescriptorsAreAccountedFor` | cmd/shadowdns/main.go:274-307 | every log descriptor ever opened is closed, or belongs to the main log, the current query log or a reload in progress; the query logger is open at the moment a query loads it |
| `Reload.LineLostExactlyWhenRetired` | cmd/shadowdns/main.go:292-307 | a query that loads the logger and writes later loses its line exactly when a reload retires that sink in between |
| `Reload.FailedReloadChangesNothing` | cmd/shadowdns/main.go:217-292 | a reload that ends before the swap leaves the live state it found and no GeoIP handle open |
| `Reload.SuccessfulReloadInstallsEverything` | cmd/shadowdns/main.go:292-321 | a reload that reached the swap ends with its own state, limiter, query log and GeoIP handles, all of one configuration |
| `Reload.ReloadBringsNewParts` | cmd/shadowdns/main.go:217-321 | what it installs was made since it started: state, limiter, two GeoIP handles or none, a new query log or none if that changed |
| `Reload.FailingStepAborts` | cmd/shadowdns/main.go:217-292 | a fallible step that fails ends the reload with nothing live changed |
| `Reload.FailingOpenAborts` | cmd/shadowdns/main.go:228-290 | so do GeoIP rules without a directory, a directory or query log that does not open |
| `Reload.ReopenBringsNewDescriptor` | internal/logging/reopen.go:88-110 | a reopened log gets a descriptor never used before and gives up its old one |
| `Reload.ReopenRound` | cmd/shadowdns/main.go:1080-1104 | one round reopens the main log, then the query log that is current when looked up |

## Left out

- Transparency.AliasTransparency: letter case and RFC 1035 escapes are not modelled, names being folded label sequences; root zones with origin "." are not covered either.
- Transparency.TransparentExactlyWhenClean: for the suffix rule and roots with fewer than eight records in each CNAME RRset; its necessity uses a query type that the root does not hold, record types being unbounded numbers.
- Answers.AnswerThroughCNAME and Answers.CollapsedReplySumsUp: for owners with one CNAME each, and chains within the budget; what happens at the budget is ChainAgreement's subject.
- Transfer.CollapsedCNAMEAgreesExactly: for an owner with a single CNAME record, under the suffix rule.
- NameText: characters stand for bytes, letter case is ASCII, and names holding a backslash are excluded.
- Records: the class of each record type (covered, without names, uncovered) is a given table; reflection over the record structs is not modelled, and the class is always IN.
- Resolver and Handler: the stage functions and reply choices are values; private record copies, OPT handling, TTL constants of ephemeral answers and metrics are not modelled.
- ZoneStore.Zone.FollowHop and ZoneStore.Zone.CollapseHop: the body of the two chain loops as a method of its own.
- ZoneStore.Zone.FilterOwner: the body of the deletion loop as a method of its own; the drop histogram is not modelled.
- ZoneStore.ParseFile: what the file yields under each origin, records or a parse failure, is given; include and generate directives are not modelled.
- Transfer.BuildAliasRecords: the override index is a direct lookup in the backup zone; chunking into messages and the plain root AXFR are not modelled.
- Prune.PlanPair: which records go, not the rewriting of the file text, the root file's include tree or the order of the plan.
- CreditAccount: credit and time are reals, so floating-point rounding is not modelled.
- Limiter.CadencePacesTheAccount: the slip counter is unbounded, so its wrap at 32 bits is not modelled.
- RateTable and LimiterTable: one goroutine at a time, as the shard lock ensures; the shard hash, client masking and exempt list are given functions.
- AclResolve.Resolver.ResolveReferences: warnings are not modelled; views are resolved in a second pass over the finished acls, as in the code.
- AclMeaning.ResolutionOnlyNarrows: for bodies that are guarded; outside them widening is decided exactly for a negated group of tests and lost references only, not for nested negation. That the written list may accept clients the resolved one does not is the point of failing closed.
- AclMeaning.NegatedBodyWidensExactly: a client answers each test freely, so that two tests may together cover every real client is not modelled.
- AclLexer: line numbers and error positions are not modelled; the text is a sequence of characters standing for bytes.
- AclParse.PrintReadsBack: address texts are canonical for the given parsing functions, and trimming knows ASCII white space only.
- Views: the loop that picks the first view whose list accepts the client.
- Named.conf statements other than acl bodies and match-clients, environment expansion and the YAML configuration.
- Build.BuildState: served origins are a set, since the code appends aliases in map order; interface enumeration, the transfer ACL and summary counters are not modelled, nor is a file that can be stat-ed but not read.
- Reload: shutdown, NOTIFY dispatch, metrics and listener drift; a second SIGHUP during a reload waits, as the single goroutine makes it.
- ReopenSink.Sink.Write: one atomic step, as its lock makes it; Sync and the file mode are not modelled.
- Truncate.Search and AclLexer.Lexer.ReadTokenHere: the search loop, and the last cases of the lexer, as methods of their own.
- Truncate.TruncateForUDP: the wire format itself; the OPT record is part of what packing measures.
- Ephemeral: names are already folded, and locks are one call at a time.
- Sockets, HTTP and TLS listeners, Prometheus metrics, logging formats, the command line, and the DNS library's packing and parsing.
