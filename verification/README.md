# Runic: a verified model

Runic turns a table of firewall policies into one `iptables-restore` bundle per host, tracks which
hosts a change touches, keeps pending changes undoable, and imports existing rule sets. This project
models those parts in Dafny and proves what they promise. `dafny verify dfyconfig.toml` checks it all.

| file | what it models |
|---|---|
| `Wrappers`, `PortText`, `Netfilter`, `Catalog` | results and options; port text and its inversion; packets, rules and first-match evaluation; the tables and the resolvers |
| `RuleBuilder`, `Bundle` | the rule builders with their loops, sections, policies, the whole bundle |
| `PolicyMeaning`, `PortMeaning` | what a policy means, read off the columns of the tables without resolvers, queries or rules; which ports a list covers |
| `PolicyView` | the same meaning with resolved addresses taken as given, a step of the proof |
| `CompilerProofs`, `MeaningProofs`, `CompileSucceeds` | the compiler against the meaning, and when it fails |
| `Backends`, `Preview`, `PreviewCases` | its back ends against each other, its preview against it |
| `FanOut`, `FanOutMeaning`, `GroupWalk` | which peers a change touches, also on the columns; the transitive group walk and the peers it recompiles |
| `ChangeWorker` | the queue worker as interleaved steps of queuers, goroutine, Start, Stop and cancellation |
| `Snapshots`, `RollbackProofs`, `RollbackMeaning` | pending changes and their rollback; what each edit does to which columns; `Snapshots` models the stored columns of the tables whose compiled view `Catalog` reads |
| `Importer`, `ImportMeaning` | importing as a sequence of creations, and what it leaves in which columns |
| `PeerDeletion` | deleting a peer while changes are pending |
| `Revocation`, `RevocationFlights` | the token-revocation cache as an object, and concurrent checks that share lookups as steps |
| `Broadcast` | broadcast arithmetic on the bytes of an address |
| `IptParse`, `IptText`, `IptRoundTrip`, `IptMeaning`, `IptRegular` | the iptables-save parser, its options and classes by their text, the compiler's own lines read back by it, and what a record says about an arbitrary line |

## How to read the results

- **Compiler.** `MeaningProofs.CompileMeansPolicies` covers every chain, scope, packet, service and list of
  policies: the standard rules decide first, then the policy with the least index among those that are
  enabled, not deleted, name the host at an end and say something about the packet, then the default. What
  a policy says is `PolicyMeaning.PolicyVerdict`, a function of the columns. DROP and LOG_DROP test
  destination ports and no connection state, as the code does. `CompileSucceeds.CompileSucceedsIff` says
  when there is a bundle at all. `CompilerProofs.CompileCorrect` is a step towards it, for policies whose
  service is not Multicast, Broadcast, IGMP or VRRP and whose source is not a multicast or broadcast special.
- **Undo.** `RollbackProofs.RollbackExact` gives the exact condition for a rollback to succeed and what
  it does either way; `RollbackRestoresBaseline` lifts it to every run of edits, and
  `RollbackMeaning.RollbackOnColumns` states the condition on the columns.
- **Worker.** `ChangeWorker.Inv` is kept by every step; the theorems after it speak of every reachable
  state.

The compiler theorem asks for distinct sanitised group names, a sufficient condition: `sanitizeForIpset`
maps different names to one (`Bundle.SanitizerCollides`), and what a second `create` of a set does is up
to ipset.

Where the obvious statement is false of the code in the places below, an input that shows it and the
exact condition are proved:

- Egress to prefixes writes its INPUT reply rules even when the scope is Docker only
  (`Backends.DockerScopeOpensInput`); `Backends.ReplyClosure` states when the reply is open and when
  the primary is.
- A broadcast source accepts whatever the policy's action (`Backends.DropPolicyAccepts`);
  `Backends.BroadcastSourceAlwaysAccepts` gives the exact verdict.
- Taking the fan-out only after an edit can miss a removed member (`FanOut.RemovedMemberIsMissed`);
  `FanOut.FanOutAfterEdit` says exactly when.
- An item accepted between the drain and the close of `done` is never processed
  (`ChangeWorker.LateItemExists`); these are the only ones (`ChangeWorker.LostItemsAreTheLateOnes`).
- The preview of a policy leaves compiled rules out when packets are taken in as multicast, unless service,
  source and action are Multicast, a multicast special and ACCEPT (`PreviewCases.PreviewOmitsNothingIff`);
  it shows IGMP and VRRP rules that a Docker-only scope does not compile (`PreviewCases.FixedServicesShown`).
- Rollback can be blocked by ordinary edits: a policy snapshotted before a group was created, then
  pointed at that group (`RollbackProofs.RollbackCanBeBlocked`); `RollbackProofs.RollbackExact` is the
  condition.
- Deleting a peer whose group was edited before makes every later rollback fail
  (`PeerDeletion.DeletionCanJam`); `PeerDeletion.RollbackOverDeletions` is the condition over every run.
- The importer stages sessions it can never apply: two prefixes of one network address get one hostname
  (`Importer.TwoPrefixesBlock`); `ImportMeaning.ImportableOnColumns` is the condition.
- An import can report an error although everything was committed
  (`Importer.AppliedThoughReportedFailed`); `Importer.ApplySession` says when each outcome occurs.
- A revocation check can answer "not revoked" although the row is there for all of its run, by joining a
  lookup that read earlier (`RevocationFlights.StaleNegativeExists`);
  `RevocationFlights.StaleExactlyWhenJoinedTooLate` is the condition.
- A single destination port printed behind a list of source ports is swallowed by the parser
  (`IptRoundTrip.SwallowedPort`, `IptRoundTrip.FaithfulIff`).
- A negated match is read as plain and still classified as clean (`IptRegular.NegationIsClean`), and of
  two set matches only the second survives, without a warning (`IptRegular.DoubleSetIsMisread`);
  `IptRegular.RecordMeansLineIff` says for which lines the record is right.

## Model

| member | source | states |
|---|---|---|
| `PortText.ValidatePorts` | internal/engine/resolver.go:246-297 | accepts exactly the well-shaped lists whose every segment is a port or an ascending range within 1 to 65535 |
| `PortText.InversionExchangesSides` | internal/engine/compiler.go:2682-2701 | the textual inversion of a clause's fragments is the fragments of the exchanged port lists, for every valid pair of lists |
| `PortText.InversionIsInvolutive` | internal/engine/compiler.go:2682-2701 | inverting the reply's fragments gives the primary tests back |
| `PortMeaning.CoversNumber` | internal/engine/resolver.go:300-352 | a decimal number in a port list covers that port and no other |
| `PortMeaning.CoversRange` | internal/engine/resolver.go:300-352 | a range in decimal covers exactly the ports between its ends |
| `PortMeaning.CoversList` | internal/engine/resolver.go:300-352 | a comma list covers what its segments cover, so with the two above every list of numbers and ranges is read off |
| `Catalog.ResolveGroup` | internal/engine/resolver.go:193-236 | the resolver loop returns the normalised member addresses in order, or the error of the first invalid one |
| `Catalog.ResolveGroupForIpset` | internal/engine/resolver.go:407-463 | the ipset resolver returns the same address list as the plain one on every table |
| `Catalog.NormalisedContents` | internal/engine/resolver.go:57-89 | a resolved group holds exactly the normalised addresses of its members |
| `Bundle.SetNameFits` | internal/engine/resolver.go:356-396 | every set name built from a group name has the prefix and fits the kernel's limit |
| `Bundle.SanitizerCollides` | internal/engine/resolver.go:368-396 | two different group names share a set name |
| `Bundle.SanitizedIsSafe` | internal/engine/resolver.go:368-396 | a sanitised name has lower-case letters, digits and inner underscores only, at most 20 of them; a short name of letters and digits stays as it is |
| `Bundle.CollapseIsSafe` | internal/engine/resolver.go:368-396 | a run of other characters becomes a single underscore |
| `Bundle.CaseIsIgnored` | internal/engine/resolver.go:368-396 | names that differ in the case of letters get one set name |
| `Bundle.GroupSetIsNotPrivateSet` | internal/engine/resolver.go:368-396 | no group's set name is that of the private ranges |
| `RuleBuilder.FilterSelfReferencing` | internal/engine/compiler.go:1735-1750 | keeps exactly the prefixes other than the host's own, in order, and refuses an invalid host address |
| `RuleBuilder.BuildAcceptRules` | internal/engine/compiler.go:1347-1498 | the ACCEPT builder's loops append the rules of the block specification whose meaning `SectionDecides` gives, for all four far-end forms |
| `RuleBuilder.BuildLogDropRules` | internal/engine/compiler.go:1508-1595 | the same for DROP and LOG_DROP |
| `CompilerProofs.ExpansionKeepsMeaning` | internal/engine/resolver.go:300-352 | the expanded clauses serve and refuse exactly the packets the service names, for one protocol, both, or none |
| `CompilerProofs.SectionDecides` | internal/engine/compiler.go:1307-1336 | a block decides a packet with its action exactly when far address, ports, state, chain and scope fit |
| `CompilerProofs.FarEndMeansEnd` | internal/engine/compiler.go:955-975 | the far-end tests of every form hold of exactly the addresses that belong to the policy's end |
| `CompilerProofs.TargetSectionCorrect` | internal/engine/compiler.go:978-1059 | the ingress section gives the policy's verdict on exactly the packets its ingress meaning covers |
| `CompilerProofs.SourceSectionCorrect` | internal/engine/compiler.go:1062-1187 | the same for egress, including reply rules and multicast targets |
| `CompilerProofs.PolicyCorrect` | internal/engine/compiler.go:871-945 | one policy's rules give its action on exactly the packets it covers |
| `CompilerProofs.PoliciesCorrect` | internal/engine/compiler.go:850-868 | a policy list decides by its first covering policy |
| `CompilerProofs.GroupOrderCovers` | internal/engine/compiler.go:504-583 | the set order lists every active group a policy mentions, once |
| `CompilerProofs.DefinitionsAreFaithful` | internal/engine/compiler.go:647-680 | with distinct set names, each defined set means its group and the private set means the private ranges |
| `CompilerProofs.StandardRulesDecide` | internal/engine/compiler.go:384-421 | the standard rules decide loopback, related ICMP, invalid and control-plane packets and nothing else |
| `CompilerProofs.DefaultRulesDecide` | internal/engine/compiler.go:1190-1202 | the tail drops what is left, and returns it in the Docker chain |
| `CompilerProofs.CompileCorrect` | internal/engine/compiler.go:716-745 | first-match evaluation of the bundle is the standard verdict, else the first covering policy's action, else the default, for every chain, scope and packet |
| `CompilerProofs.StandardPrefixWins` | internal/engine/compiler.go:384-421 | under every policy list, ordinary or not, loopback and control-plane traffic is accepted and other invalid packets dropped |
| `MeaningProofs.ApplicabilityOnColumns` | internal/engine/compiler.go:504-583 | the query selects a policy for a host, and its ingress and egress sections run, exactly under conditions on enabled, deleted, direction, the kinds of the ends and the member rows |
| `MeaningProofs.ScopeOnColumns` | internal/engine/compiler.go:1265-1269 | host chains are written iff the scope is host or both, the Docker chain iff it is docker or both and the host has Docker |
| `MeaningProofs.EndResolvesTo` | internal/engine/resolver.go:92-190 | the resolver's list is exactly the normalised texts that stand for the end: the peer's row or its pin, the rows of a live group's members, every peer's row for all-peers, and the fixed addresses of the other specials |
| `MeaningProofs.BelongsIsEndHolds` | internal/engine/compiler.go:955-975 | the addresses compiled for an end are those of the texts that stand for it, for the internet those outside the private ranges, the viewer's own network left out where prefixes are written |
| `MeaningProofs.IngressMeans` | internal/engine/compiler.go:978-1059 | the ingress rules give the verdict that the columns mean for arriving traffic, for every service but IGMP and VRRP and every source |
| `MeaningProofs.EgressMeans` | internal/engine/compiler.go:1062-1187 | the same for leaving traffic and every target |
| `MeaningProofs.IgmpDecides` | internal/engine/compiler.go:1205-1218 | the IGMP rules accept queries to 224.0.0.1 in and reports to 224.0.0.22 out, both in the Docker chain, and nothing else |
| `MeaningProofs.VrrpDecides` | internal/engine/compiler.go:1222-1232 | the VRRP rules accept advertisements to 224.0.0.18 going out or through Docker, and nothing else |
| `MeaningProofs.PolicyMeans` | internal/engine/compiler.go:871-945 | the rules of any policy give exactly the verdict that its columns mean, for every packet and chain |
| `MeaningProofs.PoliciesMean` | internal/engine/compiler.go:850-868 | from any index on, the policies say what the first of them that decides says, and nothing if none does |
| `MeaningProofs.CompileMeansPolicies` | internal/engine/compiler.go:682-745 | on every packet and chain the bundle gives the fixed verdict, else that of the policy with the least index among those that are enabled, not deleted, name the host and decide the packet, else the default, all on the columns and for every service |
| `CompileSucceeds.EndOkIff` | internal/engine/compiler.go:955-975 | an end resolves iff its texts are valid, its id known and a pin is on a peer |
| `CompileSucceeds.PolicyOkIff` | internal/engine/compiler.go:871-945 | a policy compiles iff its action, service and ports are valid and the ends its sections need can be written |
| `CompileSucceeds.SetOkIff` | internal/engine/compiler.go:769-800 | a group's set can be written iff its members' addresses are valid IPv4 ones |
| `CompileSucceeds.CompileSucceedsIff` | internal/engine/compiler.go:682-745 | a bundle is produced iff the host has a row and every policy that concerns it and every set it mentions can be written, as conditions on the columns |
| `Backends.PrivateRangesAreRfc1918` | internal/engine/compiler.go:90-96 | the private ranges are those of section 3 of RFC 1918 and 127.0.0.0/8, as address intervals |
| `Backends.InternetBackendsAgree` | internal/engine/compiler.go:1600-1714 | set negation and the four explicit negations decide every packet alike, namely the public far addresses with the block's ports |
| `Backends.GroupBackendsAgree` | internal/engine/compiler.go:1410-1495 | for host scope, the set form and the prefix form of a group decide alike on far addresses outside the host's own prefix |
| `Backends.ReplyClosure` | internal/engine/compiler.go:1347-1498 | a packet matches a primary rule iff its reversal matches a reply rule when the scope names the host; the exact exception otherwise |
| `Backends.DockerScopeOpensInput` | internal/engine/compiler.go:1486-1494 | a Docker-only policy whose OUTPUT packet is undecided and whose reply is accepted on INPUT |
| `Backends.MemberBelongs` | internal/engine/compiler.go:955-975 | a host that is an end of a policy, or a member of that end, is among the addresses another host compiles for it |
| `Backends.BelongsIffMember` | internal/engine/compiler.go:955-975 | an address belongs to a peer or group end iff it lies in the written address of a peer of that end, the viewer's own left out where it writes prefixes; a pinned end is its pin |
| `Backends.BothEndsAgree` | internal/engine/compiler.go:978-1187 | a packet from A to B gets the same verdict from the policy's egress rules at A and its ingress rules at B |
| `Backends.WriteRulesMarkerFree` | internal/engine/compiler.go:1307-1336 | no block that is written has the internet marker, bare or normalised, in an address match, whatever it is given |
| `Catalog.NormalisedMarkerIsMarker` | internal/engine/compiler.go:163-169 | normalising the internet marker does not hide it from the guard |
| `Backends.BundleAddressesAreReadable` | internal/engine/compiler.go:682-745 | every address match of a successful compile is a valid prefix, so the marker is in none |
| `Backends.BroadcastSourceAlwaysAccepts` | internal/engine/compiler.go:1251-1263 | the ingress section of a broadcast source accepts exactly the open chains' packets to the broadcast addresses, whatever the action |
| `Backends.DropPolicyAccepts` | internal/engine/compiler.go:1251-1263 | a DROP policy from the limited broadcast address and a packet it accepts |
| `Preview.WriteRulesSplits` | internal/engine/compiler.go:1307-1336 | writing both scopes emits the union of writing each, and fails alike |
| `Preview.ForwardPreviewIsEgress` | internal/engine/compiler.go:1948-2015 | on a Docker host the two forward passes show exactly the rules of the egress section |
| `Preview.BackwardPreviewIsIngress` | internal/engine/compiler.go:2033-2092 | the two backward passes show exactly the rules of the ingress section |
| `Preview.PreviewAddressesAreReadable` | internal/engine/compiler.go:1948-2092 | for every service and every kind of end, each address match of a successful preview is a valid prefix |
| `PreviewCases.PreviewOmitsNothingIff` | internal/engine/compiler.go:2096-2134 | on a Docker host, for ends not written as sets, the preview contains every compiled rule of the policy iff the host does not take its packets in as multicast, or does so with a Multicast service, a multicast source and ACCEPT |
| `PreviewCases.PreviewIsCompile` | internal/engine/compiler.go:2096-2134 | for an ordinary service between peers and groups, on a host at both ends, the preview shows exactly the compiled rules |
| `PreviewCases.FixedServicesShown` | internal/engine/compiler.go:1948-1974 | for IGMP and VRRP the preview shows what each chain in scope accepts, also under a Docker-only scope, where nothing is compiled |
| `PreviewCases.BroadcastServiceShownAsPlain` | internal/engine/compiler.go:1843-1853 | a service with a broadcast service's reserved name is previewed as an ordinary one |
| `PreviewCases.BroadcastServiceCompilesToNothing` | internal/engine/compiler.go:904-915 | between ordinary ends such a service compiles to no rule |
| `PreviewCases.SectionsLeftOut` | internal/engine/compiler.go:1948-2092 | a direction or scope that excludes a section leaves it out of the preview |
| `FanOut.MergePeerIds` | internal/common/peerids.go:18-35 | the merge is ascending and holds exactly the ids of its inputs |
| `FanOut.AscendingIsCanonical` | internal/common/peerids.go:18-35 | the merged sequence is determined by the set of ids alone |
| `FanOut.GetAffectedPeersByPolicy` | internal/engine/compiler.go:2519-2634 | returns, sorted and once each, the peers either end names, and fails exactly on a missing end |
| `FanOut.SelectedIsAffected` | internal/engine/compiler.go:504-583 | every peer the applicability query selects for a policy is among the policy's affected peers |
| `FanOut.ResolveGroupChange` | internal/change/change_worker.go:490-619 | drops the change of a missing group; otherwise resolves exactly the peers affected through some live policy on the group, and reports failure exactly when the group is missing or a policy failed to resolve |
| `FanOut.FanOutIsSound` | internal/engine/compiler.go:2314-2341 | if only one group's membership differs, a peer outside the fan-outs before and after has the same bundle |
| `FanOut.FanOutAfterEdit` | internal/change/change_worker.go:490-619 | a peer whose bundle changes is missing from the fan-out taken after the edit iff the edit removed it from the group and no live policy on the group names it in another way |
| `FanOut.RemovedMemberIsMissed` | internal/change/change_worker.go:490-619 | a concrete removal changes a bundle that the later fan-out does not contain |
| `FanOut.AffectsMeans` | internal/engine/compiler.go:2519-2634 | a resolvable policy affects exactly the peers of its ends, and everyone when an end is all-peers |
| `FanOut.ServiceFanOutIsSound` | internal/db/services.go:32-58 | if only one service differs, the service fan-out is the same before and after, and a peer outside it has the same bundle |
| `FanOutMeaning.AffectedOnColumns` | internal/engine/compiler.go:2519-2634 | the call fails iff the policy is deleted, a peer end has no row or a group end is not live; otherwise it returns exactly the peers with a row that an end names, and all of them if either end is all-peers |
| `FanOutMeaning.AllPeersReachesEveryRow` | internal/engine/compiler.go:2620-2632 | with all-peers at either end the result is exactly the ids of the peer table |
| `FanOutMeaning.GroupFanOutOnColumns` | internal/engine/compiler.go:2314-2341 | a group's fan-out is what the policies not deleted, disabled ones too, with the group at either end reach; it is incomplete iff one of them has lost an end |
| `FanOutMeaning.MissedOnColumns` | internal/change/change_worker.go:490-619 | of the peers whose bundle an edit changed, the later fan-out misses exactly the removed ones that no policy on the group names, directly, by a group or as all-peers |
| `FanOutMeaning.ServiceFanOutOnColumns` | internal/db/services.go:32-58 | a service's fan-out is what the policies not deleted that use it reach |
| `GroupWalk.Walker.Walk` | internal/engine/compiler.go:2349-2408 | one visit terminates, keeps the list duplicate-free, adds only reachable groups and leaves the new ones closed under sharing |
| `GroupWalk.CollectTransitiveGroupIds` | internal/engine/compiler.go:2349-2408 | returns, once each and starting with the start, exactly the groups reachable by paths of the shares-a-member relation |
| `GroupWalk.SharesOnColumns` | internal/engine/compiler.go:2369-2376 | the walk steps from a group to another that is not pending delete and has a member row with a peer in common; between live groups both ways |
| `GroupWalk.PeersToRecompile` | internal/engine/compiler.go:2177-2291 | recompiles, sorted and once each, exactly the peers in the fan-out of some group of the walk, and fails iff a policy of one of them does not resolve |
| `GroupWalk.RecompileCovers` | internal/engine/compiler.go:2177-2291 | a peer whose bundle an edit changed is left out iff the edit removed it and it is in no fan-out of the walk any more |
| `ChangeWorker.StepInv` | internal/change/change_worker.go:59-338 | every step of every actor keeps lock, lifecycle, queue and outcome invariants and never panics |
| `ChangeWorker.NoPanicEver` | internal/change/change_worker.go:296-338 | no reachable state follows a send on a closed channel or a second close; `done` closes at most once |
| `ChangeWorker.ItemsAreConserved` | internal/change/change_worker.go:149-294 | accepted items are, in order, the processed, the one in hand and the buffered; none is processed twice or both ways |
| `ChangeWorker.LostItemsAreTheLateOnes` | internal/change/change_worker.go:103-121 | once `done` is closed the unprocessed accepted items are exactly those sent after the worker chose to leave, none without cancellation |
| `ChangeWorker.LateItemsStay` | internal/change/change_worker.go:103-121 | what is in the buffer once the worker chose to leave is accepted and unprocessed in every continuation |
| `ChangeWorker.LateItemExists` | internal/change/change_worker.go:103-121 | a run in which an accepted item is never processed |
| `ChangeWorker.LateCallersProcessTheirOwn` | internal/change/change_worker.go:149-294 | once the worker has exited, in every run, no call is accepted that had not passed its check by then, and once it is stopped none at all; such a call ends processed by its caller |
| `ChangeWorker.NeverStartedTakesNothing` | internal/change/change_worker.go:199-203 | a worker that was never started has accepted nothing in any reachable state |
| `ChangeWorker.CheckOnFields` | internal/change/change_worker.go:188-208 | a call falls back to its own processing iff the worker is stopped, has no queue, was never started or has closed `done` |
| `ChangeWorker.RefusedCallerCanProceed` | internal/change/change_worker.go:188-208 | a call that fell back can process its change at once |
| `ChangeWorker.NoDeadlock` | internal/change/change_worker.go:59-338 | in every reachable state, if a call of a queuer, Start or Stop has begun and not ended, one of the calls has a step to take |
| `ChangeWorker.CallsMoveForward` | internal/change/change_worker.go:149-338 | every such step moves its call forward, at most four times |
| `ChangeWorker.StopDrains` | internal/change/change_worker.go:296-338 | in every run after Stop closed the queue the worker takes at most a computed number of steps and always has one to take until `done` closes; if it had not chosen to leave by then, cancelled or not, it ends with every accepted item processed |
| `Snapshots.Database.RollbackSnapshots` | internal/db/rollback.go:16-82 | the newest-first loop computes the all-or-nothing undo of the snapshot table |
| `Snapshots.Database.RollbackEntitySnapshot` | internal/db/rollback.go:85-135 | undoes one entity and drops its snapshot, or changes nothing |
| `RollbackProofs.RestoredIsOriginal` | internal/db/rollback.go:201-244 | writing a snapshot's columns over an edited row gives the baseline row back |
| `RollbackProofs.PerformInv` | internal/db/snapshots.go:12-29 | after any edit with its snapshot, rows without a snapshot are at the baseline and each snapshot holds its entity's baseline |
| `RollbackProofs.UndoExact` | internal/db/rollback.go:137-244 | undoing one snapshot with all newer ones undone fails exactly on a conflict with an older one, and otherwise moves that entity alone to the baseline |
| `RollbackProofs.RollbackExact` | internal/db/rollback.go:16-82 | rollback succeeds iff no older entity conflicts with a newer snapshot; then it restores the baseline and empties the table, else it changes nothing |
| `RollbackProofs.RollbackEntityInv` | internal/db/rollback.go:85-135 | a successful single undo puts that entity at the baseline and keeps the invariant |
| `RollbackProofs.RollbackRestoresBaseline` | internal/db/rollback.go:16-82 | over every run of creations, updates, soft deletes, member edits and undos, a successful rollback returns the tables to the baseline |
| `RollbackProofs.RollbackCanBeBlocked` | internal/db/rollback.go:137-173 | a run of ordinary edits that cannot be rolled back |
| `RollbackMeaning.UndoCreationRefusedIff` | internal/db/rollback.go:137-199 | undoing a creation is refused iff, for a group, some policy has it as source or target; for a service, some policy uses it; for a peer, some policy has it at an end or some group lists it |
| `RollbackMeaning.StorableOnColumns` | internal/db/schema.sql:10-84 | the schema accepts a row iff its unique columns are free, its references there and its enumerations known, column by column |
| `RollbackMeaning.RollbackOnColumns` | internal/db/rollback.go:16-82 | after every run of edits and undos a rollback succeeds iff no older entity's row or snapshot stands in the way of a newer one, a condition on the columns; then the tables are the baseline |
| `RollbackMeaning.UpdateGroupEffect` | internal/store/group_store.go:141-145 | an update changes name and description of a live group and no other column or row, and is refused iff the name is taken |
| `RollbackMeaning.UpdateServiceEffect` | internal/store/service_store.go:284-288 | an update replaces a live service's texts and keeps is_system and no_conntrack |
| `RollbackMeaning.UpdatePolicyEffect` | internal/store/policy_store.go:127-135 | an update replaces a live policy's columns and is refused iff its service is missing or an enumeration unknown |
| `RollbackMeaning.PatchEnabledEffect` | internal/store/policy_store.go:143-147 | changes the enabled column of a live policy and nothing else |
| `RollbackMeaning.SoftDeleteEffect` | internal/store/group_store.go:156-357 | marks a live row deleted, refused for a group or service that a live policy has |
| `RollbackMeaning.AddMemberEffect` | internal/store/group_store.go:197-221 | adds one membership of an existing peer that is not a member yet, and nothing else |
| `RollbackMeaning.RemoveMemberEffect` | internal/store/group_store.go:223-250 | removes one membership and nothing else |
| `RollbackMeaning.CreateEffect` | internal/store/group_store.go:105-118 | adds one row under a free id and its snapshot, refused iff the schema refuses the row |
| `PeerDeletion.RollbackAfterDeletion` | internal/store/peer_store.go:340-384 | a rollback right after a deletion succeeds iff no group snapshot lists the peer and no older entity stands in the way, and then returns to the baseline without the peer and its memberships |
| `PeerDeletion.RollbackOverDeletions` | internal/store/peer_store.go:340-384 | the same over every run of edits, undos and deletions, with both outcomes described |
| `PeerDeletion.BaseOverDeletions` | internal/store/peer_store.go:340-384 | the baseline such a run returns to is the first one with the deleted peers and their memberships gone and nothing else changed |
| `PeerDeletion.StuckForever` | internal/store/peer_store.go:340-384 | once a group snapshot lists a deleted peer, no continuation can be rolled back |
| `PeerDeletion.DeletionCanJam` | internal/store/peer_store.go:340-384 | a rename and a deletion that lead there |
| `PeerDeletion.DeletePeerOnColumns` | internal/store/peer_store.go:1102-1150 | a peer is deleted iff no live policy has it or a group that lists it at an end; then its row, memberships and snapshot are gone and all else is as it was |
| `Importer.CreateRow` | internal/db/schema.sql:10-84 | an insert with its snapshot succeeds iff its id and unique columns are free, what it refers to is there and its CHECK constraints hold, and then adds that row and snapshot only |
| `Importer.InsertAll` | internal/importer/applier.go:169-195 | one creation loop succeeds iff every row's unique columns are free and distinct, its references there and its CHECK constraints satisfied, and then the tables are fully described |
| `Importer.InOrderHasNoConflict` | internal/importer/applier.go:169-518 | creating peers, groups, services and policies in that order leaves no older row in the way of a newer one |
| `Importer.Transact` | internal/importer/applier.go:169-534 | the transaction succeeds iff the session is importable, a condition on the tables and the session alone: hostnames and agent keys, group and service names free and distinct, hostnames given, references there, actions, scopes and directions known; then exactly the planned rows are added |
| `Importer.StagedPeerFindsItsRow` | internal/importer/applier.go:169-195 | a new staging peer id leads to the row created for it |
| `Importer.StagedGroupFindsItsRow` | internal/importer/applier.go:273-316 | a new staging group id leads to its group, whose members are the listed and the mapped staged peers |
| `Importer.StagedServiceFindsItsRow` | internal/importer/applier.go:395-420 | a new staging service id leads to its service |
| `Importer.PolicyRowsAreTheRules` | internal/importer/applier.go:470-518 | the created policies are exactly those of the resolvable rules |
| `Importer.ApplySession` | internal/importer/applier.go:34-608 | the outcome is determined: not applied iff not importable or not committed, and then nothing changed; otherwise, also when queueing failed, all planned rows are there, old rows untouched, and a rollback is certain to return the exact previous state |
| `ImportMeaning.ImportedPolicies` | internal/importer/applier.go:470-518 | after an import there is one new policy for each approved rule whose two ends can be found, in the order of the rules, and no other; its source is the rule's source, its target the rule's target, each the real id given or the row its staging id stands for, its service likewise, its other columns the rule's |
| `ImportMeaning.RuleBecomes` | internal/importer/applier.go:704-721 | an end is found iff it has a real id or a staging id that stands for a row; a rule with an end that is not found becomes nothing |
| `ImportMeaning.ImportedPeer` | internal/importer/applier.go:169-195 | a staging peer's row has its hostname, its address and the imported agent key |
| `ImportMeaning.ImportedGroup` | internal/importer/applier.go:273-316 | a staging group's row has its name, and as members exactly the listed peers and those its staging members stand for |
| `ImportMeaning.ImportedService` | internal/importer/applier.go:395-420 | a staging service's row has its columns, with an empty hint stored as inbound |
| `ImportMeaning.ImportableOnColumns` | internal/db/schema.sql:10-84 | the database accepts a session iff hostnames are given, hostnames, addresses and names are free and distinct, members and services are there or created, and the enumerations of the rules that become policies are known |
| `Importer.AppliedThoughReportedFailed` | internal/importer/applier.go:555-556 | a session that is committed and reported as failed |
| `Importer.SharedHostnameBlocks` | internal/importer/applier.go:169-176 | two new peers with one hostname make the import fail whatever the tables hold |
| `Importer.TwoPrefixesBlock` | internal/importer/resolver.go:274-281 | two prefixes of one network address are staged as two peers with one hostname, so that session is never applied |
| `Revocation.RecencyWithout` | internal/auth/auth.go:121-141 | removing a key keeps the list duplicate-free and in recency order |
| `Revocation.TokenRevocations.CacheGet` | internal/auth/auth.go:121-141 | hits exactly the unexpired entries and moves them to the front; an expired entry leaves map and list |
| `Revocation.TokenRevocations.CacheAdd` | internal/auth/auth.go:143-161 | stores the entry in front and, when full, evicts exactly the entry used longest ago |
| `Revocation.TokenRevocations.Clear` | internal/auth/auth.go:163-168 | empties map and list and leaves the store alone |
| `Revocation.TokenRevocations.RevokeToken` | internal/auth/auth.go:447-459 | adds the row if new and caches the positive answer; refuses without a store |
| `Revocation.TokenRevocations.IsRevoked` | internal/auth/auth.go:461-491 | answers exactly as the store does despite eviction, expiry and clearing; doubt counts as revoked |
| `Revocation.TokenRevocations.CleanupExpiredTokens` | internal/auth/auth.go:494-506 | removes exactly the expired rows and leaves no cached answer behind |
| `RevocationFlights.StepInv` | internal/auth/auth.go:461-491 | every step of requests, shared lookups, revokers, other instances and cache upkeep keeps answers consistent with the history of the store |
| `RevocationFlights.NegativeMeansMissing` | internal/auth/auth.go:461-491 | in every interleaving a negative answer means that the row was missing at some moment since the lookup behind it began |
| `RevocationFlights.StaleExactlyWhenJoinedTooLate` | internal/auth/auth.go:473-477 | for a token whose row was there for the whole request the answer is negative iff the request joined a lookup that had read before the request was asked |
| `RevocationFlights.OwnLookupIsCurrent` | internal/auth/auth.go:473-477 | a request that started its lookup, or joined one begun after it was asked, answers negative only if the row was missing while it ran |
| `RevocationFlights.StaleNegativeExists` | internal/auth/auth.go:473-477 | a run with a stale negative answer |
| `RevocationFlights.PositiveAnswersAge` | internal/auth/auth.go:447-491 | a cached positive answer outlives its row by at most the entry lifetime plus the delay between seeing the row and caching it |
| `RevocationFlights.RevokedIsSeenAtOnce` | internal/auth/auth.go:447-491 | after RevokeToken has returned, or a request found the row, every request asked within 30 seconds is answered revoked at once in every run, unless the entry is evicted or the cache cleared |
| `RevocationFlights.GapMeansMissing` | internal/auth/auth.go:461-491 | over every run, the record that a request's row was missing holds iff it was missing at some moment since it was asked |
| `RevocationFlights.LookupGapMeansMissing` | internal/auth/auth.go:473-484 | the same for a shared lookup since it began |
| `RevocationFlights.AskedOnFields` | internal/auth/auth.go:461-472 | a request is answered from the cache iff it holds the token in an entry at most 30 seconds old |
| `RevocationFlights.CachedOnFields` | internal/auth/auth.go:447-491 | an entry is put only by a revocation or a positive lookup, and carries the time of the insert or read |
| `Broadcast.BroadcastIsGreatest` | internal/resolve/resolve.go:190-214 | the broadcast address lies in the network and no address of the network is above it |
| `Broadcast.BytesMakeBroadcast` | internal/resolve/resolve.go:190-214 | setting the host bits byte by byte yields that address for every prefix length |
| `Broadcast.OrSetsHostBits` | internal/resolve/resolve.go:206-213 | a byte ORed with the complement of a mask byte keeps its network bits and has all host bits set, for every number of mask bits |
| `Broadcast.ComputeBroadcastBytes` | internal/resolve/resolve.go:206-213 | the loop that ORs each byte with the complemented mask byte yields the greatest address of the network, for every address and length |
| `Broadcast.BareAddressIsSlash24` | internal/resolve/resolve.go:190-214 | an address without a prefix is treated as its /24 network |
| `Broadcast.RecognisesWhatIsEmitted` | internal/resolve/resolve.go:220-260 | on INPUT a destination is recognised as broadcast iff the resolver emits it for the same peer address, limited broadcast first |
| `MeaningProofs.BroadcastDestMeans` | internal/resolve/resolve.go:220-260 | on every chain but OUTPUT a destination is limited broadcast iff it is 255.255.255.255, and otherwise subnet broadcast iff it is the last address of the network of one of the peers |
| `IptParse.ParseModuleParams` | internal/iptparse/parser.go:34-48 | stays in range, terminates, and consumes exactly one module block |
| `IptParse.ParseFields` | internal/iptparse/parser.go:233-337 | the token loop stays in range, terminates and computes the recursive reading of the line |
| `IptParse.Collect` | internal/iptparse/parser.go:57-97 | gathers each requested chain's lines in order and the chains by first appearance |
| `IptParse.Parse` | internal/iptparse/parser.go:57-116 | lossless: exactly the requested chains with rules, by first appearance, each with exactly its trimmed lines in order, numbered from 1 |
| `IptParse.ReparseStable` | internal/importer/resolver.go:108-114 | parsing a stored raw rule again yields one rule with the same fields, also where spacing kept the prefix from being stripped |
| `IptText.AddressOptions` | internal/iptparse/parser.go:259-293 | `-s`, `-d`, `-i` and `-o` set source, destination, incoming and outgoing interface to the next word and nothing else |
| `IptText.OtherOptions` | internal/iptparse/parser.go:253-299 | the same for `-p`, `--sport`, `--dport` and `-j` |
| `IptText.OtherWords` | internal/iptparse/parser.go:312-320 | any other word is skipped with a warning that names it |
| `IptText.ModuleOption` | internal/iptparse/parser.go:301-310 | `-m` notes the module; seven modules open a block |
| `IptText.BlockWords` | internal/iptparse/parser.go:34-48 | a block ends at seven words and swallows every other word that is not a parameter of its module |
| `IptText.SetParameter` | internal/iptparse/parser.go:124-137 | a set match records name and direction |
| `IptText.StateParameter` | internal/iptparse/parser.go:138-152 | `--ctstate` adds the parts of a comma list |
| `IptText.CommentParameter` | internal/iptparse/parser.go:171-185 | a comment is recorded without the quotes around it |
| `IptText.CleanIff` | internal/iptparse/parser.go:365-424 | a record is clean iff it has no interface, docker0 on DOCKER-USER aside, accepts or drops, has no state but NEW, only known modules and none of the compiler's own sets |
| `IptText.StandardIff` | internal/iptparse/parser.go:426-453 | a record counts as the compiler's own iff it accepts loopback, related ICMP or established and related traffic, drops invalid packets or uses one of its sets |
| `IptText.ReasonsInOrder` | internal/iptparse/parser.go:365-424 | the reason a line is set aside is the first that applies |
| `IptRoundTrip.FieldsOfLine` | internal/engine/compiler.go:1457-1494 | splitting a printed prefix line gives its words back, empty columns or not |
| `IptRoundTrip.PrintThenParse` | internal/iptparse/parser.go:122-337 | the parsed record of every printed non-LOG prefix line, without warnings, exactly |
| `IptRoundTrip.FaithfulIff` | internal/iptparse/parser.go:34-48 | the record shows both port lists iff no single destination port follows a list of source ports |
| `IptRoundTrip.SwallowedPort` | internal/iptparse/parser.go:34-48 | a printed line whose destination port is missing from its record |
| `IptRoundTrip.ParsedRuleIsTheRule` | internal/engine/compiler.go:1457-1591 | the tests the record stands for are those the compiler built, iff no port was swallowed; the target always survives |
| `IptRoundTrip.OwnLinesImport` | internal/iptparse/parser.go:365-453 | of a host's own prefix lines, the connection-tracked ones are rejected for their states and all others are clean |
| `IptRegular.RecordMeansLineIff` | internal/iptparse/parser.go:233-337 | the record says what the line says only if, and on lines where no lost flag has a flag for its value exactly if, the line has no negation and no unknown option, gives no field twice with different contents, and gives each field at a place where the parser takes it |
| `IptRegular.RegularMeans` | internal/iptparse/parser.go:122-215 | on a line whose every flag stands where the parser takes it, the record is right iff no field is given twice with different contents |
| `IptRegular.ReadableIffRegular` | internal/iptparse/parser.go:34-48 | on lines that give no field twice, the condition is that every flag stands where the parser takes it |
| `IptMeaning.RecordIsTaken` | internal/iptparse/parser.go:122-337 | on every line each field of the record is the fold of the tests the parser took: the last value, or all the states |
| `IptRegular.NegationIsClean` | internal/iptparse/parser.go:365-424 | a line with a negated source whose record shows the source as plain and is classified as clean |
| `IptRegular.DoubleSetIsMisread` | internal/iptparse/parser.go:122-137 | two set matches in a row leave only the second in the record, without a warning and classified as clean |

## Left out

- HTTP handlers, middleware, web front end, metrics, SMTP, alerts: plumbing and input/output.
- SQL text, drivers, migrations and cryptography: tables are maps, sequences and sets, transactions are single steps.
- Address text is a value (host, prefix, empty, malformed, internet marker) rather than characters; IPv6 addresses exist as values but packets are IPv4.
- Comments, headers, timestamps, LOG prefixes and the order among equal-priority policies, which the query leaves open.
- Service names are reduced to the role they select; `strings.ToLower` and whitespace are ASCII.
- `MeaningProofs.CompileMeansPolicies`: assumes distinct sanitised group names, because the sanitiser is not injective.
- Repeated `! -d` flags are read as a conjunction; whether iptables accepts them is outside the model.
- `PreviewCases.PreviewOmitsNothingIff`: leaves out ends that compile to a group set, because the preview never uses sets, and hosts without Docker, for which the preview shows Docker rules all the same.
- Wiring checks that the types of the model rule out, such as an ipset name passed with the internet direction.
- `ChangeWorker.StepInv`: the contents of work items, timeouts and the pending-table inserts of `queueChangeForPeer` are not modelled; an item is its identity.
- Insert and snapshot of a creation are one step; NULL and empty columns are one value; `CleanupIfComplete`, `CleanupAfterApplyAll` and `DeleteSnapshot` are not steps of a run, so a run starts where the snapshot table was last empty.
- Ids are never reused: the runs of `PeerDeletion` refuse to create a row under the id of a deleted peer, as AUTOINCREMENT does; the other tables cleaned up with a peer are not modelled.
- `Importer.ApplySession`: failures of the database other than refused rows and a failed commit, and the session's own status column, are not modelled; ids come from one counter above all existing ids; the fan-out of the queued changes is that of `FanOut`.
- `Revocation.TokenRevocations.IsRevoked`: the linked list is its sequence of keys, one call at a time; concurrent calls and shared lookups are in `RevocationFlights`. Personal access tokens are not part of either.
- Importer heuristics (`resolveService`, ipset matching) and the push worker: no meaning-preservation claim to state.
- `IptRoundTrip.PrintThenParse`: set and internet lines are not printed as text, because only prefix lines are promised to survive; LOG lines are excluded.
- `IptRegular.RecordMeansLineIff`: the converse leaves open the lines on which a flag that the parser does not take has a value that is itself a flag; there the parser and iptables disagree on where the next flag begins.
