# Rule-chain link consistency — a Dafny model of `DefaultTbRuleChainService`

ThingsBoard rule chains are graphs of rule nodes joined by typed relations. The
type of a relation is its link label. A chain hands messages to another chain
through an *input node*, whose configuration names the target chain. The target
hands them back through *output nodes*, whose names are the labels that the
caller's relations use. `DefaultTbRuleChainService` keeps these labels
consistent, and it wraps each mutating operation on a chain in a fixed
sequence of storage calls, cluster broadcasts and audit notifications.

The model has eight modules, which follow the service's structure:

- `Wrappers`: `Option` for Java `null`, and `Result`/`Failure` for thrown exceptions.
- `RuleModel`: chains, nodes, relations, metadata and update results, plus the node classification (`isRuleNode`, `isOutputRuleNode`, `isInputRuleNode`).
- `StringOrder`: the natural order of `String` and the `TreeSet` insertion `getRuleChainOutputLabels` relies on.
- `OutputLabels`: `getRuleChainOutputLabels`, as a loop over the nodes that inserts into a sorted set.
- `UsageIndex`: `getOutputLabelUsage`, as a pure pipeline. It filters by decoded configuration, maps each node to its relation types, drops nodes without relations, resolves chain names through a call-local cache, and sorts by (chain name, node name).
- `Relabel`: the fold of the first `updateRelatedRuleChains`, which computes the rename map. It also holds the store-level meaning of renaming links.
- `Lifecycle`: one specification function per lifecycle operation. Each returns the operation's result and the ordered list of events it emits.
- `Service`: the class `RuleChainService`. Its field `relations` is the relation store that link renaming rewrites in place. Its ghost field `trace` records the traced collaborator calls (see "## Left out"), broadcasts, notifications and edge messages. Each method performs the source's steps in order and is proved equal to its specification function. The one exception is `SetRootRuleChain`, which performs the corrected steps (`Lifecycle.SetRootCorrected`). The code as written, which reads the previous root's id before its null check, is `Lifecycle.SetRootAsWritten` (see "## Findings").

Collaborators are not modelled as code:

- What storage, the installer or the decoder answer is passed in as a parameter, for example `saved`, `referencing` or `candidates`.
- Mutating rule-chain storage calls, broadcasts and notifications are appended to `trace`. Relation deletes and saves are not traced: they rewrite `relations` instead.
- The iteration order of a `HashSet` or `HashMap` is a nondeterministic choice. The method returns it as a ghost `order`, and the contract quantifies over every order.

## Model

| member | source | states |
|---|---|---|
| RuleModel.KindOf | application/src/main/java/org/thingsboard/server/service/rule/DefaultTbRuleChainService.java:431-433 | a type string is Input exactly when it is the input-node class name, Output exactly when it is the output-node class name, and Other otherwise |
| RuleModel.ClassificationByKind | application/src/main/java/org/thingsboard/server/service/rule/DefaultTbRuleChainService.java:423-433 | classifying a node by its kind agrees with `isRuleNode`: an output (input) node is exactly a present node whose type is the output (input) class name; no node is both; a missing node is neither |
| StringOrder.LessTotal | application/src/main/java/org/thingsboard/server/service/rule/DefaultTbRuleChainService.java:72 | the natural string order is total: two strings are equal or one precedes the other |
| StringOrder.LessTransitive | application/src/main/java/org/thingsboard/server/service/rule/DefaultTbRuleChainService.java:72 | the natural string order is transitive |
| StringOrder.Insert | application/src/main/java/org/thingsboard/server/service/rule/DefaultTbRuleChainService.java:72-75 | adding to the sorted set keeps it strictly increasing and its elements are exactly the old ones plus the new one |
| StringOrder.IncreasingUnique | application/src/main/java/org/thingsboard/server/service/rule/DefaultTbRuleChainService.java:72 | two strictly increasing sequences with the same elements are equal, so a sorted set's contents determine its iteration order |
| OutputLabels.GetRuleChainOutputLabels | application/src/main/java/org/thingsboard/server/service/rule/DefaultTbRuleChainService.java:70-79 | fails exactly when the metadata cannot be loaded; otherwise returns a strictly increasing sequence whose elements are exactly the names of the output nodes |
| OutputLabels.LabelsIndependentOfNodeOrder | application/src/main/java/org/thingsboard/server/service/rule/DefaultTbRuleChainService.java:70-79 | two node lists with the same output names yield the same label sequence |
| OutputLabels.SharedNameCountedOnce | application/src/main/java/org/thingsboard/server/service/rule/DefaultTbRuleChainService.java:72-76 | no label occurs twice, even when several output nodes share a name |
| UsageIndex.CollectUsages | application/src/main/java/org/thingsboard/server/service/rule/DefaultTbRuleChainService.java:86-109 | a usage is collected exactly for a candidate node whose decoded configuration names the queried chain and that has at least one relation; nodes that do not decode are excluded |
| UsageIndex.LookupNames | application/src/main/java/org/thingsboard/server/service/rule/DefaultTbRuleChainService.java:110-114 | fails exactly when some usage's chain is not found; otherwise keeps every usage in place with its chain's stored name filled in |
| UsageIndex.ResolveNames | application/src/main/java/org/thingsboard/server/service/rule/DefaultTbRuleChainService.java:84-114 | resolving names through the call-local cache gives the same result as looking each name up directly, as long as the cache only holds stored names |
| UsageIndex.UsageLeqTotal | application/src/main/java/org/thingsboard/server/service/rule/DefaultTbRuleChainService.java:115-117 | the comparator by chain name, then node name, relates every pair of usages |
| UsageIndex.UsageLeqTransitive | application/src/main/java/org/thingsboard/server/service/rule/DefaultTbRuleChainService.java:115-117 | the comparator is transitive |
| UsageIndex.InsertUsage | application/src/main/java/org/thingsboard/server/service/rule/DefaultTbRuleChainService.java:115-117 | inserting into a sorted list keeps it sorted and adds exactly the one usage |
| UsageIndex.SortUsages | application/src/main/java/org/thingsboard/server/service/rule/DefaultTbRuleChainService.java:115-117 | the sorted list is ordered by the comparator and is a permutation of its input |
| UsageIndex.GetOutputLabelUsage | application/src/main/java/org/thingsboard/server/service/rule/DefaultTbRuleChainService.java:82-119 | fails exactly when a contributing node's chain cannot be found; otherwise returns a sorted permutation of the contributing usages with their names resolved |
| UsageIndex.UsageCharacterization | application/src/main/java/org/thingsboard/server/service/rule/DefaultTbRuleChainService.java:86-114 | a usage is returned iff it is built from a contributing candidate whose chain name resolves, with that name and that node's relation types |
| UsageIndex.UsageGuarantees | application/src/main/java/org/thingsboard/server/service/rule/DefaultTbRuleChainService.java:86-114 | every returned usage comes from a candidate referencing the queried chain; its label set is non-empty and equals its node's relation types; its chain name is the stored one |
| Relabel.FoldUpdate | application/src/main/java/org/thingsboard/server/service/rule/DefaultTbRuleChainService.java:134-154 | one iteration records the old and new names of an output node with an old version, and proposes its rename unless the label already has a different proposal, in which case the label is marked confused |
| Relabel.FoldStep | application/src/main/java/org/thingsboard/server/service/rule/DefaultTbRuleChainService.java:133-155 | one iteration keeps the fold invariant: the map holds each proposed label's first proposal, and the confused labels are those with more than one proposal |
| Relabel.FoldUpdates | application/src/main/java/org/thingsboard/server/service/rule/DefaultTbRuleChainService.java:133-155 | after the loop the label sets are the old and new output names, and the map and confused set satisfy the fold invariant |
| Relabel.ComputeLabelChanges | application/src/main/java/org/thingsboard/server/service/rule/DefaultTbRuleChainService.java:129-159 | the old and new label sets are the old and new output names; the final map is the rename map: each old label with exactly one proposed name, unless it is still an output name |
| Relabel.FilteredIsRenameMap | application/src/main/java/org/thingsboard/server/service/rule/DefaultTbRuleChainService.java:156-159 | removing the confused labels and the labels still in use from the folded map leaves exactly the rename map |
| Relabel.RenameMapSafe | application/src/main/java/org/thingsboard/server/service/rule/DefaultTbRuleChainService.java:143-159 | the rename map holds no confused label and no label still in use; every target is a new output name different from its key, so keys and values are disjoint |
| Relabel.RenameMapCharacterization | application/src/main/java/org/thingsboard/server/service/rule/DefaultTbRuleChainService.java:133-159 | a label is renamed to a target iff the target is its only proposal and the label is no longer an output name |
| Relabel.DivergedLabelNotRenamed | application/src/main/java/org/thingsboard/server/service/rule/DefaultTbRuleChainService.java:143-157 | two nodes sharing a label that are renamed to different names make the label confused and keep it out of the map |
| Relabel.RenameLinksAsDeleteAndSave | application/src/main/java/org/thingsboard/server/service/rule/DefaultTbRuleChainService.java:412-421 | deleting the node's relations of the old type and saving their retyped copies gives the retyped store |
| Relabel.RenameLinksSpec | application/src/main/java/org/thingsboard/server/service/rule/DefaultTbRuleChainService.java:412-421 | every relation of the node typed with the old label becomes one typed with the new label with the same endpoints; every other relation is kept; nothing else appears; for a real rename no relation of the node keeps the old label |
| Relabel.RenameStep | application/src/main/java/org/thingsboard/server/service/rule/DefaultTbRuleChainService.java:401-408 | with disjoint keys and values, renaming one more (node, label) pair on top of the pairs already renamed equals renaming them all at once, so the order of the map does not matter |
| Relabel.RenameAllBySpec | application/src/main/java/org/thingsboard/server/service/rule/DefaultTbRuleChainService.java:401-408 | after a map is applied, a relation whose (node, type) pair was matched carries the new label, and every other relation is unchanged |
| Relabel.RenameAllByClearsMatches | application/src/main/java/org/thingsboard/server/service/rule/DefaultTbRuleChainService.java:401-408 | after a safe map is applied, no relation is left whose (node, type) pair was matched |
| Relabel.MatchesCharacterization | application/src/main/java/org/thingsboard/server/service/rule/DefaultTbRuleChainService.java:398-410 | a (node, label) pair is renamed, and a chain reported, exactly when a contributing input node of that chain has an outgoing relation typed with a key of the map |
| Lifecycle.BroadcastAll | application/src/main/java/org/thingsboard/server/service/rule/DefaultTbRuleChainService.java:207-208 | one broadcast of the given event per id of the enumeration (as many events as ids), and no event other than those broadcasts |
| Lifecycle.BroadcastAllAt | application/src/main/java/org/thingsboard/server/service/rule/DefaultTbRuleChainService.java:207-208 | the broadcasts follow the enumeration: the event at position i announces the i-th id |
| Lifecycle.SaveProperties | application/src/main/java/org/thingsboard/server/service/rule/DefaultTbRuleChainService.java:167-186 | save notifies exactly once; it broadcasts only for a saved CORE chain, then CREATED exactly when the incoming id was absent and UPDATED otherwise; a failure broadcasts nothing |
| Lifecycle.SaveDefaultProperties | application/src/main/java/org/thingsboard/server/service/rule/DefaultTbRuleChainService.java:222-236 | saveDefaultByName notifies exactly once, with action ADDED, and broadcasts CREATED for the created chain on success and nothing on failure |
| Lifecycle.DeleteNotifiesOnce | application/src/main/java/org/thingsboard/server/service/rule/DefaultTbRuleChainService.java:189-219 | delete notifies exactly once: the deletion notification, carrying the edge ids for an EDGE chain, as its last event on success, and the DELETED failure note on failure |
| Lifecycle.DeleteBroadcasts | application/src/main/java/org/thingsboard/server/service/rule/DefaultTbRuleChainService.java:195-211 | a deleted CORE chain broadcasts UPDATED to exactly the other referencing chains, never to itself, and DELETED for itself; an EDGE chain broadcasts nothing |
| Lifecycle.DeleteLooksUpEdgesOnlyForEdgeChains | application/src/main/java/org/thingsboard/server/service/rule/DefaultTbRuleChainService.java:197-200 | the related edge ids are looked up exactly for an EDGE chain whose referencing nodes were read |
| Lifecycle.SetRootWithoutPreviousRootFails | application/src/main/java/org/thingsboard/server/service/rule/DefaultTbRuleChainService.java:240-245 | as written, a tenant without a root chain makes the call fail before the root is set and with no notification, where the intended version succeeds |
| Lifecycle.SetRootAsWritten | application/src/main/java/org/thingsboard/server/service/rule/DefaultTbRuleChainService.java:239-266 | with no previous root the call fails with a `NullPointerException` after the root-chain read alone; with a previous root it is exactly the corrected version |
| Lifecycle.SetRootCorrectedProperties | application/src/main/java/org/thingsboard/server/service/rule/DefaultTbRuleChainService.java:244-259 | once the root is switched, the new root is broadcast and notified as UPDATED, and so is the previous root (broadcast and UPDATED notification of its reloaded chain) when there is one; the notification count is two or one; with a previous root the intended version equals the code as written |
| Lifecycle.SaveMetaDataSuccessShape | application/src/main/java/org/thingsboard/server/service/rule/DefaultTbRuleChainService.java:274-309 | a successful metadata save had a successful storage save and reloaded metadata, and its events are the save, the related update, the CORE broadcasts, the primary events and the related notifications, in that order |
| Lifecycle.RelatedBroadcastsSpec | application/src/main/java/org/thingsboard/server/service/rule/DefaultTbRuleChainService.java:288-290 | the CORE loop over related chains succeeds iff every chain is present, and then broadcasts UPDATED for each of them; it emits only broadcasts |
| Lifecycle.RelatedNotificationsSpec | application/src/main/java/org/thingsboard/server/service/rule/DefaultTbRuleChainService.java:300-308 | after the loop succeeds, every related chain was present and got an edge message (EDGE primary) or an UPDATED notification (CORE primary); it notifies once per chain, or not at all for an EDGE primary |
| Lifecycle.SaveMetaDataFailureNotifiesAdded | application/src/main/java/org/thingsboard/server/service/rule/DefaultTbRuleChainService.java:310-312 | a failed metadata save ends with a failure notification carrying ADDED |
| Lifecycle.SaveMetaDataPrimaryEvents | application/src/main/java/org/thingsboard/server/service/rule/DefaultTbRuleChainService.java:286-298 | a successful metadata save returns the reloaded metadata and always sends the generic UPDATED notification; a CORE chain is broadcast and gets no edge message; an EDGE chain also gets an edge message and nothing is broadcast |
| Lifecycle.SaveMetaDataRelatedEvents | application/src/main/java/org/thingsboard/server/service/rule/DefaultTbRuleChainService.java:286-308 | after a successful metadata save every related chain was broadcast and notified (CORE) or sent an edge message (EDGE) |
| Lifecycle.SaveMetaDataNotificationCount | application/src/main/java/org/thingsboard/server/service/rule/DefaultTbRuleChainService.java:293-308 | a successful metadata save notifies once for an EDGE chain, and once plus once per related chain for a CORE chain |
| Lifecycle.SaveMetaDataLateFailureNotifications | application/src/main/java/org/thingsboard/server/service/rule/DefaultTbRuleChainService.java:293-312 | for a CORE chain whose related chains are all present, when the metadata of the one at position k (counting from 0) cannot be loaded, the call fails with the ADDED failure note last and k + 2 notifications in all: the primary one, one per earlier related chain, and the failure note |
| Lifecycle.AssignmentAndFlagProperties | application/src/main/java/org/thingsboard/server/service/rule/DefaultTbRuleChainService.java:318-396 | assign, unassign and the three flag setters notify exactly once and never broadcast; they fail exactly when storage does; the notification carries the stored chain on success and the assignment action on failure; a flag setter's notification is UPDATED, on success and on failure |
| Service.FindChains | application/src/main/java/org/thingsboard/server/service/rule/DefaultTbRuleChainService.java:163 | one entry per id in order, present exactly when storage finds the chain and then holding that chain |
| Service.FindRuleChains | application/src/main/java/org/thingsboard/server/service/rule/DefaultTbRuleChainService.java:163 | the ids are visited once each, in the set's order, and the result is their lookup |
| Service.SkippedRelabelTouchesNothing | application/src/main/java/org/thingsboard/server/service/rule/DefaultTbRuleChainService.java:125-162 | with no updated nodes, or with unchanged output labels, no usage query is made, the store is unchanged and the result is empty |
| Service.RuleChainService.constructor | application/src/main/java/org/thingsboard/server/service/rule/DefaultTbRuleChainService.java:64-67 | the service starts over the given relation store with an empty trace |
| Service.RuleChainService.RenameOutgoingLinks | application/src/main/java/org/thingsboard/server/service/rule/DefaultTbRuleChainService.java:412-421 | the store becomes the old store with the node's relations of the old type retyped to the new one; nothing is traced |
| Service.RuleChainService.RenameUsageLinks | application/src/main/java/org/thingsboard/server/service/rule/DefaultTbRuleChainService.java:402-407 | for one usage, the chain is collected iff the usage carries a key of the map, and, with a safe map (keys disjoint from values), each carried key's links are renamed on top of the pairs already renamed |
| Service.RuleChainService.RenameUsages | application/src/main/java/org/thingsboard/server/service/rule/DefaultTbRuleChainService.java:401-409 | returns the chains of the usages that carry some key; with a safe map the store becomes the old one with exactly the matched pairs renamed |
| Service.RuleChainService.UpdateRelatedRuleChainsByMap | application/src/main/java/org/thingsboard/server/service/rule/DefaultTbRuleChainService.java:398-410 | queries the input nodes once; fails with the store unchanged when a chain name cannot be resolved; otherwise returns the affected chains and, for a safe map, applies exactly the matched renames |
| Service.RuleChainService.UpdateRelatedRuleChains | application/src/main/java/org/thingsboard/server/service/rule/DefaultTbRuleChainService.java:122-164 | returns the chains affected by the rename map in the set's order and rewrites the store accordingly; skips query and rewrite when nothing was updated or the labels are unchanged; fails when a chain name cannot be resolved |
| Service.RuleChainService.Save | application/src/main/java/org/thingsboard/server/service/rule/DefaultTbRuleChainService.java:167-186 | returns what storage saved and emits exactly the events of the save specification |
| Service.RuleChainService.SaveDefaultByName | application/src/main/java/org/thingsboard/server/service/rule/DefaultTbRuleChainService.java:222-236 | returns the created chain and emits exactly the events of its specification |
| Service.RuleChainService.BroadcastReferencing | application/src/main/java/org/thingsboard/server/service/rule/DefaultTbRuleChainService.java:206-208 | every referencing chain is broadcast UPDATED once, in the set's order |
| Service.RuleChainService.Delete | application/src/main/java/org/thingsboard/server/service/rule/DefaultTbRuleChainService.java:189-219 | returns and emits exactly the delete specification for the set's order, which on a CORE success enumerates the referencing chains other than the deleted one |
| Service.RuleChainService.DeleteFromStorage | application/src/main/java/org/thingsboard/server/service/rule/DefaultTbRuleChainService.java:193-202 | emits exactly the storage phase of delete: the reference read, the edge lookup for an EDGE chain, and the deletion, with the DELETED failure note at the first failing step; on success returns the edge ids, present only for an EDGE chain |
| Service.RuleChainService.AnnounceDeletion | application/src/main/java/org/thingsboard/server/service/rule/DefaultTbRuleChainService.java:204-213 | a CORE chain broadcasts the referencing chains and then DELETED; the deletion notification follows for every chain |
| Service.RuleChainService.SetRootRuleChain | application/src/main/java/org/thingsboard/server/service/rule/DefaultTbRuleChainService.java:239-266 | returns and emits exactly the intended setRoot, which reads the previous root's id only when there is one |
| Service.RuleChainService.AssignRuleChainToEdge | application/src/main/java/org/thingsboard/server/service/rule/DefaultTbRuleChainService.java:318-349 | returns and emits exactly the assignment specification for assign and for unassign |
| Service.RuleChainService.SetRuleChainFlag | application/src/main/java/org/thingsboard/server/service/rule/DefaultTbRuleChainService.java:352-396 | returns and emits exactly the flag specification for each of the three flag setters |
| Service.RuleChainService.BroadcastRelated | application/src/main/java/org/thingsboard/server/service/rule/DefaultTbRuleChainService.java:288-290 | returns and emits exactly the CORE loop over related chains, stopping at the first absent chain |
| Service.RuleChainService.NotifyRelated | application/src/main/java/org/thingsboard/server/service/rule/DefaultTbRuleChainService.java:300-308 | returns and emits exactly the loop over related chains, stopping at the first absent chain or unloadable metadata |
| Service.RuleChainService.Prepare | application/src/main/java/org/thingsboard/server/service/rule/DefaultTbRuleChainService.java:274-282 | traces the metadata save, then fails, or yields nothing or the related chains, as the save result and the related update decide |
| Service.RuleChainService.BroadcastCore | application/src/main/java/org/thingsboard/server/service/rule/DefaultTbRuleChainService.java:286-291 | a CORE chain is broadcast UPDATED, followed by its related chains; an EDGE chain emits nothing |
| Service.RuleChainService.Publish | application/src/main/java/org/thingsboard/server/service/rule/DefaultTbRuleChainService.java:284-309 | emits exactly the metadata-save events after the related update, and fails with the ADDED failure note at the first failing step |
| Service.RuleChainService.SaveRuleChainMetaData | application/src/main/java/org/thingsboard/server/service/rule/DefaultTbRuleChainService.java:269-315 | returns and emits exactly the metadata-save specification for the related update's outcome; the store is rewritten exactly when related chains are updated |

## Left out

- Logging, Spring and Lombok wiring: they have no observable effect in the model.
- The tenant and user parameters, and the notification payloads (metadata, id strings, edge names) beyond the entity, action and success flag: they are passed through unchanged.
- The exact exception types: every thrown exception becomes one of `Absent`, `NullPointer` or `StorageError`, and `handleException` is assumed to re-throw.
- Failures of the broadcast and notification collaborators themselves: these calls are assumed to succeed.
- Only some read-only storage calls are traced. The root-chain read of `setRootRuleChain` (:240), the referencing-node read and the related-edge lookup of `delete` (:193, :199), and the input-node query of `getOutputLabelUsage` (:83) are traced. Metadata loads, chain lookups by id and relation reads are not; their answers are parameters.
- The effect on the relation store of `deleteRuleChainById`, `saveRuleChainMetaData`, the edge assignments and the flag setters: they appear only as traced calls. Link renaming is the part of the store that is modelled.
- The non-atomic delete-then-save of a relation, and concurrent requests: the model is sequential.
- Failures of the relation service: `getRuleNodeRelations` (:103 in `getOutputLabelUsage`, :413 in `renameOutgoingLinks`), `deleteRelation` and `saveRelation` (:416, :418) are assumed to succeed. In the source, such a throw inside `saveRuleChainMetaData` reaches the catch at :311: the caller gets the ADDED failure note and the store is left partly rewritten. The model does not capture that failure path or the partial rewrite. A throw at :103 leaves `getOutputLabelUsage` with that exception, and the model does not represent that case either.
- The `typeGroup` and `additionalInfo` of a relation: `Relation` keeps only its endpoints and type. Renaming sets only the type (:417) and saves the relation back with the other fields unchanged, so nothing observable is lost.
- JSON decoding of node configurations: it is an abstract `Decoder` that may fail.
- `CustomerPageHelper.java` is not part of this model: it is a browser-automation test helper.
- The `NullPointerException` of `ruleChainId.toString()` inside a catch block when the chain has no id: the failure notification is modelled as sent.
- Null node names, types and chain names: names are plain strings and a node type is always present.
- Java's `String.compareTo` compares UTF-16 code units; the model compares Dafny characters. The two orders differ only above the Basic Multilingual Plane.
- UsageIndex.SortUsages: sort stability is not stated. Only sortedness and permutation are proved, so the order among usages with equal chain and node names is not captured.
- Service.RuleChainService.UpdateRelatedRuleChainsByMap: the new store is stated only for a map whose keys and values are disjoint. `Relabel.RenameMapSafe` proves this for the only map ever passed.
- Lifecycle.SaveDefaultProperties: `saveDefaultByName`'s failure note carries a chain with only the requested name; its type is fixed to CORE, since the unset type cannot be expressed.

Two behaviours of the code worth knowing:

- `saveRuleChainMetaData` notifies at least twice when a step after the primary UPDATED notification (:293) throws, for example loading a related chain's metadata at :304. The failure note of :311 then follows the primary notification and the notifications of the related chains already handled: k + 2 in all when the related chain at position k (counting from 0) fails (`Lifecycle.SaveMetaDataLateFailureNotifications`). On success it also notifies once per related chain when the chain is CORE. `setRootRuleChain` notifies for both the previous and the new root.
- Line 159 removes every map entry whose *key* is among the new output names, so an old label still carried by some output node is not renamed. The new label is not checked against existing labels. `Relabel.RenameMap` models this.

## Findings

| source | as written | input that shows it | evidently intended | confidence | as-written member | corrected member |
|---|---|---|---|---|---|---|
| application/src/main/java/org/thingsboard/server/service/rule/DefaultTbRuleChainService.java:240-245 | `previousRootRuleChain.getId()` is read on line 241, before the null check on line 245 and outside the `try` | a tenant with no root rule chain: `getRootTenantRuleChain` returns null, so the call throws a `NullPointerException` before the root is set, with no notification | with no previous root, skip that branch, set the new root, and broadcast and notify it as UPDATED | not executed | Lifecycle.SetRootWithoutPreviousRootFails | Lifecycle.SetRootCorrectedProperties |
