/**
 * `DefaultTbRuleChainService` as an object over the relation store it
 * rewrites, with the collaborator calls it makes recorded in a ghost trace.
 */
module Service {
  import opened Wrappers
  import opened RuleModel
  import opened UsageIndex
  import opened Relabel
  import opened Lifecycle

  /** The relations leaving `nodeId`: what `getRuleNodeRelations` returns. */
  function Outgoing(rels: set<Relation>, nodeId: NodeId): set<Relation> {
    set r | r in rels && r.from == nodeId
  }

  /** One delete-then-save of a relation typed `oldLabel`, on top of those already retyped. */
  lemma DeleteSaveStep(start: set<Relation>, visited: set<Relation>, r: Relation,
                       nodeId: NodeId, oldLabel: string, newLabel: string)
    requires visited <= Outgoing(start, nodeId)
    requires r in Outgoing(start, nodeId) && r !in visited && r.relType == oldLabel
    ensures ((start - Selected(visited, nodeId, oldLabel)) + Retyped(Selected(visited, nodeId, oldLabel), newLabel)) - {r}
              + {r.(relType := newLabel)} ==
            (start - Selected(visited + {r}, nodeId, oldLabel)) + Retyped(Selected(visited + {r}, nodeId, oldLabel), newLabel)
  {
    var sel := Selected(visited, nodeId, oldLabel);
    var sel' := Selected(visited + {r}, nodeId, oldLabel);
    assert sel' == sel + {r};
    assert Retyped(sel', newLabel) == Retyped(sel, newLabel) + {r.(relType := newLabel)};
  }

  /** The (node, label) pairs and the chains one usage contributes for the labels `keys`. */
  function UsagePairs(u: Usage, keys: set<string>): set<(NodeId, string)> {
    set k | k in keys && k in u.labels :: (u.ruleNodeId, k)
  }

  function UsageChains(u: Usage, keys: set<string>): set<ChainId> {
    set k | k in keys && k in u.labels :: u.ruleChainId
  }

  lemma MatchesSnoc(us: seq<Usage>, u: Usage, m: map<string, string>)
    ensures MatchingPairs(us + [u], m) == MatchingPairs(us, m) + UsagePairs(u, m.Keys)
    ensures AffectedChains(us + [u], m) == AffectedChains(us, m) + UsageChains(u, m.Keys)
  {
    assert forall v :: v in us + [u] <==> v in us || v == u;
  }

  /** The updated nodes of a metadata save, none when the list is absent. */
  function UpdatesOf(result: RuleChainUpdateResult): seq<NodeUpdate> {
    if result.updatedNodes.None? then [] else result.updatedNodes.value
  }

  /** The relabel step is skipped when nothing was updated or the set of output labels is unchanged. */
  predicate SkipsRelabel(result: RuleChainUpdateResult) {
    |UpdatesOf(result)| == 0 || OldLabels(UpdatesOf(result)) == NewLabels(UpdatesOf(result))
  }

  /** `findRuleChainById` for each id in turn; a chain storage does not find is absent. */
  function FindChains(order: seq<ChainId>, chains: map<ChainId, RuleChain>): (r: seq<Option<RuleChain>>)
    ensures |r| == |order|
    ensures forall i :: 0 <= i < |order| ==> (r[i].Some? <==> order[i] in chains)
    ensures forall i :: 0 <= i < |order| && order[i] in chains ==> r[i] == Some(chains[order[i]])
  {
    seq(|order|, i requires 0 <= i < |order| => if order[i] in chains then Some(chains[order[i]]) else None)
  }

  /** The events of the first `updateRelatedRuleChains`: the usage query, unless the step is skipped. */
  function RelatedEvents(chainId: ChainId, result: RuleChainUpdateResult): seq<Event> {
    if SkipsRelabel(result) then [] else [Called(FindInputNodes(chainId))]
  }

  /** The chain ids the first `updateRelatedRuleChains` collects from the store `rels`. */
  ghost function RelatedIds(decode: Decoder, chainId: ChainId, result: RuleChainUpdateResult, candidates: seq<RuleNode>,
                            names: map<ChainId, string>, rels: set<Relation>): Result<set<ChainId>>
  {
    if SkipsRelabel(result) then Ok({})
    else match GetOutputLabelUsage(decode, candidates, rels, names, chainId)
      case None => Err(NullPointer)
      case Some(us) => Ok(AffectedChains(us, RenameMap(UpdatesOf(result))))
  }

  /** The store after the first `updateRelatedRuleChains`. */
  ghost function RelatedStore(decode: Decoder, chainId: ChainId, result: RuleChainUpdateResult, candidates: seq<RuleNode>,
                              names: map<ChainId, string>, rels: set<Relation>): set<Relation>
  {
    if SkipsRelabel(result) then rels
    else match GetOutputLabelUsage(decode, candidates, rels, names, chainId)
      case None => rels
      case Some(us) => RenameAllBy(rels, MatchingPairs(us, RenameMap(UpdatesOf(result))), RenameMap(UpdatesOf(result)))
  }

  /** What the first `updateRelatedRuleChains` hands back to a metadata save. */
  ghost function RelatedOutcome(decode: Decoder, chainId: ChainId, saveResult: Result<RuleChainUpdateResult>,
                                candidates: seq<RuleNode>, names: map<ChainId, string>, chains: map<ChainId, RuleChain>,
                                rels: set<Relation>, order: seq<ChainId>): Result<seq<Option<RuleChain>>>
  {
    if saveResult.Err? then Ok([])
    else match RelatedIds(decode, chainId, saveResult.value, candidates, names, rels)
      case Err(e) => Err(e)
      case Ok(_) => Ok(FindChains(order, chains))
  }

  /**
   * With no updated nodes, or with the same set of output labels before and
   * after, no related chain is queried or rewritten and the result is empty.
   */
  lemma SkippedRelabelTouchesNothing(decode: Decoder, chainId: ChainId, result: RuleChainUpdateResult,
                                     candidates: seq<RuleNode>, names: map<ChainId, string>, rels: set<Relation>,
                                     chains: map<ChainId, RuleChain>, order: seq<ChainId>)
    requires SkipsRelabel(result)
    requires IsEnumeration(order, {})
    ensures RelatedEvents(chainId, result) == []
    ensures RelatedStore(decode, chainId, result, candidates, names, rels) == rels
    ensures RelatedIds(decode, chainId, result, candidates, names, rels) == Ok({})
    ensures FindChains(order, chains) == []
  {
    EnumerationOfEmpty(order);
  }

  function RelatedEventsOf(chainId: ChainId, saveResult: Result<RuleChainUpdateResult>): seq<Event> {
    if saveResult.Err? then [] else RelatedEvents(chainId, saveResult.value)
  }

  /**
   * `ruleChainIds.stream().map(findRuleChainById)`: the chains of a set of ids,
   * in the order the set yields them (`order`).
   */
  method FindRuleChains(ids: set<ChainId>, chains: map<ChainId, RuleChain>)
    returns (found: seq<Option<RuleChain>>, ghost order: seq<ChainId>)
    ensures IsEnumeration(order, ids)
    ensures found == FindChains(order, chains)
  {
    var pending := ids;
    found, order := [], [];
    while pending != {}
      invariant pending <= ids
      invariant forall id :: id in order <==> id in ids && id !in pending
      invariant forall i, j :: 0 <= i < j < |order| ==> order[i] != order[j]
      invariant found == FindChains(order, chains)
      decreases pending
    {
      var id :| id in pending;
      found := found + [if id in chains then Some(chains[id]) else None];
      order := order + [id];
      pending := pending - {id};
    }
  }

  class RuleChainService {
    /** The relation store, as far as link rewriting reads and changes it. */
    var relations: set<Relation>
    /** The collaborator calls made so far, in order. */
    ghost var trace: seq<Event>
    /** The JSON decoder of input-node configurations. */
    const decode: Decoder

    constructor (decode: Decoder, relations: set<Relation>)
      ensures this.decode == decode && this.relations == relations && trace == []
    {
      this.decode := decode;
      this.relations := relations;
      trace := [];
    }

    /**
     * `renameOutgoingLinks`: every relation leaving the node typed `oldLabel`
     * is deleted and saved again typed `newLabel`.
     */
    method RenameOutgoingLinks(nodeId: NodeId, oldLabel: string, newLabel: string)
      modifies this
      ensures relations == RenameLinks(old(relations), nodeId, oldLabel, newLabel)
      ensures trace == old(trace)
    {
      ghost var start := relations;
      var pending := Outgoing(relations, nodeId);
      ghost var visited: set<Relation> := {};
      while pending != {}
        invariant visited + pending == Outgoing(start, nodeId) && visited !! pending
        invariant relations == (start - Selected(visited, nodeId, oldLabel)) + Retyped(Selected(visited, nodeId, oldLabel), newLabel)
        invariant trace == old(trace)
        decreases pending
      {
        var r :| r in pending;
        if r.relType == oldLabel {
          DeleteSaveStep(start, visited, r, nodeId, oldLabel, newLabel);
          relations := relations - {r};
          relations := relations + {r.(relType := newLabel)};
        } else {
          assert Selected(visited + {r}, nodeId, oldLabel) == Selected(visited, nodeId, oldLabel);
        }
        pending := pending - {r};
        visited := visited + {r};
      }
      assert Selected(visited, nodeId, oldLabel) == Selected(start, nodeId, oldLabel);
      RenameLinksAsDeleteAndSave(start, nodeId, oldLabel, newLabel);
    }

    /**
     * The `labelsMap.forEach` body for one usage: the usage's chain is collected
     * when it carries any old label, and the node's links are renamed for each
     * old label it carries. `done` are the (node, label) pairs already renamed
     * on top of the store `start`.
     */
    method RenameUsageLinks(u: Usage, labelsMap: map<string, string>,
                            ghost start: set<Relation>, ghost done: set<(NodeId, string)>)
      returns (chains: set<ChainId>)
      requires labelsMap.Keys !! labelsMap.Values ==> relations == RenameAllBy(start, done, labelsMap)
      modifies this
      ensures chains == UsageChains(u, labelsMap.Keys)
      ensures labelsMap.Keys !! labelsMap.Values ==>
        relations == RenameAllBy(start, done + UsagePairs(u, labelsMap.Keys), labelsMap)
      ensures trace == old(trace)
    {
      ghost var safe := labelsMap.Keys !! labelsMap.Values;
      chains := {};
      var keys := labelsMap.Keys;
      ghost var seen: set<string> := {};
      while keys != {}
        invariant keys + seen == labelsMap.Keys && keys !! seen
        invariant chains == UsageChains(u, seen)
        invariant safe ==> relations == RenameAllBy(start, done + UsagePairs(u, seen), labelsMap)
        invariant trace == old(trace)
        decreases keys
      {
        var k :| k in keys;
        if k in u.labels {
          chains := chains + {u.ruleChainId};
          if safe {
            RenameStep(start, done + UsagePairs(u, seen), labelsMap, u.ruleNodeId, k);
          }
          RenameOutgoingLinks(u.ruleNodeId, k, labelsMap[k]);
          assert UsagePairs(u, seen + {k}) == UsagePairs(u, seen) + {(u.ruleNodeId, k)};
          assert done + UsagePairs(u, seen + {k}) == done + UsagePairs(u, seen) + {(u.ruleNodeId, k)};
        } else {
          assert UsagePairs(u, seen + {k}) == UsagePairs(u, seen);
        }
        keys := keys - {k};
        seen := seen + {k};
      }
    }

    /**
     * The loop over the usages of the second `updateRelatedRuleChains`: the
     * chains of the usages that carry an old label, after renaming the links of
     * every matched (node, label) pair.
     */
    method RenameUsages(usages: seq<Usage>, labelsMap: map<string, string>) returns (updated: set<ChainId>)
      modifies this
      ensures updated == AffectedChains(usages, labelsMap)
      ensures labelsMap.Keys !! labelsMap.Values ==>
        relations == RenameAllBy(old(relations), MatchingPairs(usages, labelsMap), labelsMap)
      ensures trace == old(trace)
    {
      ghost var start := relations;
      ghost var safe := labelsMap.Keys !! labelsMap.Values;
      RenameByNothing(start, labelsMap);
      updated := {};
      var i := 0;
      while i < |usages|
        invariant 0 <= i <= |usages|
        invariant updated == AffectedChains(usages[..i], labelsMap)
        invariant safe ==> relations == RenameAllBy(start, MatchingPairs(usages[..i], labelsMap), labelsMap)
        invariant trace == old(trace)
      {
        var chains := RenameUsageLinks(usages[i], labelsMap, start, MatchingPairs(usages[..i], labelsMap));
        updated := updated + chains;
        assert usages[..i + 1] == usages[..i] + [usages[i]];
        MatchesSnoc(usages[..i], usages[i], labelsMap);
        i := i + 1;
      }
      assert usages[..i] == usages;
    }

    /**
     * The second `updateRelatedRuleChains`: for every usage of the chain and
     * every old label it carries, the usage's chain is collected and the node's
     * links are renamed. `candidates` and `names` are the storage's answers to
     * the input-node query and the chain lookups; an unresolvable chain name
     * fails the call.
     */
    method UpdateRelatedRuleChainsByMap(chainId: ChainId, labelsMap: map<string, string>,
                                        candidates: seq<RuleNode>, names: map<ChainId, string>)
      returns (r: Result<set<ChainId>>)
      modifies this
      ensures trace == old(trace) + [Called(FindInputNodes(chainId))]
      ensures GetOutputLabelUsage(decode, candidates, old(relations), names, chainId).None? ==>
        r == Err(NullPointer) && relations == old(relations)
      ensures GetOutputLabelUsage(decode, candidates, old(relations), names, chainId).Some? ==>
        r == Ok(AffectedChains(GetOutputLabelUsage(decode, candidates, old(relations), names, chainId).value, labelsMap))
      ensures GetOutputLabelUsage(decode, candidates, old(relations), names, chainId).Some? && labelsMap.Keys !! labelsMap.Values ==>
        relations == RenameAllBy(old(relations),
                                 MatchingPairs(GetOutputLabelUsage(decode, candidates, old(relations), names, chainId).value, labelsMap),
                                 labelsMap)
    {
      trace := trace + [Called(FindInputNodes(chainId))];
      var usage := GetOutputLabelUsage(decode, candidates, relations, names, chainId);
      if usage.None? {
        return Err(NullPointer);
      }
      var updated := RenameUsages(usage.value, labelsMap);
      return Ok(updated);
    }

    /**
     * The first `updateRelatedRuleChains`: the rename map of the saved nodes is
     * applied to the chains using this chain, unless no output label changed,
     * and the affected chains are looked up in the order the id set yields
     * them. `chains` are the chains storage finds by id.
     */
    method UpdateRelatedRuleChains(chainId: ChainId, result: RuleChainUpdateResult, candidates: seq<RuleNode>,
                                   names: map<ChainId, string>, chains: map<ChainId, RuleChain>)
      returns (r: Result<seq<Option<RuleChain>>>, ghost order: seq<ChainId>)
      modifies this
      ensures trace == old(trace) + RelatedEvents(chainId, result)
      ensures relations == RelatedStore(decode, chainId, result, candidates, names, old(relations))
      ensures RelatedIds(decode, chainId, result, candidates, names, old(relations)).Err? ==> r == Err(NullPointer)
      ensures RelatedIds(decode, chainId, result, candidates, names, old(relations)).Ok? ==>
        IsEnumeration(order, RelatedIds(decode, chainId, result, candidates, names, old(relations)).value) &&
        r == Ok(FindChains(order, chains))
    {
      order := [];
      if result.updatedNodes.None? || |result.updatedNodes.value| == 0 {
        return Ok([]), order;
      }
      var updates := result.updatedNodes.value;
      var oldLabels, newLabels, updatedLabels := ComputeLabelChanges(updates);
      var ruleChainIds: set<ChainId> := {};
      if oldLabels != newLabels {
        RenameMapSafe(updates);
        var ids := UpdateRelatedRuleChainsByMap(chainId, updatedLabels, candidates, names);
        if ids.Err? {
          return Err(ids.error), order;
        }
        ruleChainIds := ids.value;
      }
      var found;
      found, order := FindRuleChains(ruleChainIds, chains);
      return Ok(found), order;
    }

    /** `save`: `saved` is the storage's answer to `saveRuleChain`, absent or failed as the case may be. */
    method Save(chain: RuleChain, saved: Result<RuleChain>) returns (r: Result<RuleChain>)
      modifies this
      ensures r == SaveRun(chain, saved).result
      ensures trace == old(trace) + SaveRun(chain, saved).events
      ensures relations == old(relations)
    {
      var actionType := if chain.id.None? then ActionType.Added else ActionType.Updated;
      trace := trace + [Called(SaveRuleChain(chain))];
      if saved.Err? {
        trace := trace + [FailureNote(Some(chain), actionType)];
        return Err(saved.error);
      }
      var savedChain := saved.value;
      if savedChain.chainType == Core {
        trace := trace + [Broadcast(savedChain.id, if actionType == ActionType.Added then LifecycleEvent.Created else LifecycleEvent.Updated)];
      }
      var isSendMsg := savedChain.chainType == Edge && actionType == ActionType.Updated;
      trace := trace + [Notified(CreateUpdateDelete(savedChain.id, Some(savedChain), actionType, isSendMsg, false))];
      return Ok(savedChain);
    }

    /** `saveDefaultByName`: `created` is what the installer returns for `name`. */
    method SaveDefaultByName(name: string, created: Result<RuleChain>) returns (r: Result<RuleChain>)
      modifies this
      ensures r == SaveDefaultRun(name, created).result
      ensures trace == old(trace) + SaveDefaultRun(name, created).events
      ensures relations == old(relations)
    {
      trace := trace + [Called(CreateDefaultRuleChain(name))];
      if created.Err? {
        trace := trace + [FailureNote(Some(RuleChain(None, name, Core)), ActionType.Added)];
        return Err(created.error);
      }
      var savedChain := created.value;
      trace := trace + [Broadcast(savedChain.id, LifecycleEvent.Created)];
      trace := trace + [Notified(CreateUpdateDelete(savedChain.id, Some(savedChain), ActionType.Added, false, false))];
      return Ok(savedChain);
    }

    /** The `forEach` of `delete` broadcasting UPDATED to every referencing chain, in the set's order. */
    method BroadcastReferencing(ids: set<ChainId>) returns (ghost order: seq<ChainId>)
      modifies this
      ensures IsEnumeration(order, ids)
      ensures trace == old(trace) + BroadcastAll(order, LifecycleEvent.Updated)
      ensures relations == old(relations)
    {
      order := [];
      var pending := ids;
      while pending != {}
        invariant pending <= ids
        invariant forall id :: id in order <==> id in ids && id !in pending
        invariant forall i, j :: 0 <= i < j < |order| ==> order[i] != order[j]
        invariant trace == old(trace) + BroadcastAll(order, LifecycleEvent.Updated)
        invariant relations == old(relations)
        decreases pending
      {
        var id :| id in pending;
        BroadcastAllSnoc(order, id, LifecycleEvent.Updated);
        trace := trace + [Broadcast(Some(id), LifecycleEvent.Updated)];
        order := order + [id];
        pending := pending - {id};
      }
    }

    /**
     * `delete`: `referencing` is the storage's list of nodes referencing the
     * chain, `relatedEdges` its related edges, `deleted` the outcome of the
     * deletion; `order` is the order the referencing chain ids were broadcast in.
     */
    method Delete(chain: RuleChain, referencing: Result<seq<RuleNode>>, relatedEdges: Result<seq<EdgeId>>,
                  deleted: Result<()>)
      returns (r: Result<()>, ghost order: seq<ChainId>)
      modifies this
      ensures r == DeleteRun(chain, referencing, relatedEdges, deleted, order).result
      ensures trace == old(trace) + DeleteRun(chain, referencing, relatedEdges, deleted, order).events
      ensures r.Ok? && chain.chainType == Core ==> IsEnumeration(order, OtherReferencingChains(chain, referencing.value))
      ensures relations == old(relations)
    {
      order := [];
      var stored := DeleteFromStorage(chain, referencing, relatedEdges, deleted);
      if stored.Err? {
        return Err(stored.error), order;
      }
      var referencingIds := set n | n in referencing.value :: n.chainId;
      if chain.id.Some? {
        referencingIds := referencingIds - {chain.id.value};
      }
      order := AnnounceDeletion(chain, referencingIds, stored.value);
      return Ok(()), order;
    }

    /** The storage phase of `delete`: read the referencing nodes, look up edges for an EDGE chain, delete. */
    method DeleteFromStorage(chain: RuleChain, referencing: Result<seq<RuleNode>>, relatedEdges: Result<seq<EdgeId>>,
                             deleted: Result<()>)
      returns (r: Result<Option<seq<EdgeId>>>)
      modifies this
      ensures r == DeleteStorageRun(chain, referencing, relatedEdges, deleted).result
      ensures trace == old(trace) + DeleteStorageRun(chain, referencing, relatedEdges, deleted).events
      ensures relations == old(relations)
    {
      var fail := FailureNote(None, ActionType.Deleted);
      trace := trace + [Called(GetReferencingNodes(chain.id))];
      if referencing.Err? {
        trace := trace + [fail];
        return Err(referencing.error);
      }
      var relatedEdgeIds: Option<seq<EdgeId>> := None;
      if chain.chainType == Edge {
        trace := trace + [Called(FindRelatedEdgeIds(chain.id))];
        if relatedEdges.Err? {
          trace := trace + [fail];
          return Err(relatedEdges.error);
        }
        relatedEdgeIds := Some(relatedEdges.value);
      }
      trace := trace + [Called(DeleteRuleChain(chain.id))];
      if deleted.Err? {
        trace := trace + [fail];
        return Err(deleted.error);
      }
      return Ok(relatedEdgeIds);
    }

    /** The end of a successful `delete`: the CORE broadcasts, then the deletion notification. */
    method AnnounceDeletion(chain: RuleChain, referencingIds: set<ChainId>, relatedEdgeIds: Option<seq<EdgeId>>)
      returns (ghost order: seq<ChainId>)
      modifies this
      ensures chain.chainType == Core ==> IsEnumeration(order, referencingIds)
      ensures trace == old(trace) + DeleteAnnouncements(chain, relatedEdgeIds, order)
      ensures relations == old(relations)
    {
      order := [];
      if chain.chainType == Core {
        order := BroadcastReferencing(referencingIds);
        trace := trace + [Broadcast(chain.id, LifecycleEvent.Deleted)];
      }
      trace := trace + [Notified(RuleChainDeleted(chain, relatedEdgeIds))];
    }

    /**
     * `setRootRuleChain`, with the previous root's id read only when there is
     * a previous root. `previousRoot` is the tenant's root before the call,
     * `setResult` whether storage switched the root, `reloadedPrevious` and
     * `reloaded` the chains found by id afterwards.
     */
    method SetRootRuleChain(chain: RuleChain, previousRoot: Option<RuleChain>, setResult: Result<bool>,
                            reloadedPrevious: Option<RuleChain>, reloaded: Option<RuleChain>)
      returns (r: Result<Option<RuleChain>>)
      modifies this
      ensures r == SetRootCorrected(chain, previousRoot, setResult, reloadedPrevious, reloaded).result
      ensures trace == old(trace) + SetRootCorrected(chain, previousRoot, setResult, reloadedPrevious, reloaded).events
      ensures relations == old(relations)
    {
      trace := trace + [Called(GetRootRuleChain)];
      trace := trace + [Called(StorageCall.SetRootRuleChain(chain.id))];
      if setResult.Err? {
        trace := trace + [FailureNote(Some(chain), ActionType.Updated)];
        return Err(setResult.error);
      }
      if !setResult.value {
        return Ok(Some(chain));
      }
      if previousRoot.Some? {
        var previousId := previousRoot.value.id;
        trace := trace + [Broadcast(previousId, LifecycleEvent.Updated)];
        trace := trace + [Notified(CreateUpdateDelete(previousId, reloadedPrevious, ActionType.Updated, false, false))];
      }
      trace := trace + [Broadcast(chain.id, LifecycleEvent.Updated)];
      trace := trace + [Notified(CreateUpdateDelete(chain.id, reloaded, ActionType.Updated, false, false))];
      return Ok(reloaded);
    }

    /**
     * `assignRuleChainToEdge` (`assign`) and `unassignRuleChainToEdge`:
     * `stored` is the storage's answer.
     */
    method AssignRuleChainToEdge(chain: RuleChain, edge: EdgeRef, assign: bool, stored: Result<RuleChain>)
      returns (r: Result<RuleChain>)
      modifies this
      ensures r == AssignmentRun(chain, edge, assign, stored).result
      ensures trace == old(trace) + AssignmentRun(chain, edge, assign, stored).events
      ensures relations == old(relations)
    {
      var actionType := AssignmentAction(assign);
      if assign {
        trace := trace + [Called(AssignToEdge(chain.id, edge.id))];
      } else {
        trace := trace + [Called(UnassignFromEdge(chain.id, edge.id))];
      }
      if stored.Err? {
        trace := trace + [FailureNote(None, actionType)];
        return Err(stored.error);
      }
      trace := trace + [Notified(EdgeAssignment(chain.id, edge, stored.value, actionType))];
      return Ok(stored.value);
    }

    /**
     * `setEdgeTemplateRootRuleChain`, `setAutoAssignToEdgeRuleChain` and
     * `unsetAutoAssignToEdgeRuleChain`, told apart by `flag`: `outcome` is whether
     * the storage call succeeded.
     */
    method SetRuleChainFlag(chain: RuleChain, flag: Flag, outcome: Result<()>) returns (r: Result<RuleChain>)
      modifies this
      ensures r == FlagRun(chain, flag, outcome).result
      ensures trace == old(trace) + FlagRun(chain, flag, outcome).events
      ensures relations == old(relations)
    {
      trace := trace + [Called(SetFlag(chain.id, flag))];
      if outcome.Err? {
        trace := trace + [FailureNote(None, ActionType.Updated)];
        return Err(outcome.error);
      }
      trace := trace + [Notified(CreateUpdateDelete(chain.id, Some(chain), ActionType.Updated, false, false))];
      return Ok(chain);
    }

    /** The CORE loop of `saveRuleChainMetaData` broadcasting every related chain. */
    method BroadcastRelated(updated: seq<Option<RuleChain>>) returns (failure: Option<Failure>)
      modifies this
      ensures failure == RelatedBroadcasts(updated).failure
      ensures trace == old(trace) + RelatedBroadcasts(updated).events
      ensures relations == old(relations)
    {
      var i := 0;
      while i < |updated|
        invariant 0 <= i <= |updated|
        invariant RelatedBroadcasts(updated[..i]).failure.None?
        invariant trace == old(trace) + RelatedBroadcasts(updated[..i]).events
        invariant relations == old(relations)
      {
        assert updated[..i + 1] == updated[..i] + [updated[i]];
        assert [updated[i]][1..] == [];
        RelatedBroadcastsAppend(updated[..i], [updated[i]]);
        if updated[i].None? {
          assert updated[..i + 1] + updated[i + 1..] == updated;
          RelatedBroadcastsAppend(updated[..i + 1], updated[i + 1..]);
          return Some(NullPointer);
        }
        trace := trace + [Broadcast(updated[i].value.id, LifecycleEvent.Updated)];
        i := i + 1;
      }
      assert updated[..i] == updated;
      return None;
    }

    /** The loop of `saveRuleChainMetaData` telling edges about, or notifying, every related chain. */
    method NotifyRelated(updated: seq<Option<RuleChain>>, primaryIsEdge: bool, loadable: set<ChainId>)
      returns (failure: Option<Failure>)
      modifies this
      ensures failure == RelatedNotifications(updated, primaryIsEdge, loadable).failure
      ensures trace == old(trace) + RelatedNotifications(updated, primaryIsEdge, loadable).events
      ensures relations == old(relations)
    {
      var i := 0;
      while i < |updated|
        invariant 0 <= i <= |updated|
        invariant RelatedNotifications(updated[..i], primaryIsEdge, loadable).failure.None?
        invariant trace == old(trace) + RelatedNotifications(updated[..i], primaryIsEdge, loadable).events
        invariant relations == old(relations)
      {
        assert updated[..i + 1] == updated[..i] + [updated[i]];
        assert [updated[i]][1..] == [];
        RelatedNotificationsAppend(updated[..i], [updated[i]], primaryIsEdge, loadable);
        assert updated[..i + 1] + updated[i + 1..] == updated;
        if updated[i].None? {
          RelatedNotificationsAppend(updated[..i + 1], updated[i + 1..], primaryIsEdge, loadable);
          return Some(NullPointer);
        }
        var c := updated[i].value;
        if primaryIsEdge {
          trace := trace + [EdgeMessage(c.id)];
        } else {
          if c.id.None? || c.id.value !in loadable {
            RelatedNotificationsAppend(updated[..i + 1], updated[i + 1..], primaryIsEdge, loadable);
            return Some(Absent);
          }
          trace := trace + [Notified(CreateUpdateDelete(c.id, Some(c), ActionType.Updated, false, false))];
        }
        i := i + 1;
      }
      assert updated[..i] == updated;
      return None;
    }

    /** Lines 274-282 of `saveRuleChainMetaData`: the save, its success check, the related chains when asked. */
    method Prepare(metaDataId: ChainId, updateRelated: bool, saveResult: Result<RuleChainUpdateResult>,
                   candidates: seq<RuleNode>, names: map<ChainId, string>, chains: map<ChainId, RuleChain>)
      returns (r: Result<seq<Option<RuleChain>>>, ghost order: seq<ChainId>, ghost related: Result<seq<Option<RuleChain>>>)
      modifies this
      ensures related == RelatedOutcome(decode, metaDataId, saveResult, candidates, names, chains, old(relations), order)
      ensures var run := PrepareRun(metaDataId, updateRelated, saveResult, related, RelatedEventsOf(metaDataId, saveResult));
        r == run.result && trace == old(trace) + run.events
      ensures relations == if updateRelated && saveResult.Ok? && saveResult.value.success
        then RelatedStore(decode, metaDataId, saveResult.value, candidates, names, old(relations))
        else old(relations)
      ensures updateRelated && saveResult.Ok? && saveResult.value.success &&
              RelatedIds(decode, metaDataId, saveResult.value, candidates, names, old(relations)).Ok? ==>
        IsEnumeration(order, RelatedIds(decode, metaDataId, saveResult.value, candidates, names, old(relations)).value)
    {
      order := [];
      related := RelatedOutcome(decode, metaDataId, saveResult, candidates, names, chains, relations, order);
      trace := trace + [Called(SaveMetaData(metaDataId))];
      if saveResult.Err? {
        return Err(saveResult.error), order, related;
      }
      var result := saveResult.value;
      if !result.success {
        return Err(Absent), order, related;
      }
      if !updateRelated {
        return Ok([]), order, related;
      }
      ghost var rels := relations;
      r, order := UpdateRelatedRuleChains(metaDataId, result, candidates, names, chains);
      related := RelatedOutcome(decode, metaDataId, saveResult, candidates, names, chains, rels, order);
    }

    /** Lines 286-291 of `saveRuleChainMetaData`: a CORE chain and its related chains are broadcast as UPDATED. */
    method BroadcastCore(chain: RuleChain, updatedRuleChains: seq<Option<RuleChain>>) returns (failure: Option<Failure>)
      modifies this
      ensures failure == CoreBroadcasts(chain, updatedRuleChains).failure
      ensures trace == old(trace) + CoreBroadcasts(chain, updatedRuleChains).events
      ensures relations == old(relations)
    {
      failure := None;
      if chain.chainType == Core {
        trace := trace + [Broadcast(chain.id, LifecycleEvent.Updated)];
        failure := BroadcastRelated(updatedRuleChains);
      }
    }

    /** The part of `saveRuleChainMetaData` after the related chains are known. */
    method Publish(chain: RuleChain, updatedRuleChains: seq<Option<RuleChain>>, reloaded: Option<RuleChainMetaData>,
                   loadable: set<ChainId>)
      returns (r: Result<RuleChainMetaData>)
      modifies this
      ensures r == PublishRun(chain, updatedRuleChains, reloaded, loadable).result
      ensures trace == old(trace) + PublishRun(chain, updatedRuleChains, reloaded, loadable).events
      ensures relations == old(relations)
    {
      var fail := FailureNote(None, ActionType.Added);
      if reloaded.None? {
        trace := trace + [fail];
        return Err(Absent);
      }
      var coreFailure := BroadcastCore(chain, updatedRuleChains);
      if coreFailure.Some? {
        trace := trace + [fail];
        return Err(coreFailure.value);
      }
      trace := trace + [Notified(CreateUpdateDelete(chain.id, Some(chain), ActionType.Updated, false, false))];
      if chain.chainType == Edge {
        trace := trace + [EdgeMessage(chain.id)];
      }
      var failure := NotifyRelated(updatedRuleChains, chain.chainType == Edge, loadable);
      if failure.Some? {
        trace := trace + [fail];
        return Err(failure.value);
      }
      return Ok(reloaded.value);
    }

    /**
     * `saveRuleChainMetaData`: `saveResult` is the storage's answer to the save,
     * `candidates`, `names` and `chains` what storage answers while related
     * chains are updated, `reloaded` the metadata loaded afterwards and
     * `loadable` the related chains whose metadata storage can load.
     */
    method SaveRuleChainMetaData(chain: RuleChain, metaData: RuleChainMetaData, updateRelated: bool,
                                 saveResult: Result<RuleChainUpdateResult>, candidates: seq<RuleNode>,
                                 names: map<ChainId, string>, chains: map<ChainId, RuleChain>,
                                 reloaded: Option<RuleChainMetaData>, loadable: set<ChainId>)
      returns (r: Result<RuleChainMetaData>, ghost order: seq<ChainId>, ghost related: Result<seq<Option<RuleChain>>>)
      modifies this
      ensures related == RelatedOutcome(decode, metaData.chainId, saveResult, candidates, names, chains, old(relations), order)
      ensures var run := SaveMetaDataRun(chain, metaData.chainId, updateRelated, saveResult, related,
                                         RelatedEventsOf(metaData.chainId, saveResult), reloaded, loadable);
        r == run.result && trace == old(trace) + run.events
      ensures relations == if updateRelated && saveResult.Ok? && saveResult.value.success
        then RelatedStore(decode, metaData.chainId, saveResult.value, candidates, names, old(relations))
        else old(relations)
      ensures updateRelated && saveResult.Ok? && saveResult.value.success &&
              RelatedIds(decode, metaData.chainId, saveResult.value, candidates, names, old(relations)).Ok? ==>
        IsEnumeration(order, RelatedIds(decode, metaData.chainId, saveResult.value, candidates, names, old(relations)).value)
    {
      var prepared;
      prepared, order, related := Prepare(metaData.chainId, updateRelated, saveResult, candidates, names, chains);
      if prepared.Err? {
        trace := trace + [FailureNote(None, ActionType.Added)];
        return Err(prepared.error), order, related;
      }
      r := Publish(chain, prepared.value, reloaded, loadable);
    }
  }
}
