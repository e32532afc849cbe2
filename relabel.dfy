/**
 * The relabel engine: which output labels a metadata save renamed, and how a
 * rename rewrites the relation store.
 */
module Relabel {
  import opened Wrappers
  import opened RuleModel
  import opened UsageIndex

  // ---------------------------------------------------------------------------
  // The rename map computed from the updated nodes
  // ---------------------------------------------------------------------------

  /**
   * An update takes part when its new node is an output node. A missing old node
   * throws inside the `try` before anything is recorded, so it takes no part.
   */
  predicate Counts(u: NodeUpdate) {
    IsOutputRuleNode(u.newNode) && u.oldNode.Some?
  }

  function OldName(u: NodeUpdate): string requires Counts(u) { u.oldNode.value.name }
  function NewName(u: NodeUpdate): string requires Counts(u) { u.newNode.value.name }

  function OldLabels(updates: seq<NodeUpdate>): set<string> {
    set u | u in updates && Counts(u) :: OldName(u)
  }

  function NewLabels(updates: seq<NodeUpdate>): set<string> {
    set u | u in updates && Counts(u) :: NewName(u)
  }

  /** The new names proposed for `label` by output nodes that were renamed away from it. */
  function Proposals(updates: seq<NodeUpdate>, key: string): set<string> {
    set u | u in updates && Counts(u) && OldName(u) == key && NewName(u) != key :: NewName(u)
  }

  predicate IsSingleton(s: set<string>) {
    s != {} && forall a, b :: a in s && b in s ==> a == b
  }

  /** A label renamed to two or more different names. */
  predicate Confused(updates: seq<NodeUpdate>, key: string) {
    Proposals(updates, key) != {} && !IsSingleton(Proposals(updates, key))
  }

  ghost function Only(s: set<string>): string
    requires s != {}
  {
    var x :| x in s; x
  }

  /**
   * The rename map as the code leaves it: every old label with exactly one
   * proposed new name, except labels that remain the name of some output node.
   */
  ghost function RenameMap(updates: seq<NodeUpdate>): map<string, string> {
    map key | key in OldLabels(updates) && IsSingleton(Proposals(updates, key)) && key !in NewLabels(updates)
      :: Only(Proposals(updates, key))
  }

  lemma ProposalsSnoc(p: seq<NodeUpdate>, u: NodeUpdate, key: string)
    ensures Proposals(p + [u], key) ==
            Proposals(p, key) + (if Counts(u) && OldName(u) == key && NewName(u) != key then {NewName(u)} else {})
  {
    var q := p + [u];
    forall v | v in q ensures v in p || v == u { }
    forall v | v in p ensures v in q { }
  }

  lemma LabelsSnoc(p: seq<NodeUpdate>, u: NodeUpdate)
    ensures OldLabels(p + [u]) == OldLabels(p) + (if Counts(u) then {OldName(u)} else {})
    ensures NewLabels(p + [u]) == NewLabels(p) + (if Counts(u) then {NewName(u)} else {})
  {
    var q := p + [u];
    forall v | v in q ensures v in p || v == u { }
    forall v | v in p ensures v in q { }
  }

  lemma ProposedLabelIsOld(updates: seq<NodeUpdate>, key: string)
    requires Proposals(updates, key) != {}
    ensures key in OldLabels(updates)
  {
    var x :| x in Proposals(updates, key);
    var u :| u in updates && Counts(u) && OldName(u) == key && NewName(u) != key && NewName(u) == x;
  }

  /** What the fold has built after the prefix `p`: each proposed label maps to its first proposal, conflicts are recorded. */
  ghost predicate FoldInv(p: seq<NodeUpdate>, folded: map<string, string>, confused: set<string>) {
    && (forall k :: k in folded <==> Proposals(p, k) != {})
    && (forall k :: k in folded ==> folded[k] in Proposals(p, k))
    && (forall k :: k in confused <==> k in folded && Proposals(p, k) != {folded[k]})
  }

  /** The transition of the fold for one update. */
  ghost predicate FoldTransition(u: NodeUpdate, folded: map<string, string>, confused: set<string>,
                                 folded': map<string, string>, confused': set<string>) {
    if Counts(u) && OldName(u) != NewName(u) then
      if OldName(u) in folded && folded[OldName(u)] != NewName(u) then
        folded' == folded && confused' == confused + {OldName(u)}
      else
        folded' == folded[OldName(u) := NewName(u)] && confused' == confused
    else
      folded' == folded && confused' == confused
  }

  lemma FoldStepAt(p: seq<NodeUpdate>, u: NodeUpdate, folded: map<string, string>, confused: set<string>,
                   folded': map<string, string>, confused': set<string>, k: string)
    requires FoldInv(p, folded, confused)
    requires FoldTransition(u, folded, confused, folded', confused')
    ensures k in folded' <==> Proposals(p + [u], k) != {}
    ensures k in folded' ==> folded'[k] in Proposals(p + [u], k)
    ensures k in confused' <==> k in folded' && Proposals(p + [u], k) != {folded'[k]}
  {
    ProposalsSnoc(p, u, k);
    var P := Proposals(p, k);
    if Counts(u) && OldName(u) == k && NewName(u) != k {
      var q := NewName(u);
      assert Proposals(p + [u], k) == P + {q};
      if k in folded && folded[k] != q {
        assert q in P + {q} && q != folded[k];
      } else if k in folded {
        assert folded'[k] == q;
        assert folded[k] in P;
        assert P + {q} == P;
      } else {
        assert P == {};
        assert k !in confused;
        assert P + {q} == {q};
      }
    } else {
      assert Proposals(p + [u], k) == P;
      if Counts(u) && OldName(u) != NewName(u) {
        assert OldName(u) != k;
      }
    }
  }

  lemma FoldStep(p: seq<NodeUpdate>, u: NodeUpdate, oldLabels: set<string>, newLabels: set<string>,
                 folded: map<string, string>, confused: set<string>,
                 oldLabels': set<string>, newLabels': set<string>,
                 folded': map<string, string>, confused': set<string>)
    requires oldLabels == OldLabels(p) && newLabels == NewLabels(p)
    requires FoldInv(p, folded, confused)
    requires oldLabels' == oldLabels + (if Counts(u) then {OldName(u)} else {})
    requires newLabels' == newLabels + (if Counts(u) then {NewName(u)} else {})
    requires FoldTransition(u, folded, confused, folded', confused')
    ensures oldLabels' == OldLabels(p + [u]) && newLabels' == NewLabels(p + [u])
    ensures FoldInv(p + [u], folded', confused')
  {
    LabelsSnoc(p, u);
    forall k ensures (k in folded' <==> Proposals(p + [u], k) != {})
                  && (k in folded' ==> folded'[k] in Proposals(p + [u], k))
                  && (k in confused' <==> k in folded' && Proposals(p + [u], k) != {folded'[k]}) {
      FoldStepAt(p, u, folded, confused, folded', confused', k);
    }
  }

  /** One iteration of the fold (:134-154): an output node records its labels and, when renamed, its proposal. */
  method FoldUpdate(update: NodeUpdate, oldLabels: set<string>, newLabels: set<string>,
                    updatedLabels: map<string, string>, confusedLabels: set<string>)
    returns (oldLabels': set<string>, newLabels': set<string>,
             updatedLabels': map<string, string>, confusedLabels': set<string>)
    ensures oldLabels' == oldLabels + (if Counts(update) then {OldName(update)} else {})
    ensures newLabels' == newLabels + (if Counts(update) then {NewName(update)} else {})
    ensures FoldTransition(update, updatedLabels, confusedLabels, updatedLabels', confusedLabels')
  {
    oldLabels', newLabels', updatedLabels', confusedLabels' := oldLabels, newLabels, updatedLabels, confusedLabels;
    if IsOutputRuleNode(update.newNode) && update.oldNode.Some? {
      var oldNode, newNode := update.oldNode.value, update.newNode.value;
      oldLabels' := oldLabels' + {oldNode.name};
      newLabels' := newLabels' + {newNode.name};
      if oldNode.name != newNode.name {
        var oldLabel, newLabel := oldNode.name, newNode.name;
        if oldLabel in updatedLabels' && updatedLabels'[oldLabel] != newLabel {
          confusedLabels' := confusedLabels' + {oldLabel};
        } else {
          updatedLabels' := updatedLabels'[oldLabel := newLabel];
        }
      }
    }
  }

  /** The fold state after the prefix `p`: the label sets and `FoldInv`. */
  ghost predicate FoldState(p: seq<NodeUpdate>, oldLabels: set<string>, newLabels: set<string>,
                            folded: map<string, string>, confused: set<string>) {
    oldLabels == OldLabels(p) && newLabels == NewLabels(p) && FoldInv(p, folded, confused)
  }

  /** `FoldUpdate` carries the fold state from a prefix to the prefix extended by the update. */
  method FoldUpdateStep(ghost p: seq<NodeUpdate>, update: NodeUpdate, oldLabels: set<string>, newLabels: set<string>,
                        updatedLabels: map<string, string>, confusedLabels: set<string>)
    returns (oldLabels': set<string>, newLabels': set<string>,
             updatedLabels': map<string, string>, confusedLabels': set<string>)
    requires FoldState(p, oldLabels, newLabels, updatedLabels, confusedLabels)
    ensures FoldState(p + [update], oldLabels', newLabels', updatedLabels', confusedLabels')
  {
    oldLabels', newLabels', updatedLabels', confusedLabels' := FoldUpdate(update, oldLabels, newLabels, updatedLabels, confusedLabels);
    FoldStep(p, update, oldLabels, newLabels, updatedLabels, confusedLabels, oldLabels', newLabels', updatedLabels', confusedLabels');
  }

  /**
   * The fold of the first `updateRelatedRuleChains` together with the two
   * removals that follow it.
   */
  method ComputeLabelChanges(updates: seq<NodeUpdate>)
    returns (oldLabels: set<string>, newLabels: set<string>, updatedLabels: map<string, string>)
    ensures oldLabels == OldLabels(updates) && newLabels == NewLabels(updates)
    ensures updatedLabels == RenameMap(updates)
  {
    var confusedLabels;
    oldLabels, newLabels, updatedLabels, confusedLabels := FoldUpdates(updates);
    ghost var folded := updatedLabels;
    // Labels renamed to two or more different labels cannot be renamed.
    updatedLabels := updatedLabels - confusedLabels;
    // Labels still carried by some output node are not renamed.
    updatedLabels := updatedLabels - newLabels;
    FilteredIsRenameMap(updates, folded, confusedLabels);
  }

  /** The loop of :133-155 over the updated nodes. */
  method FoldUpdates(updates: seq<NodeUpdate>)
    returns (oldLabels: set<string>, newLabels: set<string>, updatedLabels: map<string, string>, confusedLabels: set<string>)
    ensures FoldState(updates, oldLabels, newLabels, updatedLabels, confusedLabels)
  {
    oldLabels, newLabels, updatedLabels, confusedLabels := {}, {}, map[], {};
    var i := 0;
    while i < |updates|
      invariant 0 <= i <= |updates|
      invariant FoldState(updates[..i], oldLabels, newLabels, updatedLabels, confusedLabels)
    {
      oldLabels, newLabels, updatedLabels, confusedLabels :=
        FoldUpdateStep(updates[..i], updates[i], oldLabels, newLabels, updatedLabels, confusedLabels);
      assert updates[..i + 1] == updates[..i] + [updates[i]];
      i := i + 1;
    }
    assert updates[..i] == updates;
  }

  /** Removing confused labels and labels still in use from the folded map leaves `RenameMap`. */
  lemma FilteredIsRenameMap(updates: seq<NodeUpdate>, folded: map<string, string>, confused: set<string>)
    requires FoldInv(updates, folded, confused)
    ensures folded - confused - NewLabels(updates) == RenameMap(updates)
  {
    var f := folded - confused - NewLabels(updates);
    forall k | k in f ensures k in RenameMap(updates) && f[k] == RenameMap(updates)[k] {
      ProposedLabelIsOld(updates, k);
    }
    forall k | k in RenameMap(updates) ensures k in f { }
  }

  /**
   * The safety of the computed map: no confused label and no label still in use
   * is renamed, every target is a current output name different from its source,
   * so no rename chains into another.
   */
  lemma RenameMapSafe(updates: seq<NodeUpdate>)
    ensures forall k :: k in RenameMap(updates) ==> !Confused(updates, k)
    ensures forall k :: k in RenameMap(updates) ==> k !in NewLabels(updates)
    ensures forall k :: k in RenameMap(updates) ==> RenameMap(updates)[k] in NewLabels(updates) && RenameMap(updates)[k] != k
    ensures RenameMap(updates).Keys !! RenameMap(updates).Values
  {
    var m := RenameMap(updates);
    forall k | k in m ensures m[k] in NewLabels(updates) && m[k] != k {
      var u :| u in updates && Counts(u) && OldName(u) == k && NewName(u) != k && NewName(u) == m[k];
    }
    forall v | v in m.Values ensures v !in m.Keys {
      var k :| k in m && m[k] == v;
    }
  }

  /** What a rename means: exactly the labels renamed by all their nodes to one new name. */
  lemma RenameMapCharacterization(updates: seq<NodeUpdate>, key: string, target: string)
    ensures (key in RenameMap(updates) && RenameMap(updates)[key] == target) <==>
            (Proposals(updates, key) == {target} && key !in NewLabels(updates))
  {
    if Proposals(updates, key) == {target} && key !in NewLabels(updates) {
      ProposedLabelIsOld(updates, key);
    }
  }

  /** Two nodes sharing a label that diverge to different names make that label confused, so it is not renamed. */
  lemma DivergedLabelNotRenamed(updates: seq<NodeUpdate>, i: nat, j: nat)
    requires i < |updates| && j < |updates|
    requires Counts(updates[i]) && Counts(updates[j])
    requires OldName(updates[i]) == OldName(updates[j])
    requires NewName(updates[i]) != OldName(updates[i]) && NewName(updates[j]) != OldName(updates[j])
    requires NewName(updates[i]) != NewName(updates[j])
    ensures Confused(updates, OldName(updates[i]))
    ensures OldName(updates[i]) !in RenameMap(updates)
  {
    var key := OldName(updates[i]);
    assert updates[i] in updates && updates[j] in updates;
    assert NewName(updates[i]) in Proposals(updates, key);
    assert NewName(updates[j]) in Proposals(updates, key);
  }

  // ---------------------------------------------------------------------------
  // Rewriting the relation store
  // ---------------------------------------------------------------------------

  /** A relation of `nodeId` typed `oldLabel` becomes typed `newLabel`; any other is left alone. */
  function Retype(r: Relation, nodeId: NodeId, oldLabel: string, newLabel: string): Relation {
    if r.from == nodeId && r.relType == oldLabel then r.(relType := newLabel) else r
  }

  /** The store after `renameOutgoingLinks(nodeId, oldLabel, newLabel)`. */
  function RenameLinks(rels: set<Relation>, nodeId: NodeId, oldLabel: string, newLabel: string): set<Relation> {
    set r | r in rels :: Retype(r, nodeId, oldLabel, newLabel)
  }

  /** The relations of `nodeId` typed `oldLabel`. */
  function Selected(rels: set<Relation>, nodeId: NodeId, oldLabel: string): set<Relation> {
    set r | r in rels && r.from == nodeId && r.relType == oldLabel
  }

  function Retyped(sel: set<Relation>, newLabel: string): set<Relation> {
    set r | r in sel :: r.(relType := newLabel)
  }

  /** Deleting the selected relations and saving their retyped copies gives `RenameLinks`. */
  lemma RenameLinksAsDeleteAndSave(rels: set<Relation>, nodeId: NodeId, oldLabel: string, newLabel: string)
    ensures RenameLinks(rels, nodeId, oldLabel, newLabel) ==
            (rels - Selected(rels, nodeId, oldLabel)) + Retyped(Selected(rels, nodeId, oldLabel), newLabel)
  {
    var lhs := RenameLinks(rels, nodeId, oldLabel, newLabel);
    var rhs := (rels - Selected(rels, nodeId, oldLabel)) + Retyped(Selected(rels, nodeId, oldLabel), newLabel);
    forall x | x in lhs ensures x in rhs {
      var r :| r in rels && x == Retype(r, nodeId, oldLabel, newLabel);
      if r.from == nodeId && r.relType == oldLabel {
        assert r in Selected(rels, nodeId, oldLabel);
      }
    }
    forall x | x in rhs ensures x in lhs {
      if x in Retyped(Selected(rels, nodeId, oldLabel), newLabel) {
        var r :| r in Selected(rels, nodeId, oldLabel) && x == r.(relType := newLabel);
        assert x == Retype(r, nodeId, oldLabel, newLabel);
      } else {
        assert x == Retype(x, nodeId, oldLabel, newLabel);
      }
    }
  }

  /**
   * `renameOutgoingLinks` keeps endpoints: every relation of the node typed
   * `oldLabel` is now typed `newLabel`, every other relation is kept, nothing
   * else appears, and (for a real rename) no relation of the node keeps `oldLabel`.
   */
  lemma RenameLinksSpec(rels: set<Relation>, nodeId: NodeId, oldLabel: string, newLabel: string)
    ensures forall r :: r in rels && r.from == nodeId && r.relType == oldLabel ==>
              r.(relType := newLabel) in RenameLinks(rels, nodeId, oldLabel, newLabel)
    ensures forall r :: r in rels && !(r.from == nodeId && r.relType == oldLabel) ==>
              r in RenameLinks(rels, nodeId, oldLabel, newLabel)
    ensures forall x :: x in RenameLinks(rels, nodeId, oldLabel, newLabel) ==>
              (x in rels && !(x.from == nodeId && x.relType == oldLabel)) ||
              (x.from == nodeId && x.relType == newLabel && x.(relType := oldLabel) in rels)
    ensures oldLabel != newLabel ==>
              forall x :: x in RenameLinks(rels, nodeId, oldLabel, newLabel) ==> !(x.from == nodeId && x.relType == oldLabel)
  {
    forall r | r in rels && r.from == nodeId && r.relType == oldLabel
      ensures r.(relType := newLabel) in RenameLinks(rels, nodeId, oldLabel, newLabel) {
      assert Retype(r, nodeId, oldLabel, newLabel) == r.(relType := newLabel);
    }
    forall r | r in rels && !(r.from == nodeId && r.relType == oldLabel)
      ensures r in RenameLinks(rels, nodeId, oldLabel, newLabel) {
      assert Retype(r, nodeId, oldLabel, newLabel) == r;
    }
    forall x | x in RenameLinks(rels, nodeId, oldLabel, newLabel)
      ensures (x in rels && !(x.from == nodeId && x.relType == oldLabel)) ||
              (x.from == nodeId && x.relType == newLabel && x.(relType := oldLabel) in rels) {
      var r :| r in rels && x == Retype(r, nodeId, oldLabel, newLabel);
      if r.from == nodeId && r.relType == oldLabel {
        assert x.(relType := oldLabel) == r;
      }
    }
  }

  // ---------------------------------------------------------------------------
  // Applying a whole rename map
  // ---------------------------------------------------------------------------

  /** A relation whose (source node, type) pair was processed takes the map's new label. */
  function RenameBy(r: Relation, done: set<(NodeId, string)>, m: map<string, string>): Relation {
    if (r.from, r.relType) in done && r.relType in m then r.(relType := m[r.relType]) else r
  }

  function RenameAllBy(rels: set<Relation>, done: set<(NodeId, string)>, m: map<string, string>): set<Relation> {
    set r | r in rels :: RenameBy(r, done, m)
  }

  /** The (node, old label) pairs the second `updateRelatedRuleChains` renames. */
  function MatchingPairs(usages: seq<Usage>, m: map<string, string>): set<(NodeId, string)> {
    set u, k | u in usages && k in m && k in u.labels :: (u.ruleNodeId, k)
  }

  lemma RenameByNothing(rels: set<Relation>, m: map<string, string>)
    ensures RenameAllBy(rels, {}, m) == rels
  {
    forall r | r in rels ensures RenameBy(r, {}, m) == r { }
    forall x | x in RenameAllBy(rels, {}, m) ensures x in rels {
      var r :| r in rels && x == RenameBy(r, {}, m);
    }
  }

  /**
   * When no new label is itself an old label, renaming one more (node, label)
   * pair on top of already processed pairs is the same as processing them all
   * at once: the order in which the map is applied does not matter.
   */
  lemma RenameStep(rels: set<Relation>, done: set<(NodeId, string)>, m: map<string, string>, nodeId: NodeId, key: string)
    requires m.Keys !! m.Values
    requires key in m
    ensures RenameLinks(RenameAllBy(rels, done, m), nodeId, key, m[key]) == RenameAllBy(rels, done + {(nodeId, key)}, m)
  {
    var cur := RenameAllBy(rels, done, m);
    var done' := done + {(nodeId, key)};
    forall r | r in rels ensures Retype(RenameBy(r, done, m), nodeId, key, m[key]) == RenameBy(r, done', m) {
      if (r.from, r.relType) in done && r.relType in m {
        assert m[r.relType] in m.Values;
      }
    }
    forall x | x in RenameLinks(cur, nodeId, key, m[key]) ensures x in RenameAllBy(rels, done', m) {
      var c :| c in cur && x == Retype(c, nodeId, key, m[key]);
      var r :| r in rels && c == RenameBy(r, done, m);
      assert x == RenameBy(r, done', m);
    }
    forall x | x in RenameAllBy(rels, done', m) ensures x in RenameLinks(cur, nodeId, key, m[key]) {
      var r :| r in rels && x == RenameBy(r, done', m);
      assert RenameBy(r, done, m) in cur;
      assert x == Retype(RenameBy(r, done, m), nodeId, key, m[key]);
    }
  }

  /**
   * The net effect of applying a safe map: a relation is retyped exactly when
   * its node and type were matched, and then to the type's new label.
   */
  lemma RenameAllBySpec(rels: set<Relation>, done: set<(NodeId, string)>, m: map<string, string>, r: Relation)
    requires r in rels
    ensures (r.from, r.relType) in done && r.relType in m ==> r.(relType := m[r.relType]) in RenameAllBy(rels, done, m)
    ensures !((r.from, r.relType) in done && r.relType in m) ==> r in RenameAllBy(rels, done, m)
  {
    assert RenameBy(r, done, m) in RenameAllBy(rels, done, m);
  }

  /**
   * Once a safe map has been applied, no relation is left whose node and type
   * form a matched pair: every matched link now carries its new label.
   */
  lemma RenameAllByClearsMatches(rels: set<Relation>, done: set<(NodeId, string)>, m: map<string, string>)
    requires m.Keys !! m.Values
    requires forall p :: p in done ==> p.1 in m
    ensures forall x :: x in RenameAllBy(rels, done, m) ==> (x.from, x.relType) !in done
  {
    forall x | x in RenameAllBy(rels, done, m) ensures (x.from, x.relType) !in done {
      var r :| r in rels && x == RenameBy(r, done, m);
      if (r.from, r.relType) in done && r.relType in m {
        assert m[r.relType] in m.Values;
      }
    }
  }

  /** The chains whose usages carry one of the map's old labels. */
  function AffectedChains(usages: seq<Usage>, m: map<string, string>): set<ChainId> {
    set u, k | u in usages && k in m && k in u.labels :: u.ruleChainId
  }

  /**
   * Which links the second `updateRelatedRuleChains` touches, stated on the
   * store: a (node, label) pair is matched, and the node's chain affected,
   * exactly when the node is an input node forwarding to the chain, its chain
   * name resolves, and one of its outgoing relations is typed with an old label.
   */
  lemma MatchesCharacterization(decode: Decoder, candidates: seq<RuleNode>, rels: set<Relation>,
                                names: map<ChainId, string>, chainId: ChainId, m: map<string, string>,
                                nodeId: NodeId, key: string, id: ChainId)
    requires GetOutputLabelUsage(decode, candidates, rels, names, chainId).Some?
    ensures (nodeId, key) in MatchingPairs(GetOutputLabelUsage(decode, candidates, rels, names, chainId).value, m) <==>
            exists n :: n in candidates && Contributes(decode, rels, chainId, n) && n.chainId in names &&
                        n.id == nodeId && key in m && key in RelationTypes(rels, n.id)
    ensures id in AffectedChains(GetOutputLabelUsage(decode, candidates, rels, names, chainId).value, m) <==>
            exists n, k :: n in candidates && Contributes(decode, rels, chainId, n) && n.chainId in names &&
                           n.chainId == id && k in m && k in RelationTypes(rels, n.id)
  {
    var us := GetOutputLabelUsage(decode, candidates, rels, names, chainId).value;
    forall u | u in us
      ensures exists n :: n in candidates && Contributes(decode, rels, chainId, n) && n.chainId in names &&
                          u == UsageOf(n, rels, names[n.chainId])
    {
      UsageCharacterization(decode, candidates, rels, names, chainId, u);
    }
    forall n | n in candidates && Contributes(decode, rels, chainId, n) && n.chainId in names
      ensures UsageOf(n, rels, names[n.chainId]) in us
    {
      UsageCharacterization(decode, candidates, rels, names, chainId, UsageOf(n, rels, names[n.chainId]));
    }
  }
}
