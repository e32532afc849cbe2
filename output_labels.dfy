/**
 * Output-label resolution: the labels a chain exports are the names of its
 * output nodes, kept as a sorted set.
 */
module OutputLabels {
  import opened Wrappers
  import opened RuleModel
  import opened StringOrder

  /** The names of the output nodes among `nodes`. */
  function OutputNames(nodes: seq<RuleNode>): set<string> {
    set n | n in nodes && IsOutputRuleNode(Some(n)) :: n.name
  }

  lemma OutputNamesSnoc(nodes: seq<RuleNode>, n: RuleNode)
    ensures OutputNames(nodes + [n]) ==
            OutputNames(nodes) + (if IsOutputRuleNode(Some(n)) then {n.name} else {})
  {
    var both := nodes + [n];
    forall m | m in both ensures m in nodes || m == n { }
    forall m | m in nodes ensures m in both { }
  }

  /**
   * `getRuleChainOutputLabels`: walks the nodes of the loaded metadata and adds
   * every output node's name to a sorted set. A chain whose metadata cannot be
   * loaded makes the call fail.
   */
  method GetRuleChainOutputLabels(metaData: Option<RuleChainMetaData>) returns (r: Result<seq<string>>)
    ensures r.Err? <==> metaData.None?
    ensures r.Ok? ==> StrictlyIncreasing(r.value)
    ensures r.Ok? ==> forall l :: l in r.value <==> l in OutputNames(metaData.value.nodes)
  {
    if metaData.None? {
      return Err(NullPointer);
    }
    var nodes := metaData.value.nodes;
    var labels: seq<string> := [];
    var i := 0;
    while i < |nodes|
      invariant 0 <= i <= |nodes|
      invariant StrictlyIncreasing(labels)
      invariant forall l :: l in labels <==> l in OutputNames(nodes[..i])
    {
      OutputNamesSnoc(nodes[..i], nodes[i]);
      assert nodes[..i + 1] == nodes[..i] + [nodes[i]];
      if IsOutputRuleNode(Some(nodes[i])) {
        labels := Insert(labels, nodes[i].name);
      }
      i := i + 1;
    }
    assert nodes[..i] == nodes;
    return Ok(labels);
  }

  /**
   * The labels do not depend on the storage order of the nodes: two node lists
   * with the same output names yield the same label sequence.
   */
  lemma LabelsIndependentOfNodeOrder(nodes1: seq<RuleNode>, nodes2: seq<RuleNode>, labels1: seq<string>, labels2: seq<string>)
    requires OutputNames(nodes1) == OutputNames(nodes2)
    requires StrictlyIncreasing(labels1) && (forall l :: l in labels1 <==> l in OutputNames(nodes1))
    requires StrictlyIncreasing(labels2) && (forall l :: l in labels2 <==> l in OutputNames(nodes2))
    ensures labels1 == labels2
  {
    IncreasingUnique(labels1, labels2);
  }

  /** Output nodes sharing a name contribute that label once. */
  lemma SharedNameCountedOnce(labels: seq<string>, i: nat, j: nat)
    requires StrictlyIncreasing(labels)
    requires i < |labels| && j < |labels| && labels[i] == labels[j]
    ensures i == j
  {
    if i < j {
      LessIrreflexive(labels[i]);
    } else if j < i {
      LessIrreflexive(labels[j]);
    }
  }
}
