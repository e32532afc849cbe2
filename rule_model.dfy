/**
 * The data a rule chain is made of: chains, rule nodes, the typed relations
 * between nodes, and the classification of nodes into input / output nodes.
 */
module RuleModel {
  import opened Wrappers

  /** Identifiers are kept as their textual (UUID) form. */
  type ChainId = string
  type NodeId = string
  type EdgeId = string
  /** The JSON configuration of a rule node, as stored. */
  type Config = string

  /** The class names the node type string is compared against. */
  const INPUT_NODE_TYPE: string := "org.thingsboard.rule.engine.flow.TbRuleChainInputNode"
  const OUTPUT_NODE_TYPE: string := "org.thingsboard.rule.engine.flow.TbRuleChainOutputNode"

  datatype ChainType = Core | Edge

  /** A rule chain; `id` is absent for a chain that was never saved. */
  datatype RuleChain = RuleChain(id: Option<ChainId>, name: string, chainType: ChainType)

  /** A rule node of chain `chainId`; `nodeType` is the implementing class name. */
  datatype RuleNode = RuleNode(id: NodeId, chainId: ChainId, nodeType: string, name: string, configuration: Config)

  /** A directed relation between two rule nodes; its type is the link label. */
  datatype Relation = Relation(from: NodeId, to: NodeId, relType: string)

  datatype RuleChainMetaData = RuleChainMetaData(chainId: ChainId, nodes: seq<RuleNode>)

  /** One node changed by a metadata save: its stored state before and after. */
  datatype NodeUpdate = NodeUpdate(oldNode: Option<RuleNode>, newNode: Option<RuleNode>)

  datatype RuleChainUpdateResult = RuleChainUpdateResult(success: bool, updatedNodes: Option<seq<NodeUpdate>>)

  /** The decoded configuration of an input node: the chain it forwards to. */
  datatype InputNodeConfiguration = InputNodeConfiguration(ruleChainId: Option<string>)

  /** The edge device a chain is assigned to. */
  datatype EdgeRef = EdgeRef(id: EdgeId, name: string)

  /** The closed view of a node type string. */
  datatype NodeKind = Input | Output | Other(typeName: string)

  function KindOf(typeName: string): (k: NodeKind)
    ensures k == Input <==> typeName == INPUT_NODE_TYPE
    ensures k == Output <==> typeName == OUTPUT_NODE_TYPE
    ensures k.Other? ==> k.typeName == typeName
  {
    if typeName == INPUT_NODE_TYPE then Input
    else if typeName == OUTPUT_NODE_TYPE then Output
    else Other(typeName)
  }

  /** A node is of a given type when it is present and its type string equals the class name. */
  predicate IsRuleNode(node: Option<RuleNode>, className: string) {
    node.Some? && node.value.nodeType == className
  }

  /** An output node: a present node whose kind is `Output`. */
  predicate IsOutputRuleNode(node: Option<RuleNode>) {
    node.Some? && KindOf(node.value.nodeType) == Output
  }

  /** An input node: a present node whose kind is `Input`. */
  predicate IsInputRuleNode(node: Option<RuleNode>) {
    node.Some? && KindOf(node.value.nodeType) == Input
  }

  /**
   * Classifying by kind is the type check against the two class names; a node
   * is never both, and a missing node is neither input nor output.
   */
  lemma ClassificationByKind(node: Option<RuleNode>)
    ensures IsOutputRuleNode(node) <==> IsRuleNode(node, OUTPUT_NODE_TYPE)
    ensures IsInputRuleNode(node) <==> IsRuleNode(node, INPUT_NODE_TYPE)
    ensures !(IsInputRuleNode(node) && IsOutputRuleNode(node))
    ensures node.None? ==> !IsInputRuleNode(node) && !IsOutputRuleNode(node)
  {
  }
}
