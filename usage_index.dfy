/**
 * The usage index: which input nodes of other chains forward to a given chain,
 * and which labels their outgoing relations carry.
 */
module UsageIndex {
  import opened Wrappers
  import opened RuleModel
  import opened StringOrder

  /** `RuleChainOutputLabelsUsage`: one input node that forwards to the queried chain. */
  datatype Usage = Usage(ruleNodeId: NodeId, ruleNodeName: string, ruleChainId: ChainId,
                         ruleChainName: string, labels: set<string>)

  /** Decoder of a node configuration; absent when the JSON does not decode. */
  type Decoder = Config -> Option<InputNodeConfiguration>

  /** The second filter: the decoded configuration names exactly `chainId`. */
  predicate ReferencesChain(decode: Decoder, node: RuleNode, chainId: ChainId) {
    match decode(node.configuration)
    case None => false
    case Some(c) => c.ruleChainId == Some(chainId)
  }

  /** The distinct types of the relations leaving `nodeId`. */
  function RelationTypes(rels: set<Relation>, nodeId: NodeId): set<string> {
    set r | r in rels && r.from == nodeId :: r.relType
  }

  /** The usage built for `node`, before and after its chain name is known. */
  function UsageOf(node: RuleNode, rels: set<Relation>, chainName: string): Usage {
    Usage(node.id, node.name, node.chainId, chainName, RelationTypes(rels, node.id))
  }

  /** A node contributes a usage when it references the chain and has outgoing relations. */
  predicate Contributes(decode: Decoder, rels: set<Relation>, chainId: ChainId, node: RuleNode) {
    ReferencesChain(decode, node, chainId) && RelationTypes(rels, node.id) != {}
  }

  /** The filter/map/filter stages of the stream: usages with an unresolved chain name. */
  function CollectUsages(decode: Decoder, nodes: seq<RuleNode>, rels: set<Relation>, chainId: ChainId): (r: seq<Usage>)
    ensures forall u :: u in r <==> exists n :: n in nodes && Contributes(decode, rels, chainId, n) && u == UsageOf(n, rels, "")
    decreases |nodes|
  {
    if |nodes| == 0 then []
    else
      var rest := CollectUsages(decode, nodes[1..], rels, chainId);
      assert forall n :: n in nodes <==> n == nodes[0] || n in nodes[1..];
      if Contributes(decode, rels, chainId, nodes[0]) then [UsageOf(nodes[0], rels, "")] + rest else rest
  }

  /** The chain names looked up directly, one storage read per usage. */
  function LookupNames(us: seq<Usage>, names: map<ChainId, string>): (r: Option<seq<Usage>>)
    ensures r.None? <==> exists u :: u in us && u.ruleChainId !in names
    ensures r.Some? ==> |r.value| == |us|
    ensures r.Some? ==> forall i :: 0 <= i < |us| ==>
      us[i].ruleChainId in names && r.value[i] == us[i].(ruleChainName := names[us[i].ruleChainId])
    decreases |us|
  {
    if |us| == 0 then Some([])
    else if us[0].ruleChainId !in names then None
    else
      match LookupNames(us[1..], names)
      case None => None
      case Some(rest) => Some([us[0].(ruleChainName := names[us[0].ruleChainId])] + rest)
  }

  /**
   * The `peek` stage: each chain name is read through a cache local to the call
   * (`computeIfAbsent`); a chain that is not found makes the call fail. As long
   * as the cache only holds names read from storage, the result is the direct
   * lookup: the cache only memoizes.
   */
  function ResolveNames(us: seq<Usage>, names: map<ChainId, string>, cache: map<ChainId, string>): (r: Option<seq<Usage>>)
    requires forall id :: id in cache ==> id in names && cache[id] == names[id]
    ensures r == LookupNames(us, names)
    decreases |us|
  {
    if |us| == 0 then Some([])
    else
      var id := us[0].ruleChainId;
      if id !in cache && id !in names then None
      else
        var name := if id in cache then cache[id] else names[id];
        match ResolveNames(us[1..], names, cache[id := name])
        case None => None
        case Some(rest) => Some([us[0].(ruleChainName := name)] + rest)
  }

  /** The comparator: by chain name, then by node name. */
  predicate UsageLeq(u: Usage, v: Usage) {
    Less(u.ruleChainName, v.ruleChainName) ||
    (u.ruleChainName == v.ruleChainName && !Less(v.ruleNodeName, u.ruleNodeName))
  }

  lemma UsageLeqTotal(u: Usage, v: Usage)
    ensures UsageLeq(u, v) || UsageLeq(v, u)
  {
    LessTotal(u.ruleChainName, v.ruleChainName);
    LessTotal(u.ruleNodeName, v.ruleNodeName);
    if Less(u.ruleNodeName, v.ruleNodeName) {
      LessAsymmetric(u.ruleNodeName, v.ruleNodeName);
    }
  }

  lemma UsageLeqTransitive(u: Usage, v: Usage, w: Usage)
    requires UsageLeq(u, v) && UsageLeq(v, w)
    ensures UsageLeq(u, w)
  {
    if Less(u.ruleChainName, v.ruleChainName) && Less(v.ruleChainName, w.ruleChainName) {
      LessTransitive(u.ruleChainName, v.ruleChainName, w.ruleChainName);
    } else if u.ruleChainName == v.ruleChainName == w.ruleChainName {
      if Less(w.ruleNodeName, u.ruleNodeName) {
        LessTotal(u.ruleNodeName, v.ruleNodeName);
        if Less(u.ruleNodeName, v.ruleNodeName) {
          LessTransitive(w.ruleNodeName, u.ruleNodeName, v.ruleNodeName);
        }
      }
    }
  }

  predicate SortedUsages(s: seq<Usage>) {
    forall i, j :: 0 <= i < j < |s| ==> UsageLeq(s[i], s[j])
  }

  /** Places `u` before the first element it does not follow. */
  function InsertUsage(u: Usage, s: seq<Usage>): (r: seq<Usage>)
    requires SortedUsages(s)
    ensures SortedUsages(r)
    ensures multiset(r) == multiset(s) + multiset{u}
    decreases |s|
  {
    if |s| == 0 then [u]
    else if UsageLeq(u, s[0]) then
      InsertFrontSorted(u, s);
      [u] + s
    else
      var rest := InsertUsage(u, s[1..]);
      InsertTailSorted(u, s, rest);
      assert s == [s[0]] + s[1..];
      [s[0]] + rest
  }

  lemma InsertFrontSorted(u: Usage, s: seq<Usage>)
    requires SortedUsages(s) && |s| > 0 && UsageLeq(u, s[0])
    ensures SortedUsages([u] + s)
  {
    var r := [u] + s;
    forall i, j | 0 <= i < j < |r| ensures UsageLeq(r[i], r[j]) {
      if i == 0 && j > 1 {
        UsageLeqTransitive(u, s[0], s[j - 1]);
      }
    }
  }

  lemma InsertTailSorted(u: Usage, s: seq<Usage>, rest: seq<Usage>)
    requires SortedUsages(s) && |s| > 0 && !UsageLeq(u, s[0])
    requires SortedUsages(rest) && multiset(rest) == multiset(s[1..]) + multiset{u}
    ensures SortedUsages([s[0]] + rest)
  {
    UsageLeqTotal(u, s[0]);
    var r := [s[0]] + rest;
    forall j | 1 <= j < |r| ensures UsageLeq(s[0], r[j]) {
      assert r[j] == rest[j - 1];
      assert r[j] in multiset(rest);
      if r[j] != u {
        assert r[j] in multiset(s[1..]);
        var k :| 0 <= k < |s[1..]| && s[1..][k] == r[j];
        assert s[k + 1] == r[j];
      }
    }
  }

  /** The `sorted` stage: an insertion sort by the comparator. */
  function SortUsages(s: seq<Usage>): (r: seq<Usage>)
    ensures SortedUsages(r)
    ensures multiset(r) == multiset(s)
    decreases |s|
  {
    if |s| == 0 then []
    else
      assert s == [s[0]] + s[1..];
      InsertUsage(s[0], SortUsages(s[1..]))
  }

  /**
   * `getOutputLabelUsage`: `candidates` are the input nodes storage returns for
   * the chain id; `rels` is the relation store; `names` the chain names storage
   * can find.
   */
  function GetOutputLabelUsage(decode: Decoder, candidates: seq<RuleNode>, rels: set<Relation>,
                               names: map<ChainId, string>, chainId: ChainId): (r: Option<seq<Usage>>)
    ensures r.None? <==> exists n :: n in candidates && Contributes(decode, rels, chainId, n) && n.chainId !in names
    ensures r.Some? ==> SortedUsages(r.value)
    ensures r.Some? ==> multiset(r.value) == multiset(LookupNames(CollectUsages(decode, candidates, rels, chainId), names).value)
  {
    var collected := CollectUsages(decode, candidates, rels, chainId);
    assert (exists u :: u in collected && u.ruleChainId !in names) <==>
           (exists n :: n in candidates && Contributes(decode, rels, chainId, n) && n.chainId !in names) by {
      forall n | n in candidates && Contributes(decode, rels, chainId, n) && n.chainId !in names
        ensures UsageOf(n, rels, "") in collected { }
    }
    match ResolveNames(collected, names, map[])
    case None => None
    case Some(resolved) => Some(SortUsages(resolved))
  }

  /**
   * What a usage means: every returned usage comes from a candidate node whose
   * decoded configuration names the queried chain, its labels are exactly the
   * (non-empty) set of types of that node's relations, and its chain name is the
   * one storage holds for its chain; and every such node is returned.
   */
  lemma UsageCharacterization(decode: Decoder, candidates: seq<RuleNode>, rels: set<Relation>,
                              names: map<ChainId, string>, chainId: ChainId, u: Usage)
    requires GetOutputLabelUsage(decode, candidates, rels, names, chainId).Some?
    ensures u in GetOutputLabelUsage(decode, candidates, rels, names, chainId).value <==>
            exists n :: n in candidates && Contributes(decode, rels, chainId, n) && n.chainId in names &&
                        u == UsageOf(n, rels, names[n.chainId])
  {
    var collected := CollectUsages(decode, candidates, rels, chainId);
    var looked := LookupNames(collected, names).value;
    var result := GetOutputLabelUsage(decode, candidates, rels, names, chainId).value;
    assert u in result <==> u in looked by {
      assert u in result <==> u in multiset(result);
      assert u in looked <==> u in multiset(looked);
    }
    if u in looked {
      var i :| 0 <= i < |looked| && looked[i] == u;
      assert collected[i] in collected;
      var n :| n in candidates && Contributes(decode, rels, chainId, n) && collected[i] == UsageOf(n, rels, "");
      assert u == UsageOf(n, rels, names[n.chainId]);
    }
    if exists n :: n in candidates && Contributes(decode, rels, chainId, n) && n.chainId in names &&
                   u == UsageOf(n, rels, names[n.chainId]) {
      var n :| n in candidates && Contributes(decode, rels, chainId, n) && n.chainId in names &&
               u == UsageOf(n, rels, names[n.chainId]);
      assert UsageOf(n, rels, "") in collected;
      var i :| 0 <= i < |collected| && collected[i] == UsageOf(n, rels, "");
      assert looked[i] == u;
    }
  }

  /** The three per-usage guarantees, read off the characterization. */
  lemma UsageGuarantees(decode: Decoder, candidates: seq<RuleNode>, rels: set<Relation>,
                        names: map<ChainId, string>, chainId: ChainId, u: Usage)
    requires GetOutputLabelUsage(decode, candidates, rels, names, chainId).Some?
    requires u in GetOutputLabelUsage(decode, candidates, rels, names, chainId).value
    ensures exists n :: n in candidates && n.id == u.ruleNodeId && ReferencesChain(decode, n, chainId)
    ensures u.labels != {} && u.labels == RelationTypes(rels, u.ruleNodeId)
    ensures u.ruleChainId in names && u.ruleChainName == names[u.ruleChainId]
  {
    UsageCharacterization(decode, candidates, rels, names, chainId, u);
  }
}
