/**
 * The lifecycle envelopes of the rule-chain service as traces of collaborator
 * calls: storage calls, cluster broadcasts, notifications and edge messages.
 * Each operation is a function of the collaborators' responses returning the
 * operation's result and the events it emits, in order.
 */
module Lifecycle {
  import opened Wrappers
  import opened RuleModel

  /** `ComponentLifecycleEvent`, broadcast to the cluster. */
  datatype LifecycleEvent = Created | Updated | Deleted

  /** `ActionType`, carried by notifications. */
  datatype ActionType = Added | Updated | Deleted | AssignedToEdge | UnassignedFromEdge

  datatype Flag = EdgeTemplateRoot | AutoAssignToEdge | NoAutoAssignToEdge

  /** The storage calls that change or scan the store. */
  datatype StorageCall =
    | SaveRuleChain(chain: RuleChain)
    | GetReferencingNodes(chainId: Option<ChainId>)
    | FindRelatedEdgeIds(chainId: Option<ChainId>)
    | DeleteRuleChain(chainId: Option<ChainId>)
    | GetRootRuleChain
    | SetRootRuleChain(chainId: Option<ChainId>)
    | SaveMetaData(metaDataChainId: ChainId)
    | FindInputNodes(targetChainId: ChainId)
    | AssignToEdge(chainId: Option<ChainId>, edgeId: EdgeId)
    | UnassignFromEdge(chainId: Option<ChainId>, edgeId: EdgeId)
    | SetFlag(chainId: Option<ChainId>, flag: Flag)
    | CreateDefaultRuleChain(name: string)

  /** What the notification collaborator is told; `entityId` absent stands for the empty id. */
  datatype Notification =
    | CreateUpdateDelete(entityId: Option<ChainId>, entity: Option<RuleChain>, action: ActionType, sendToEdge: bool, failed: bool)
    | RuleChainDeleted(chain: RuleChain, relatedEdgeIds: Option<seq<EdgeId>>)
    | EdgeAssignment(chainId: Option<ChainId>, edge: EdgeRef, stored: RuleChain, action: ActionType)

  datatype Event =
    | Called(call: StorageCall)
    | Broadcast(chainId: Option<ChainId>, lifecycle: LifecycleEvent)
    | Notified(notification: Notification)
    | EdgeMessage(chainId: Option<ChainId>)   // `notifySendMsgToEdgeService(..., UPDATED)`

  /** An operation's result and the events it emitted. */
  datatype Run<+T> = Run(result: Result<T>, events: seq<Event>)

  /** How many notifications a trace holds. */
  function Notifications(events: seq<Event>): nat
    decreases |events|
  {
    if |events| == 0 then 0
    else (if events[0].Notified? then 1 else 0) + Notifications(events[1..])
  }

  lemma {:induction false} NotificationsAppend(a: seq<Event>, b: seq<Event>)
    ensures Notifications(a + b) == Notifications(a) + Notifications(b)
    decreases |a|
  {
    if |a| == 0 {
      assert a + b == b;
    } else {
      assert (a + b)[1..] == a[1..] + b;
      NotificationsAppend(a[1..], b);
    }
  }

  lemma {:induction false} NoNotifications(a: seq<Event>)
    requires forall e :: e in a ==> !e.Notified?
    ensures Notifications(a) == 0
    decreases |a|
  {
    if |a| > 0 {
      assert a[0] in a;
      NoNotifications(a[1..]);
    }
  }

  lemma NotificationsPair(x: Event, y: Event)
    ensures Notifications([x, y]) == Notifications([x]) + Notifications([y])
  {
    assert [x, y] == [x] + [y];
    NotificationsAppend([x], [y]);
  }

  predicate NoBroadcasts(events: seq<Event>) {
    forall e :: e in events ==> !e.Broadcast?
  }

  /** The failure notification of an envelope: empty id, the attempted entity, the action, the cause. */
  function FailureNote(entity: Option<RuleChain>, action: ActionType): Event {
    Notified(CreateUpdateDelete(None, entity, action, false, true))
  }

  // ---------------------------------------------------------------------------
  // save
  // ---------------------------------------------------------------------------

  function SaveAction(chain: RuleChain): ActionType {
    if chain.id.None? then ActionType.Added else ActionType.Updated
  }

  /** `save`: `saved` is what `checkNotNull(saveRuleChain(chain))` yields. */
  function SaveRun(chain: RuleChain, saved: Result<RuleChain>): Run<RuleChain> {
    var action := SaveAction(chain);
    var call := [Called(SaveRuleChain(chain))];
    match saved
    case Err(e) => Run(Err(e), call + [FailureNote(Some(chain), action)])
    case Ok(s) =>
      var broadcast := if s.chainType == Core
        then [Broadcast(s.id, if action == ActionType.Added then LifecycleEvent.Created else LifecycleEvent.Updated)]
        else [];
      var note := Notified(CreateUpdateDelete(s.id, Some(s), action, s.chainType == Edge && action == ActionType.Updated, false));
      Run(Ok(s), call + broadcast + [note])
  }

  /**
   * `save` emits exactly one notification, broadcasts only for a saved CORE
   * chain, and then CREATED exactly when the incoming chain had no id.
   */
  lemma SaveProperties(chain: RuleChain, saved: Result<RuleChain>)
    ensures Notifications(SaveRun(chain, saved).events) == 1
    ensures SaveRun(chain, saved).result == saved
    ensures saved.Err? ==> NoBroadcasts(SaveRun(chain, saved).events)
    ensures saved.Ok? && saved.value.chainType == Edge ==> NoBroadcasts(SaveRun(chain, saved).events)
    ensures saved.Ok? && saved.value.chainType == Core ==>
      Broadcast(saved.value.id, if chain.id.None? then LifecycleEvent.Created else LifecycleEvent.Updated) in SaveRun(chain, saved).events
    ensures forall e :: e in SaveRun(chain, saved).events && e.Broadcast? ==>
      saved.Ok? && e == Broadcast(saved.value.id, if chain.id.None? then LifecycleEvent.Created else LifecycleEvent.Updated)
  {
    var run := SaveRun(chain, saved);
    var call := [Called(SaveRuleChain(chain))];
    match saved
    case Err(e) =>
      NotificationsAppend(call, [FailureNote(Some(chain), SaveAction(chain))]);
    case Ok(s) =>
      var broadcast := if s.chainType == Core
        then [Broadcast(s.id, if SaveAction(chain) == ActionType.Added then LifecycleEvent.Created else LifecycleEvent.Updated)]
        else [];
      var note := Notified(CreateUpdateDelete(s.id, Some(s), SaveAction(chain), s.chainType == Edge && SaveAction(chain) == ActionType.Updated, false));
      NotificationsAppend(call + broadcast, [note]);
      NotificationsAppend(call, broadcast);
      NoNotifications(call + broadcast);
  }

  // ---------------------------------------------------------------------------
  // saveDefaultByName
  // ---------------------------------------------------------------------------

  /**
   * `saveDefaultByName`: `created` is what the installer returns for the
   * request's name. The failure notification carries a fresh chain holding only
   * that name.
   */
  function SaveDefaultRun(name: string, created: Result<RuleChain>): Run<RuleChain> {
    var call := [Called(CreateDefaultRuleChain(name))];
    match created
    case Err(e) => Run(Err(e), call + [FailureNote(Some(RuleChain(None, name, Core)), ActionType.Added)])
    case Ok(s) =>
      Run(Ok(s), call + [Broadcast(s.id, LifecycleEvent.Created),
                         Notified(CreateUpdateDelete(s.id, Some(s), ActionType.Added, false, false))])
  }

  /** `saveDefaultByName` notifies once, as ADDED, and on success broadcasts CREATED for the new chain whatever its type. */
  lemma SaveDefaultProperties(name: string, created: Result<RuleChain>)
    ensures var run := SaveDefaultRun(name, created);
      && run.result == created
      && Notifications(run.events) == 1
      && (forall e :: e in run.events && e.Notified? ==> e.notification.CreateUpdateDelete? && e.notification.action == ActionType.Added)
      && (created.Ok? ==> Broadcast(created.value.id, LifecycleEvent.Created) in run.events)
      && (created.Err? ==> NoBroadcasts(run.events))
  {
    var events := SaveDefaultRun(name, created).events;
    if created.Ok? {
      NotificationsPair(events[1], events[2]);
      assert events == [events[0]] + [events[1], events[2]];
      NotificationsAppend([events[0]], [events[1], events[2]]);
    } else {
      assert events == [events[0]] + [events[1]];
      NotificationsAppend([events[0]], [events[1]]);
    }
  }

  // ---------------------------------------------------------------------------
  // delete
  // ---------------------------------------------------------------------------

  /** The chains owning one of the referencing nodes, without the deleted chain itself. */
  function OtherReferencingChains(chain: RuleChain, referencing: seq<RuleNode>): set<ChainId> {
    (set n | n in referencing :: n.chainId) - (if chain.id.Some? then {chain.id.value} else {})
  }

  /** `order` lists the elements of `s`, each once (the iteration order of a hash set). */
  ghost predicate IsEnumeration(order: seq<ChainId>, s: set<ChainId>) {
    (forall i, j :: 0 <= i < j < |order| ==> order[i] != order[j]) && (forall id :: id in order <==> id in s)
  }

  /** The only enumeration of the empty set is the empty sequence. */
  lemma EnumerationOfEmpty(order: seq<ChainId>)
    ensures IsEnumeration(order, {}) <==> order == []
  {
    if order != [] {
      assert order[0] in order;
    }
  }

  function BroadcastAll(order: seq<ChainId>, lifecycle: LifecycleEvent): (r: seq<Event>)
    ensures |r| == |order|
    ensures forall e :: e in r <==> exists id :: id in order && e == Broadcast(Some(id), lifecycle)
    decreases |order|
  {
    if |order| == 0 then []
    else
      var rest := BroadcastAll(order[1..], lifecycle);
      assert forall id :: id in order <==> id == order[0] || id in order[1..];
      [Broadcast(Some(order[0]), lifecycle)] + rest
  }

  /** The broadcasts follow the enumeration: position `i` announces `order[i]`. */
  lemma {:induction false} BroadcastAllAt(order: seq<ChainId>, lifecycle: LifecycleEvent, i: nat)
    requires i < |order|
    ensures BroadcastAll(order, lifecycle)[i] == Broadcast(Some(order[i]), lifecycle)
    decreases |order|
  {
    if i > 0 {
      BroadcastAllAt(order[1..], lifecycle, i - 1);
    }
  }

  lemma {:induction false} BroadcastAllSnoc(order: seq<ChainId>, id: ChainId, lifecycle: LifecycleEvent)
    ensures BroadcastAll(order + [id], lifecycle) == BroadcastAll(order, lifecycle) + [Broadcast(Some(id), lifecycle)]
    decreases |order|
  {
    if |order| == 0 {
      assert order + [id] == [id];
    } else {
      assert (order + [id])[1..] == order[1..] + [id];
      BroadcastAllSnoc(order[1..], id, lifecycle);
    }
  }

  /**
   * The storage phase of `delete` (:193-202): the referencing nodes are read,
   * the related edge ids looked up for an EDGE chain, and the chain deleted.
   * `referencing` is the storage's list of nodes that reference the chain,
   * `relatedEdges` the related edge ids and `deleted` the outcome of the
   * deletion; on success the result holds the edge ids the notification carries.
   */
  function DeleteStorageRun(chain: RuleChain, referencing: Result<seq<RuleNode>>, relatedEdges: Result<seq<EdgeId>>,
                            deleted: Result<()>): Run<Option<seq<EdgeId>>>
  {
    var fail := FailureNote(None, ActionType.Deleted);
    var e0 := [Called(GetReferencingNodes(chain.id))];
    if referencing.Err? then Run(Err(referencing.error), e0 + [fail])
    else
      var e1 := if chain.chainType == Edge then [Called(FindRelatedEdgeIds(chain.id))] else [];
      if chain.chainType == Edge && relatedEdges.Err? then Run(Err(relatedEdges.error), e0 + e1 + [fail])
      else
        var edgeIds := if chain.chainType == Edge then Some(relatedEdges.value) else None;
        var e2 := [Called(DeleteRuleChain(chain.id))];
        if deleted.Err? then Run(Err(deleted.error), e0 + e1 + e2 + [fail])
        else Run(Ok(edgeIds), e0 + e1 + e2)
  }

  /**
   * The announcements of a successful `delete` (:204-213): for a CORE chain,
   * UPDATED to each referencing chain in `order`, then DELETED for itself; then
   * the deletion notification.
   */
  function DeleteAnnouncements(chain: RuleChain, edgeIds: Option<seq<EdgeId>>, order: seq<ChainId>): seq<Event> {
    (if chain.chainType == Core
     then BroadcastAll(order, LifecycleEvent.Updated) + [Broadcast(chain.id, LifecycleEvent.Deleted)]
     else []) +
    [Notified(RuleChainDeleted(chain, edgeIds))]
  }

  /**
   * `delete`: the storage phase, then, unless it failed, the announcements;
   * `order` is the iteration order of the set of referencing chain ids.
   */
  function DeleteRun(chain: RuleChain, referencing: Result<seq<RuleNode>>, relatedEdges: Result<seq<EdgeId>>,
                     deleted: Result<()>, order: seq<ChainId>): Run<()>
  {
    var stored := DeleteStorageRun(chain, referencing, relatedEdges, deleted);
    if stored.result.Err? then Run(Err(stored.result.error), stored.events)
    else Run(Ok(()), stored.events + DeleteAnnouncements(chain, stored.result.value, order))
  }

  /**
   * `delete` emits exactly one notification: the failure notification, or on
   * success the deletion notification as the last event, carrying the related
   * edge ids for an EDGE chain.
   */
  lemma DeleteNotifiesOnce(chain: RuleChain, referencing: Result<seq<RuleNode>>, relatedEdges: Result<seq<EdgeId>>,
                           deleted: Result<()>, order: seq<ChainId>)
    ensures var run := DeleteRun(chain, referencing, relatedEdges, deleted, order);
      && Notifications(run.events) == 1
      && (run.result.Ok? ==>
            run.events[|run.events| - 1] ==
            Notified(RuleChainDeleted(chain, if chain.chainType == Edge then Some(relatedEdges.value) else None)))
      && (run.result.Err? ==> run.events[|run.events| - 1] == FailureNote(None, ActionType.Deleted))
  {
    var fail := FailureNote(None, ActionType.Deleted);
    var e0 := [Called(GetReferencingNodes(chain.id))];
    if referencing.Err? {
      NotificationsAppend(e0, [fail]);
      return;
    }
    var e1 := if chain.chainType == Edge then [Called(FindRelatedEdgeIds(chain.id))] else [];
    NoNotifications(e0 + e1);
    if chain.chainType == Edge && relatedEdges.Err? {
      NotificationsAppend(e0 + e1, [fail]);
      return;
    }
    var edgeIds := if chain.chainType == Edge then Some(relatedEdges.value) else None;
    var e2 := [Called(DeleteRuleChain(chain.id))];
    NoNotifications(e0 + e1 + e2);
    if deleted.Err? {
      NotificationsAppend(e0 + e1 + e2, [fail]);
      return;
    }
    var e3 := if chain.chainType == Core
      then BroadcastAll(order, LifecycleEvent.Updated) + [Broadcast(chain.id, LifecycleEvent.Deleted)]
      else [];
    var last := Notified(RuleChainDeleted(chain, edgeIds));
    assert DeleteRun(chain, referencing, relatedEdges, deleted, order).events == (e0 + e1 + e2 + e3) + [last];
    NoNotifications(e0 + e1 + e2 + e3);
    NotificationsAppend(e0 + e1 + e2 + e3, [last]);
  }

  /**
   * A deleted CORE chain sends UPDATED to exactly the other chains that
   * referenced it, never to itself, and DELETED for itself; an EDGE chain
   * broadcasts nothing.
   */
  lemma DeleteBroadcasts(chain: RuleChain, referencing: Result<seq<RuleNode>>, relatedEdges: Result<seq<EdgeId>>,
                         deleted: Result<()>, order: seq<ChainId>)
    requires DeleteRun(chain, referencing, relatedEdges, deleted, order).result.Ok? && chain.chainType == Core ==>
      IsEnumeration(order, OtherReferencingChains(chain, referencing.value))
    ensures var run := DeleteRun(chain, referencing, relatedEdges, deleted, order);
      && (chain.chainType == Edge ==> NoBroadcasts(run.events))
      && (run.result.Ok? && chain.chainType == Core ==>
            (forall id :: Broadcast(Some(id), LifecycleEvent.Updated) in run.events <==> id in OtherReferencingChains(chain, referencing.value)) &&
            Broadcast(chain.id, LifecycleEvent.Deleted) in run.events)
      && (chain.id.Some? ==> Broadcast(chain.id, LifecycleEvent.Updated) !in run.events)
  {
  }

  /** Only an EDGE chain has its related edges looked up, and only once its references were read. */
  lemma DeleteLooksUpEdgesOnlyForEdgeChains(chain: RuleChain, referencing: Result<seq<RuleNode>>, relatedEdges: Result<seq<EdgeId>>,
                                           deleted: Result<()>, order: seq<ChainId>)
    ensures Called(FindRelatedEdgeIds(chain.id)) in DeleteRun(chain, referencing, relatedEdges, deleted, order).events <==>
      chain.chainType == Edge && referencing.Ok?
  {
  }

  // ---------------------------------------------------------------------------
  // setRootRuleChain
  // ---------------------------------------------------------------------------

  /**
   * The part of `setRootRuleChain` inside the `try`, given the previous root:
   * `setResult` is the storage's answer, `reloadedPrevious` and `reloaded` what
   * `findRuleChainById` returns afterwards (possibly nothing).
   */
  function SetRootBody(chain: RuleChain, previousRoot: Option<RuleChain>, setResult: Result<bool>,
                       reloadedPrevious: Option<RuleChain>, reloaded: Option<RuleChain>): Run<Option<RuleChain>>
  {
    var e1 := [Called(SetRootRuleChain(chain.id))];
    match setResult
    case Err(e) => Run(Err(e), e1 + [FailureNote(Some(chain), ActionType.Updated)])
    case Ok(false) => Run(Ok(Some(chain)), e1)
    case Ok(true) =>
      var previousEvents := if previousRoot.Some?
        then [Broadcast(previousRoot.value.id, LifecycleEvent.Updated),
              Notified(CreateUpdateDelete(previousRoot.value.id, reloadedPrevious, ActionType.Updated, false, false))]
        else [];
      Run(Ok(reloaded), e1 + previousEvents +
          [Broadcast(chain.id, LifecycleEvent.Updated),
           Notified(CreateUpdateDelete(chain.id, reloaded, ActionType.Updated, false, false))])
  }

  /**
   * `setRootRuleChain` as written: the previous root's id is read before the
   * `try` and before the null check, so a tenant without a root chain fails
   * with no notification at all.
   */
  function SetRootAsWritten(chain: RuleChain, previousRoot: Option<RuleChain>, setResult: Result<bool>,
                            reloadedPrevious: Option<RuleChain>, reloaded: Option<RuleChain>): (r: Run<Option<RuleChain>>)
    ensures previousRoot.None? ==> r.result == Err(NullPointer) && r.events == [Called(GetRootRuleChain)]
    ensures previousRoot.Some? ==> r == SetRootCorrected(chain, previousRoot, setResult, reloadedPrevious, reloaded)
  {
    var e0 := [Called(GetRootRuleChain)];
    if previousRoot.None? then Run(Err(NullPointer), e0)
    else
      var body := SetRootBody(chain, previousRoot, setResult, reloadedPrevious, reloaded);
      Run(body.result, e0 + body.events)
  }

  /** `setRootRuleChain` as its null check intends: no previous root skips that branch. */
  function SetRootCorrected(chain: RuleChain, previousRoot: Option<RuleChain>, setResult: Result<bool>,
                            reloadedPrevious: Option<RuleChain>, reloaded: Option<RuleChain>): Run<Option<RuleChain>>
  {
    var body := SetRootBody(chain, previousRoot, setResult, reloadedPrevious, reloaded);
    Run(body.result, [Called(GetRootRuleChain)] + body.events)
  }

  /** The discrepancy: with no previous root the call as written fails before the root is set and notifies nobody. */
  lemma SetRootWithoutPreviousRootFails(chain: RuleChain, setResult: Result<bool>, reloaded: Option<RuleChain>)
    ensures SetRootAsWritten(chain, None, setResult, None, reloaded).result == Err(NullPointer)
    ensures Notifications(SetRootAsWritten(chain, None, setResult, None, reloaded).events) == 0
    ensures Called(SetRootRuleChain(chain.id)) !in SetRootAsWritten(chain, None, setResult, None, reloaded).events
    ensures SetRootCorrected(chain, None, Ok(true), None, reloaded).result == Ok(reloaded)
  {
    NoNotifications([Called(GetRootRuleChain)]);
  }

  /**
   * The intended behaviour: once storage has switched the root, the new root is
   * broadcast and notified as UPDATED, the previous root too when there was one,
   * and otherwise nothing else is broadcast; the two versions agree whenever a
   * previous root exists.
   */
  lemma SetRootCorrectedProperties(chain: RuleChain, previousRoot: Option<RuleChain>,
                                   reloadedPrevious: Option<RuleChain>, reloaded: Option<RuleChain>)
    ensures SetRootCorrected(chain, previousRoot, Ok(true), reloadedPrevious, reloaded).result == Ok(reloaded)
    ensures Broadcast(chain.id, LifecycleEvent.Updated) in SetRootCorrected(chain, previousRoot, Ok(true), reloadedPrevious, reloaded).events
    ensures Notified(CreateUpdateDelete(chain.id, reloaded, ActionType.Updated, false, false))
              in SetRootCorrected(chain, previousRoot, Ok(true), reloadedPrevious, reloaded).events
    ensures previousRoot.Some? ==>
      Broadcast(previousRoot.value.id, LifecycleEvent.Updated) in SetRootCorrected(chain, previousRoot, Ok(true), reloadedPrevious, reloaded).events
    ensures previousRoot.Some? ==>
      Notified(CreateUpdateDelete(previousRoot.value.id, reloadedPrevious, ActionType.Updated, false, false))
        in SetRootCorrected(chain, previousRoot, Ok(true), reloadedPrevious, reloaded).events
    ensures previousRoot.None? ==> forall e :: e in SetRootCorrected(chain, previousRoot, Ok(true), reloadedPrevious, reloaded).events && e.Broadcast? ==>
      e == Broadcast(chain.id, LifecycleEvent.Updated)
    ensures Notifications(SetRootCorrected(chain, previousRoot, Ok(true), reloadedPrevious, reloaded).events) == if previousRoot.Some? then 2 else 1
    ensures forall setResult: Result<bool> :: previousRoot.Some? ==>
      SetRootAsWritten(chain, previousRoot, setResult, reloadedPrevious, reloaded) ==
      SetRootCorrected(chain, previousRoot, setResult, reloadedPrevious, reloaded)
  {
    SetRootCorrectedShape(chain, previousRoot, reloadedPrevious, reloaded);
    SetRootCorrectedCount(chain, previousRoot, reloadedPrevious, reloaded);
  }

  /** The events of a successful corrected `setRootRuleChain`, written out. */
  lemma SetRootCorrectedShape(chain: RuleChain, previousRoot: Option<RuleChain>,
                              reloadedPrevious: Option<RuleChain>, reloaded: Option<RuleChain>)
    ensures SetRootCorrected(chain, previousRoot, Ok(true), reloadedPrevious, reloaded).events ==
      [Called(GetRootRuleChain), Called(SetRootRuleChain(chain.id))] +
      (if previousRoot.Some?
       then [Broadcast(previousRoot.value.id, LifecycleEvent.Updated),
             Notified(CreateUpdateDelete(previousRoot.value.id, reloadedPrevious, ActionType.Updated, false, false))]
       else []) +
      [Broadcast(chain.id, LifecycleEvent.Updated), Notified(CreateUpdateDelete(chain.id, reloaded, ActionType.Updated, false, false))]
  {
  }

  /** How many notifications a successful corrected `setRootRuleChain` sends. */
  lemma SetRootCorrectedCount(chain: RuleChain, previousRoot: Option<RuleChain>,
                              reloadedPrevious: Option<RuleChain>, reloaded: Option<RuleChain>)
    ensures Notifications(SetRootCorrected(chain, previousRoot, Ok(true), reloadedPrevious, reloaded).events) == if previousRoot.Some? then 2 else 1
  {
    var events := SetRootCorrected(chain, previousRoot, Ok(true), reloadedPrevious, reloaded).events;
    var b := Broadcast(chain.id, LifecycleEvent.Updated);
    var n := Notified(CreateUpdateDelete(chain.id, reloaded, ActionType.Updated, false, false));
    var setCalls := [Called(GetRootRuleChain), Called(SetRootRuleChain(chain.id))];
    NoNotifications(setCalls);
    NotificationsPair(b, n);
    if previousRoot.Some? {
      var pb := Broadcast(previousRoot.value.id, LifecycleEvent.Updated);
      var pn := Notified(CreateUpdateDelete(previousRoot.value.id, reloadedPrevious, ActionType.Updated, false, false));
      assert events == setCalls + [pb, pn] + [b, n];
      NotificationsPair(pb, pn);
      NotificationsAppend(setCalls, [pb, pn]);
      NotificationsAppend(setCalls + [pb, pn], [b, n]);
    } else {
      assert events == setCalls + [b, n];
      NotificationsAppend(setCalls, [b, n]);
    }
  }

  // ---------------------------------------------------------------------------
  // saveRuleChainMetaData
  // ---------------------------------------------------------------------------

  /** Events of a loop over the related chains, and the failure that stopped it, if any. */
  datatype Steps = Steps(events: seq<Event>, failure: Option<Failure>)

  /** The CORE loop over related chains (:288-290); a missing chain is dereferenced. */
  function RelatedBroadcasts(related: seq<Option<RuleChain>>): Steps
    decreases |related|
  {
    if |related| == 0 then Steps([], None)
    else if related[0].None? then Steps([], Some(NullPointer))
    else
      var rest := RelatedBroadcasts(related[1..]);
      Steps([Broadcast(related[0].value.id, LifecycleEvent.Updated)] + rest.events, rest.failure)
  }

  /**
   * The loop over related chains after the primary notification (:300-308):
   * edge messages when the primary chain is an EDGE chain, otherwise the
   * related chain's metadata is loaded (`loadable` are the chains whose
   * metadata storage returns) and an UPDATED notification sent.
   */
  function RelatedNotifications(related: seq<Option<RuleChain>>, primaryIsEdge: bool, loadable: set<ChainId>): Steps
    decreases |related|
  {
    if |related| == 0 then Steps([], None)
    else if related[0].None? then Steps([], Some(NullPointer))
    else
      var c := related[0].value;
      if primaryIsEdge then
        var rest := RelatedNotifications(related[1..], primaryIsEdge, loadable);
        Steps([EdgeMessage(c.id)] + rest.events, rest.failure)
      else if c.id.None? || c.id.value !in loadable then Steps([], Some(Absent))
      else
        var rest := RelatedNotifications(related[1..], primaryIsEdge, loadable);
        Steps([Notified(CreateUpdateDelete(c.id, Some(c), ActionType.Updated, false, false))] + rest.events, rest.failure)
  }

  function MetaDataFailure(events: seq<Event>, error: Failure): Run<RuleChainMetaData> {
    Run(Err(error), events + [FailureNote(None, ActionType.Added)])
  }

  /** The related chains the metadata save goes on to touch. */
  function RelatedList(updateRelated: bool, related: Result<seq<Option<RuleChain>>>): seq<Option<RuleChain>> {
    if updateRelated && related.Ok? then related.value else []
  }

  /** The CORE broadcasts: the chain itself, then every related chain (:287-290). */
  function CoreBroadcasts(chain: RuleChain, list: seq<Option<RuleChain>>): Steps {
    if chain.chainType == Core
    then Steps([Broadcast(chain.id, LifecycleEvent.Updated)] + RelatedBroadcasts(list).events, RelatedBroadcasts(list).failure)
    else Steps([], None)
  }

  /** The generic UPDATED notification of the chain and, for an EDGE chain, its edge message (:293-298). */
  function PrimaryEvents(chain: RuleChain): seq<Event> {
    [Notified(CreateUpdateDelete(chain.id, Some(chain), ActionType.Updated, false, false))] +
    (if chain.chainType == Edge then [EdgeMessage(chain.id)] else [])
  }

  /**
   * The part of `saveRuleChainMetaData` after the related chains are known
   * (:284-309): the metadata reload, the broadcasts, the notifications.
   */
  function PublishRun(chain: RuleChain, list: seq<Option<RuleChain>>, reloaded: Option<RuleChainMetaData>,
                      loadable: set<ChainId>): Run<RuleChainMetaData>
  {
    if reloaded.None? then MetaDataFailure([], Absent)
    else
      var core := CoreBroadcasts(chain, list);
      if core.failure.Some? then MetaDataFailure(core.events, core.failure.value)
      else
        var after := RelatedNotifications(list, chain.chainType == Edge, loadable);
        var events := core.events + PrimaryEvents(chain) + after.events;
        if after.failure.Some? then MetaDataFailure(events, after.failure.value)
        else Run(Ok(reloaded.value), events)
  }

  /**
   * The part of `saveRuleChainMetaData` up to the related chains (:274-282):
   * the save, its success check and, when asked, the related-chain update.
   */
  function PrepareRun(metaDataId: ChainId, updateRelated: bool, saveResult: Result<RuleChainUpdateResult>,
                      related: Result<seq<Option<RuleChain>>>, relatedEvents: seq<Event>): Run<seq<Option<RuleChain>>>
  {
    var e0 := [Called(SaveMetaData(metaDataId))];
    if saveResult.Err? then Run(Err(saveResult.error), e0)
    else if !saveResult.value.success then Run(Err(Absent), e0)
    else
      var e1 := e0 + (if updateRelated then relatedEvents else []);
      if updateRelated && related.Err? then Run(Err(related.error), e1)
      else Run(Ok(RelatedList(updateRelated, related)), e1)
  }

  /**
   * `saveRuleChainMetaData`: `saveResult` is the storage's answer to the save,
   * `related` the chains `updateRelatedRuleChains` returned (asked only when
   * `updateRelated`), `relatedEvents` what that call emitted, `reloaded` the
   * metadata loaded afterwards.
   */
  function SaveMetaDataRun(chain: RuleChain, metaDataId: ChainId, updateRelated: bool,
                           saveResult: Result<RuleChainUpdateResult>, related: Result<seq<Option<RuleChain>>>,
                           relatedEvents: seq<Event>, reloaded: Option<RuleChainMetaData>, loadable: set<ChainId>): Run<RuleChainMetaData>
  {
    var prepared := PrepareRun(metaDataId, updateRelated, saveResult, related, relatedEvents);
    if prepared.result.Err? then MetaDataFailure(prepared.events, prepared.result.error)
    else
      var tail := PublishRun(chain, prepared.result.value, reloaded, loadable);
      Run(tail.result, prepared.events + tail.events)
  }

  /** What a successful metadata save looked like. */
  lemma SaveMetaDataSuccessShape(chain: RuleChain, metaDataId: ChainId, updateRelated: bool,
                                 saveResult: Result<RuleChainUpdateResult>, related: Result<seq<Option<RuleChain>>>,
                                 relatedEvents: seq<Event>, reloaded: Option<RuleChainMetaData>, loadable: set<ChainId>)
    requires SaveMetaDataRun(chain, metaDataId, updateRelated, saveResult, related, relatedEvents, reloaded, loadable).result.Ok?
    ensures saveResult.Ok? && saveResult.value.success && reloaded.Some?
    ensures var list := RelatedList(updateRelated, related);
      && (updateRelated ==> related.Ok?)
      && CoreBroadcasts(chain, list).failure.None?
      && RelatedNotifications(list, chain.chainType == Edge, loadable).failure.None?
      && SaveMetaDataRun(chain, metaDataId, updateRelated, saveResult, related, relatedEvents, reloaded, loadable) ==
         Run(Ok(reloaded.value),
             [Called(SaveMetaData(metaDataId))] + (if updateRelated then relatedEvents else []) +
             CoreBroadcasts(chain, list).events + PrimaryEvents(chain) +
             RelatedNotifications(list, chain.chainType == Edge, loadable).events)
  {
  }

  lemma {:induction false} RelatedBroadcastsSpec(related: seq<Option<RuleChain>>)
    ensures RelatedBroadcasts(related).failure.None? <==> forall c :: c in related ==> c.Some?
    ensures RelatedBroadcasts(related).failure.None? ==>
      forall c :: c in related ==> Broadcast(c.value.id, LifecycleEvent.Updated) in RelatedBroadcasts(related).events
    ensures forall e :: e in RelatedBroadcasts(related).events ==> e.Broadcast?
    decreases |related|
  {
    if |related| > 0 {
      assert forall c :: c in related <==> c == related[0] || c in related[1..];
      if related[0].None? {
        assert related[0] in related;
      } else {
        RelatedBroadcastsSpec(related[1..]);
        var rest := RelatedBroadcasts(related[1..]);
        assert RelatedBroadcasts(related) == Steps([Broadcast(related[0].value.id, LifecycleEvent.Updated)] + rest.events, rest.failure);
      }
    }
  }

  lemma {:induction false} RelatedNotificationsSpec(related: seq<Option<RuleChain>>, primaryIsEdge: bool, loadable: set<ChainId>)
    ensures RelatedNotifications(related, primaryIsEdge, loadable).failure.None? ==>
      forall c :: c in related ==> (c.Some? &&
        (if primaryIsEdge then EdgeMessage(c.value.id) in RelatedNotifications(related, primaryIsEdge, loadable).events
         else Notified(CreateUpdateDelete(c.value.id, Some(c.value), ActionType.Updated, false, false)) in RelatedNotifications(related, primaryIsEdge, loadable).events))
    ensures RelatedNotifications(related, primaryIsEdge, loadable).failure.None? ==>
      Notifications(RelatedNotifications(related, primaryIsEdge, loadable).events) == if primaryIsEdge then 0 else |related|
    ensures forall e :: e in RelatedNotifications(related, primaryIsEdge, loadable).events ==>
      if primaryIsEdge then e.EdgeMessage? else e.Notified?
    decreases |related|
  {
    if |related| > 0 {
      RelatedNotificationsSpec(related[1..], primaryIsEdge, loadable);
      assert forall c :: c in related <==> c == related[0] || c in related[1..];
      var s := RelatedNotifications(related, primaryIsEdge, loadable);
      if related[0].Some? && s.failure.None? {
        var rest := RelatedNotifications(related[1..], primaryIsEdge, loadable);
        assert s.events == [s.events[0]] + rest.events;
        NotificationsAppend([s.events[0]], rest.events);
      }
    }
  }

  /** Running the CORE loop over `s + t` runs it over `s`, then over `t` unless `s` already failed. */
  lemma {:induction false} RelatedBroadcastsAppend(s: seq<Option<RuleChain>>, t: seq<Option<RuleChain>>)
    ensures RelatedBroadcasts(s).failure.Some? ==> RelatedBroadcasts(s + t) == RelatedBroadcasts(s)
    ensures RelatedBroadcasts(s).failure.None? ==>
      RelatedBroadcasts(s + t) == Steps(RelatedBroadcasts(s).events + RelatedBroadcasts(t).events, RelatedBroadcasts(t).failure)
    decreases |s|
  {
    if |s| == 0 {
      assert s + t == t;
    } else {
      assert (s + t)[1..] == s[1..] + t;
      RelatedBroadcastsAppend(s[1..], t);
    }
  }

  /** The same for the notification loop. */
  lemma {:induction false} RelatedNotificationsAppend(s: seq<Option<RuleChain>>, t: seq<Option<RuleChain>>,
                                                     primaryIsEdge: bool, loadable: set<ChainId>)
    ensures RelatedNotifications(s, primaryIsEdge, loadable).failure.Some? ==>
      RelatedNotifications(s + t, primaryIsEdge, loadable) == RelatedNotifications(s, primaryIsEdge, loadable)
    ensures RelatedNotifications(s, primaryIsEdge, loadable).failure.None? ==>
      RelatedNotifications(s + t, primaryIsEdge, loadable) ==
      Steps(RelatedNotifications(s, primaryIsEdge, loadable).events + RelatedNotifications(t, primaryIsEdge, loadable).events,
            RelatedNotifications(t, primaryIsEdge, loadable).failure)
    decreases |s|
  {
    if |s| == 0 {
      assert s + t == t;
    } else {
      assert (s + t)[1..] == s[1..] + t;
      RelatedNotificationsAppend(s[1..], t, primaryIsEdge, loadable);
    }
  }

  /**
   * A failed metadata save always ends with one failure notification carrying
   * the ADDED action (as the code has it).
   */
  lemma SaveMetaDataFailureNotifiesAdded(chain: RuleChain, metaDataId: ChainId, updateRelated: bool,
                                         saveResult: Result<RuleChainUpdateResult>, related: Result<seq<Option<RuleChain>>>,
                                         relatedEvents: seq<Event>, reloaded: Option<RuleChainMetaData>, loadable: set<ChainId>)
    requires SaveMetaDataRun(chain, metaDataId, updateRelated, saveResult, related, relatedEvents, reloaded, loadable).result.Err?
    ensures var events := SaveMetaDataRun(chain, metaDataId, updateRelated, saveResult, related, relatedEvents, reloaded, loadable).events;
      |events| > 0 && events[|events| - 1] == Notified(CreateUpdateDelete(None, None, ActionType.Added, false, true))
  {
  }

  /**
   * A successful metadata save returns the reloaded metadata and sends the
   * generic UPDATED notification for the chain; a CORE chain is broadcast as
   * UPDATED and gets no edge message; an EDGE chain gets an edge message and
   * nothing is broadcast.
   */
  lemma SaveMetaDataPrimaryEvents(chain: RuleChain, metaDataId: ChainId, updateRelated: bool,
                                  saveResult: Result<RuleChainUpdateResult>, related: Result<seq<Option<RuleChain>>>,
                                  relatedEvents: seq<Event>, reloaded: Option<RuleChainMetaData>, loadable: set<ChainId>)
    requires forall e :: e in relatedEvents ==> e.Called?
    requires SaveMetaDataRun(chain, metaDataId, updateRelated, saveResult, related, relatedEvents, reloaded, loadable).result.Ok?
    ensures var run := SaveMetaDataRun(chain, metaDataId, updateRelated, saveResult, related, relatedEvents, reloaded, loadable);
      && reloaded.Some? && run.result.value == reloaded.value
      && Notified(CreateUpdateDelete(chain.id, Some(chain), ActionType.Updated, false, false)) in run.events
      && (chain.chainType == Edge ==> EdgeMessage(chain.id) in run.events && NoBroadcasts(run.events))
      && (chain.chainType == Core ==> Broadcast(chain.id, LifecycleEvent.Updated) in run.events &&
                                      forall e :: e in run.events ==> !e.EdgeMessage?)
  {
    SaveMetaDataSuccessShape(chain, metaDataId, updateRelated, saveResult, related, relatedEvents, reloaded, loadable);
    var list := RelatedList(updateRelated, related);
    RelatedBroadcastsSpec(list);
    RelatedNotificationsSpec(list, chain.chainType == Edge, loadable);
    var e1 := [Called(SaveMetaData(metaDataId))] + (if updateRelated then relatedEvents else []);
    var core := CoreBroadcasts(chain, list).events;
    var primary := PrimaryEvents(chain);
    var after := RelatedNotifications(list, chain.chainType == Edge, loadable).events;
    var events := e1 + core + primary + after;
    assert primary[0] in events;
    if chain.chainType == Edge {
      assert primary[1] in events;
      forall e | e in events ensures !e.Broadcast? {
        assert e in e1 || e in core || e in primary || e in after;
      }
    } else {
      assert core[0] in events;
      forall e | e in events ensures !e.EdgeMessage? {
        assert e in e1 || e in core || e in primary || e in after;
      }
    }
  }

  /**
   * After a successful metadata save every related chain was present; for a
   * CORE chain each was broadcast and notified as UPDATED, for an EDGE chain
   * each got an edge message.
   */
  lemma SaveMetaDataRelatedEvents(chain: RuleChain, metaDataId: ChainId, updateRelated: bool,
                                  saveResult: Result<RuleChainUpdateResult>, related: Result<seq<Option<RuleChain>>>,
                                  relatedEvents: seq<Event>, reloaded: Option<RuleChainMetaData>, loadable: set<ChainId>)
    requires SaveMetaDataRun(chain, metaDataId, updateRelated, saveResult, related, relatedEvents, reloaded, loadable).result.Ok?
    ensures var run := SaveMetaDataRun(chain, metaDataId, updateRelated, saveResult, related, relatedEvents, reloaded, loadable);
      forall c :: c in RelatedList(updateRelated, related) ==> (c.Some? &&
        if chain.chainType == Core
        then Broadcast(c.value.id, LifecycleEvent.Updated) in run.events &&
             Notified(CreateUpdateDelete(c.value.id, Some(c.value), ActionType.Updated, false, false)) in run.events
        else EdgeMessage(c.value.id) in run.events)
  {
    SaveMetaDataSuccessShape(chain, metaDataId, updateRelated, saveResult, related, relatedEvents, reloaded, loadable);
    var list := RelatedList(updateRelated, related);
    RelatedBroadcastsSpec(list);
    RelatedNotificationsSpec(list, chain.chainType == Edge, loadable);
  }

  /** A successful metadata save notifies once for an EDGE chain and once plus once per related chain for a CORE chain. */
  lemma SaveMetaDataNotificationCount(chain: RuleChain, metaDataId: ChainId, updateRelated: bool,
                                      saveResult: Result<RuleChainUpdateResult>, related: Result<seq<Option<RuleChain>>>,
                                      relatedEvents: seq<Event>, reloaded: Option<RuleChainMetaData>, loadable: set<ChainId>)
    requires forall e :: e in relatedEvents ==> e.Called?
    requires SaveMetaDataRun(chain, metaDataId, updateRelated, saveResult, related, relatedEvents, reloaded, loadable).result.Ok?
    ensures Notifications(SaveMetaDataRun(chain, metaDataId, updateRelated, saveResult, related, relatedEvents, reloaded, loadable).events) ==
      if chain.chainType == Core then 1 + |RelatedList(updateRelated, related)| else 1
  {
    SaveMetaDataSuccessShape(chain, metaDataId, updateRelated, saveResult, related, relatedEvents, reloaded, loadable);
    var list := RelatedList(updateRelated, related);
    var e1 := [Called(SaveMetaData(metaDataId))] + (if updateRelated then relatedEvents else []);
    var core := CoreBroadcasts(chain, list).events;
    var primary := PrimaryEvents(chain);
    var after := RelatedNotifications(list, chain.chainType == Edge, loadable).events;
    RelatedBroadcastsSpec(list);
    RelatedNotificationsSpec(list, chain.chainType == Edge, loadable);
    NoNotifications(e1 + core);
    if chain.chainType == Edge {
      NotificationsPair(primary[0], primary[1]);
      assert primary == [primary[0], primary[1]];
    }
    NotificationsAppend(e1 + core, primary);
    NotificationsAppend(e1 + core + primary, after);
  }

  /** Whether the metadata of a related chain can be loaded (:304). */
  predicate MetaDataLoadable(c: Option<RuleChain>, loadable: set<ChainId>) {
    c.Some? && c.value.id.Some? && c.value.id.value in loadable
  }

  /**
   * The CORE notification loop over present chains stops at the first chain
   * whose metadata cannot be loaded, having notified each chain before it.
   */
  lemma {:induction false} RelatedNotificationsStopAt(related: seq<Option<RuleChain>>, loadable: set<ChainId>, k: nat)
    requires k < |related| && related[k].Some? && !MetaDataLoadable(related[k], loadable)
    requires forall j :: 0 <= j < k ==> MetaDataLoadable(related[j], loadable)
    ensures RelatedNotifications(related, false, loadable).failure == Some(Absent)
    ensures Notifications(RelatedNotifications(related, false, loadable).events) == k
    decreases k
  {
    if k > 0 {
      assert MetaDataLoadable(related[0], loadable);
      assert forall j :: 0 <= j < k - 1 ==> related[1..][j] == related[j + 1];
      RelatedNotificationsStopAt(related[1..], loadable, k - 1);
      var rest := RelatedNotifications(related[1..], false, loadable);
      var head := Notified(CreateUpdateDelete(related[0].value.id, Some(related[0].value), ActionType.Updated, false, false));
      assert RelatedNotifications(related, false, loadable).events == [head] + rest.events;
      NotificationsAppend([head], rest.events);
    }
  }

  /**
   * A CORE metadata save whose related chains are all present, but where the
   * metadata of the one at position k cannot be loaded (:304), fails after the primary
   * notification (:293) and the k notifications of the chains before it
   * (:305-306), and then sends the failure note of :311: k + 2 notifications,
   * so always at least two.
   */
  lemma SaveMetaDataLateFailureNotifications(chain: RuleChain, metaDataId: ChainId, updateRelated: bool,
                                             saveResult: Result<RuleChainUpdateResult>, related: Result<seq<Option<RuleChain>>>,
                                             relatedEvents: seq<Event>, reloaded: Option<RuleChainMetaData>,
                                             loadable: set<ChainId>, k: nat)
    requires chain.chainType == Core
    requires forall e :: e in relatedEvents ==> e.Called?
    requires saveResult.Ok? && saveResult.value.success && (updateRelated ==> related.Ok?) && reloaded.Some?
    requires var list := RelatedList(updateRelated, related);
      && (forall c :: c in list ==> c.Some?)
      && k < |list| && !MetaDataLoadable(list[k], loadable)
      && (forall j :: 0 <= j < k ==> MetaDataLoadable(list[j], loadable))
    ensures var run := SaveMetaDataRun(chain, metaDataId, updateRelated, saveResult, related, relatedEvents, reloaded, loadable);
      && run.result == Err(Absent)
      && Notifications(run.events) == k + 2
      && run.events[|run.events| - 1] == FailureNote(None, ActionType.Added)
  {
    var list := RelatedList(updateRelated, related);
    assert list[k] in list;
    RelatedBroadcastsSpec(list);
    RelatedNotificationsStopAt(list, loadable, k);
    var e1 := [Called(SaveMetaData(metaDataId))] + (if updateRelated then relatedEvents else []);
    var core := CoreBroadcasts(chain, list).events;
    var primary := PrimaryEvents(chain);
    var after := RelatedNotifications(list, false, loadable).events;
    var note := FailureNote(None, ActionType.Added);
    assert SaveMetaDataRun(chain, metaDataId, updateRelated, saveResult, related, relatedEvents, reloaded, loadable).events ==
      (e1 + core + primary + after) + [note];
    NoNotifications(e1 + core);
    NotificationsAppend(e1 + core, primary);
    NotificationsAppend(e1 + core + primary, after);
    NotificationsAppend(e1 + core + primary + after, [note]);
  }

  // ---------------------------------------------------------------------------
  // Edge assignment and flag setters
  // ---------------------------------------------------------------------------

  function AssignmentAction(assign: bool): ActionType {
    if assign then ActionType.AssignedToEdge else ActionType.UnassignedFromEdge
  }

  /** `assignRuleChainToEdge` (`assign`) and `unassignRuleChainToEdge`: `stored` is `checkNotNull` of the storage's answer. */
  function AssignmentRun(chain: RuleChain, edge: EdgeRef, assign: bool, stored: Result<RuleChain>): Run<RuleChain> {
    var e0 := [Called(if assign then AssignToEdge(chain.id, edge.id) else UnassignFromEdge(chain.id, edge.id))];
    match stored
    case Err(e) => Run(Err(e), e0 + [FailureNote(None, AssignmentAction(assign))])
    case Ok(s) => Run(Ok(s), e0 + [Notified(EdgeAssignment(chain.id, edge, s, AssignmentAction(assign)))])
  }

  /** `setEdgeTemplateRootRuleChain`, `setAutoAssignToEdgeRuleChain`, `unsetAutoAssignToEdgeRuleChain`. */
  function FlagRun(chain: RuleChain, flag: Flag, outcome: Result<()>): Run<RuleChain> {
    var e0 := [Called(SetFlag(chain.id, flag))];
    match outcome
    case Err(e) => Run(Err(e), e0 + [FailureNote(None, ActionType.Updated)])
    case Ok(_) => Run(Ok(chain), e0 + [Notified(CreateUpdateDelete(chain.id, Some(chain), ActionType.Updated, false, false))])
  }

  /**
   * The assignment and flag envelopes emit exactly one notification, a failed
   * one exactly when storage failed, and never broadcast.
   */
  lemma AssignmentAndFlagProperties(chain: RuleChain, edge: EdgeRef, assign: bool, stored: Result<RuleChain>,
                                    flag: Flag, outcome: Result<()>)
    ensures Notifications(AssignmentRun(chain, edge, assign, stored).events) == 1
    ensures Notifications(FlagRun(chain, flag, outcome).events) == 1
    ensures NoBroadcasts(AssignmentRun(chain, edge, assign, stored).events) && NoBroadcasts(FlagRun(chain, flag, outcome).events)
    ensures AssignmentRun(chain, edge, assign, stored).result == stored
    ensures FlagRun(chain, flag, outcome).result.Err? <==> outcome.Err?
    ensures stored.Ok? ==> Notified(EdgeAssignment(chain.id, edge, stored.value, AssignmentAction(assign))) in AssignmentRun(chain, edge, assign, stored).events
    ensures stored.Err? ==> FailureNote(None, AssignmentAction(assign)) in AssignmentRun(chain, edge, assign, stored).events
    ensures outcome.Ok? ==> Notified(CreateUpdateDelete(chain.id, Some(chain), ActionType.Updated, false, false)) in FlagRun(chain, flag, outcome).events
    ensures outcome.Err? ==> FailureNote(None, ActionType.Updated) in FlagRun(chain, flag, outcome).events
  {
    var a := AssignmentRun(chain, edge, assign, stored).events;
    var f := FlagRun(chain, flag, outcome).events;
    NotificationsAppend([a[0]], [a[1]]);
    NotificationsAppend([f[0]], [f[1]]);
    assert a == [a[0]] + [a[1]] && f == [f[0]] + [f[1]];
  }
}
