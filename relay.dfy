/**
 * `NotificationListener`: receives the host's notification events, keeps only those worth
 * forwarding, and relays them to the core service over a binder link it supervises. While the
 * link is down, batches are parked per action and flushed once the link comes back.
 */
module Relay {
  import opened Common
  import opened Platform

  /** The reconnect delay in milliseconds after the link is lost (`BLE_SERVICE_RECONNECT_DELAY`). */
  const BLE_SERVICE_RECONNECT_DELAY: int := 5000

  /** `Action`: what happened to a notification. */
  datatype Action = Posted | Removed

  /** The messages of the listener's worker queue (`MSG_*`); a delay is kept as a tag only. */
  datatype WorkerMessage =
    | ConnectBleCore(delay: int)
    | NotificationFullRefresh
    | NotificationPosted(sbn: HostStatusBarNotification)
    | NotificationRemoved(sbn: HostStatusBarNotification)
    | FlushPendingNotifications
    | UnknownMessage(what: int)

  /** One call on the core service: `onNotificationPosted` or `onNotificationRemoved`. */
  datatype Forward = Forward(action: Action, sbn: HostStatusBarNotification)

  /** One entry of `pendingNotifications`: an action and the parked notifications, in map order. */
  datatype PendingBatch = PendingBatch(action: Action, notifications: seq<HostStatusBarNotification>)

  /** No two notifications share an id. */
  ghost predicate DistinctIds(ns: seq<HostStatusBarNotification>) {
    forall i, j :: 0 <= i < j < |ns| ==> ns[i].id != ns[j].id
  }

  /** `LinkedHashMap.put` keyed by id: replaces the value in place, or appends a new key. */
  function Put(ns: seq<HostStatusBarNotification>, sbn: HostStatusBarNotification): seq<HostStatusBarNotification> {
    if ns == [] then [sbn]
    else if ns[0].id == sbn.id then [sbn] + ns[1..]
    else [ns[0]] + Put(ns[1..], sbn)
  }

  /** The values of `notifications.associate { it.id to it }`. */
  function Associate(ns: seq<HostStatusBarNotification>): seq<HostStatusBarNotification> {
    if ns == [] then [] else Put(Associate(ns[..|ns| - 1]), ns[|ns| - 1])
  }

  /** `put` keeps `sbn` and every entry under another id, and adds nothing else. */
  lemma {:induction false} PutMembers(ns: seq<HostStatusBarNotification>, sbn: HostStatusBarNotification)
    ensures sbn in Put(ns, sbn)
    ensures forall x :: x in Put(ns, sbn) ==> x == sbn || x in ns
    ensures forall x :: x in ns && x.id != sbn.id ==> x in Put(ns, sbn)
  {
    if ns != [] {
      assert ns == [ns[0]] + ns[1..];
      if ns[0].id != sbn.id {
        PutMembers(ns[1..], sbn);
      }
    }
  }

  /** Dropping the head of a sequence with distinct ids leaves them distinct. */
  lemma DistinctTail(ns: seq<HostStatusBarNotification>)
    requires ns != [] && DistinctIds(ns)
    ensures DistinctIds(ns[1..])
    ensures forall x :: x in ns[1..] ==> x.id != ns[0].id
  {
    var tail := ns[1..];
    forall i, j | 0 <= i < j < |tail|
      ensures tail[i].id != tail[j].id
    {
      assert tail[i] == ns[i + 1] && tail[j] == ns[j + 1];
    }
    forall x | x in tail
      ensures x.id != ns[0].id
    {
      var k :| 0 <= k < |tail| && tail[k] == x;
      assert ns[k + 1] == x;
    }
  }

  /** Putting in front of a sequence with distinct ids an entry whose id is not among them keeps the ids distinct. */
  lemma DistinctCons(x: HostStatusBarNotification, ns: seq<HostStatusBarNotification>)
    requires DistinctIds(ns) && forall y :: y in ns ==> y.id != x.id
    ensures DistinctIds([x] + ns)
  {
    var r := [x] + ns;
    forall i, j | 0 <= i < j < |r|
      ensures r[i].id != r[j].id
    {
      assert r[j] == ns[j - 1];
      if i > 0 {
        assert r[i] == ns[i - 1];
      }
    }
  }

  /** `put` on a map with distinct keys leaves the keys distinct. */
  lemma {:induction false} PutDistinct(ns: seq<HostStatusBarNotification>, sbn: HostStatusBarNotification)
    requires DistinctIds(ns)
    ensures DistinctIds(Put(ns, sbn))
  {
    if ns != [] {
      var tail := ns[1..];
      DistinctTail(ns);
      if ns[0].id == sbn.id {
        DistinctCons(sbn, tail);
      } else {
        PutDistinct(tail, sbn);
        PutMembers(tail, sbn);
        DistinctCons(ns[0], Put(tail, sbn));
      }
    }
  }

  lemma PutContents(ns: seq<HostStatusBarNotification>, sbn: HostStatusBarNotification)
    requires DistinctIds(ns)
    ensures DistinctIds(Put(ns, sbn))
    ensures sbn in Put(ns, sbn)
    ensures forall x :: x in Put(ns, sbn) ==> x == sbn || (x in ns && x.id != sbn.id)
    ensures forall x :: x in ns && x.id != sbn.id ==> x in Put(ns, sbn)
  {
    PutMembers(ns, sbn);
    PutDistinct(ns, sbn);
    var r := Put(ns, sbn);
    forall x | x in r && x != sbn
      ensures x.id != sbn.id
    {
      var k :| 0 <= k < |r| && r[k] == x;
      var l :| 0 <= l < |r| && r[l] == sbn;
      assert k != l;
    }
  }

  /** Keying a batch by id leaves no id twice. */
  lemma {:induction false} AssociateDistinctIds(ns: seq<HostStatusBarNotification>)
    ensures DistinctIds(Associate(ns))
    ensures forall x :: x in Associate(ns) ==> x in ns
  {
    if ns != [] {
      var init := ns[..|ns| - 1];
      AssociateDistinctIds(init);
      PutContents(Associate(init), ns[|ns| - 1]);
    }
  }

  /** Keying a batch by id keeps every id of the batch. */
  lemma {:induction false} AssociateKeepsIds(ns: seq<HostStatusBarNotification>)
    ensures forall i :: 0 <= i < |ns| ==> exists x :: x in Associate(ns) && x.id == ns[i].id
  {
    if ns != [] {
      var init := ns[..|ns| - 1];
      var last := ns[|ns| - 1];
      AssociateKeepsIds(init);
      AssociateDistinctIds(init);
      PutContents(Associate(init), last);
      forall i | 0 <= i < |ns|
        ensures exists x :: x in Associate(ns) && x.id == ns[i].id
      {
        if i == |ns| - 1 || ns[i].id == last.id {
          assert last in Associate(ns) && last.id == ns[i].id;
        } else {
          assert init[i] == ns[i];
          var x :| x in Associate(init) && x.id == ns[i].id;
          assert x in Associate(ns);
        }
      }
    }
  }

  /** `ns[i]` is `x` and no later entry of `ns` has its id. */
  ghost predicate LastOccurrence(ns: seq<HostStatusBarNotification>, i: int, x: HostStatusBarNotification) {
    0 <= i < |ns| && ns[i] == x && forall j :: i < j < |ns| ==> ns[j].id != x.id
  }

  /** Appending an entry under another id keeps a last occurrence the last one. */
  lemma LastOccurrenceSnoc(ns: seq<HostStatusBarNotification>, i: int, x: HostStatusBarNotification,
                           y: HostStatusBarNotification)
    requires LastOccurrence(ns, i, x) && y.id != x.id
    ensures LastOccurrence(ns + [y], i, x)
  {
    var ns' := ns + [y];
    forall j | i < j < |ns'|
      ensures ns'[j].id != x.id
    {
      if j < |ns| {
        assert ns'[j] == ns[j];
      }
    }
  }

  /** The value kept for an id is its last occurrence in the batch: later duplicates win. */
  lemma {:induction false} AssociateLastWins(ns: seq<HostStatusBarNotification>)
    ensures forall x :: x in Associate(ns) ==> exists i :: LastOccurrence(ns, i, x)
  {
    if ns != [] {
      var init := ns[..|ns| - 1];
      var last := ns[|ns| - 1];
      assert ns == init + [last];
      AssociateLastWins(init);
      AssociateDistinctIds(init);
      PutContents(Associate(init), last);
      forall x | x in Associate(ns)
        ensures exists i :: LastOccurrence(ns, i, x)
      {
        if x == last {
          assert LastOccurrence(ns, |ns| - 1, x);
        } else {
          var i :| LastOccurrence(init, i, x);
          LastOccurrenceSnoc(init, i, x, last);
        }
      }
    }
  }

  /** Putting a notification whose id is new appends it. */
  lemma {:induction false} PutFresh(ns: seq<HostStatusBarNotification>, sbn: HostStatusBarNotification)
    requires forall i :: 0 <= i < |ns| ==> ns[i].id != sbn.id
    ensures Put(ns, sbn) == ns + [sbn]
  {
    if ns != [] {
      PutFresh(ns[1..], sbn);
      assert [ns[0]] + (ns[1..] + [sbn]) == ns + [sbn];
    }
  }

  /** A batch whose ids are already distinct is kept as it is. */
  lemma {:induction false} AssociateDistinct(ns: seq<HostStatusBarNotification>)
    requires DistinctIds(ns)
    ensures Associate(ns) == ns
  {
    if ns != [] {
      var init := ns[..|ns| - 1];
      var last := ns[|ns| - 1];
      assert DistinctIds(init) by {
        forall i, j | 0 <= i < j < |init|
          ensures init[i].id != init[j].id
        {
          assert init[i] == ns[i] && init[j] == ns[j];
        }
      }
      AssociateDistinct(init);
      forall i | 0 <= i < |init|
        ensures init[i].id != last.id
      {
        assert init[i] == ns[i];
      }
      PutFresh(init, last);
      assert init + [last] == ns;
    }
  }

  /** The calls `forEach` makes on the service for a batch. */
  function Forwards(action: Action, ns: seq<HostStatusBarNotification>): seq<Forward> {
    seq(|ns|, i requires 0 <= i < |ns| => Forward(action, ns[i]))
  }

  /** The calls re-pushing a whole pending snapshot makes on a bound service, batch by batch. */
  function FlushForwards(batches: seq<PendingBatch>): seq<Forward> {
    if batches == [] then []
    else
      var last := batches[|batches| - 1];
      FlushForwards(batches[..|batches| - 1]) + Forwards(last.action, last.notifications)
  }

  /** How many connect messages are queued. */
  function ConnectCount(queue: seq<WorkerMessage>): nat {
    if queue == [] then 0
    else ConnectCount(queue[..|queue| - 1]) + (if queue[|queue| - 1].ConnectBleCore? then 1 else 0)
  }

  lemma {:induction false} ConnectCountZero(queue: seq<WorkerMessage>)
    ensures ConnectCount(queue) == 0 <==> forall i :: 0 <= i < |queue| ==> !queue[i].ConnectBleCore?
  {
    if queue != [] {
      var init := queue[..|queue| - 1];
      ConnectCountZero(init);
      assert forall i :: 0 <= i < |init| ==> init[i] == queue[i];
    }
  }

  lemma {:induction false} ConnectCountAppend(queue: seq<WorkerMessage>, extra: seq<WorkerMessage>)
    ensures ConnectCount(queue + extra) == ConnectCount(queue) + ConnectCount(extra)
    decreases |extra|
  {
    if extra == [] {
      assert queue + extra == queue;
    } else {
      var init := extra[..|extra| - 1];
      var both := queue + extra;
      assert both[..|both| - 1] == queue + init;
      assert both[|both| - 1] == extra[|extra| - 1];
      ConnectCountAppend(queue, init);
    }
  }

  lemma {:induction false} ConnectCountRemove(queue: seq<WorkerMessage>, k: nat)
    requires k < |queue|
    ensures ConnectCount(queue[..k] + queue[k + 1..]) + (if queue[k].ConnectBleCore? then 1 else 0) == ConnectCount(queue)
  {
    ConnectCountAppend(queue[..k], queue[k + 1..]);
    ConnectCountAppend(queue[..k], queue[k..]);
    ConnectCountAppend([queue[k]], queue[k + 1..]);
    assert queue[k..] == [queue[k]] + queue[k + 1..];
    assert queue[..k] + queue[k..] == queue;
    assert [queue[k]][..0] == [];
  }

  /** Whether a batch is parked for `action`. */
  predicate Parked(pending: seq<PendingBatch>, action: Action) {
    exists i :: 0 <= i < |pending| && pending[i].action == action
  }

  /**
   * `pendingNotifications.computeIfAbsent(action) { associate }`: a batch is parked for `action`
   * unless one already is, in which case the new one is dropped.
   */
  function Park(pending: seq<PendingBatch>, action: Action, ns: seq<HostStatusBarNotification>): seq<PendingBatch> {
    if Parked(pending, action) then pending else pending + [PendingBatch(action, Associate(ns))]
  }

  /** The worker queue once a reconnect is scheduled: a connect message is added unless one is queued. */
  function Reconnect(queue: seq<WorkerMessage>, delay: int): seq<WorkerMessage> {
    if ConnectCount(queue) == 1 then queue else queue + [ConnectBleCore(delay)]
  }

  /** At most one parked batch per action, each keyed by id. */
  ghost predicate WellFormed(pending: seq<PendingBatch>) {
    && (forall i, j :: 0 <= i < j < |pending| ==> pending[i].action != pending[j].action)
    && (forall i :: 0 <= i < |pending| ==> DistinctIds(pending[i].notifications))
  }

  lemma ParkKeepsWellFormed(pending: seq<PendingBatch>, action: Action, ns: seq<HostStatusBarNotification>)
    requires WellFormed(pending) && !Parked(pending, action)
    ensures WellFormed(pending + [PendingBatch(action, Associate(ns))])
  {
    AssociateDistinctIds(ns);
    var p := pending + [PendingBatch(action, Associate(ns))];
    forall i, j | 0 <= i < j < |p|
      ensures p[i].action != p[j].action
    {
      if j == |pending| {
        assert p[i] == pending[i];
      }
    }
  }

  /** Re-parking the batches of a snapshot one by one rebuilds the snapshot. */
  lemma Repark(snapshot: seq<PendingBatch>, i: nat)
    requires WellFormed(snapshot) && i < |snapshot|
    ensures !Parked(snapshot[..i], snapshot[i].action)
    ensures snapshot[..i] + [PendingBatch(snapshot[i].action, Associate(snapshot[i].notifications))] == snapshot[..i + 1]
  {
    AssociateDistinct(snapshot[i].notifications);
    assert snapshot[..i + 1] == snapshot[..i] + [snapshot[i]];
  }

  /** Flushing one more batch forwards that batch after the earlier ones. */
  lemma FlushForwardsStep(snapshot: seq<PendingBatch>, i: nat)
    requires i < |snapshot|
    ensures FlushForwards(snapshot[..i + 1])
      == FlushForwards(snapshot[..i]) + Forwards(snapshot[i].action, snapshot[i].notifications)
  {
    assert snapshot[..i + 1][..i] == snapshot[..i];
  }

  class NotificationListener {
    /** This app's own package name. */
    const packageName: string
    /** `pendingNotifications`, in insertion order. */
    var pending: seq<PendingBatch>
    /** Whether `coreBleService` is bound. */
    var serviceBound: bool
    /** Whether the host has connected this listener. */
    var connected: bool
    /** The worker queue: messages posted and not yet handled. */
    var queue: seq<WorkerMessage>

    ghost predicate Valid()
      reads this
    {
      ConnectCount(queue) <= 1 && WellFormed(pending)
    }

    /** `onCreate`: nothing bound or pending; a link to the core is scheduled at once. */
    constructor(packageName: string)
      ensures Valid() && this.packageName == packageName
      ensures pending == [] && !serviceBound && !connected
      ensures queue == [ConnectBleCore(0)]
    {
      this.packageName := packageName;
      pending := [];
      serviceBound := false;
      connected := false;
      queue := [ConnectBleCore(0)];
      new;
      assert queue[..0] == [];
    }

    /**
     * `notificationIsValidForPost`: not from this app, not a group summary, and not missing both
     * title and text.
     */
    predicate IsValidForPost(sbn: HostStatusBarNotification)
    {
      && sbn.packageName != packageName
      && !IsGroupSummary(sbn.notification.flags)
      && !(IsEmptyText(sbn.notification.title) && IsEmptyText(sbn.notification.text))
    }

    /** `scheduleLinkToBleCore`: a connect is queued unless one already is. */
    method ScheduleLinkToBleCore(delay: int)
      requires Valid()
      modifies this
      ensures Valid()
      ensures ConnectCount(queue) == 1
      ensures queue == Reconnect(old(queue), delay)
      ensures pending == old(pending) && serviceBound == old(serviceBound) && connected == old(connected)
    {
      if exists i :: 0 <= i < |queue| && queue[i].ConnectBleCore? {
        ConnectCountZero(queue);
        return;
      }
      ConnectCountZero(queue);
      ConnectCountAppend(queue, [ConnectBleCore(delay)]);
      assert [ConnectBleCore(delay)][..0] == [];
      queue := queue + [ConnectBleCore(delay)];
    }

    /**
     * `pushToCoreService`: with the service bound, every notification is forwarded in batch
     * order; without it, a reconnect is scheduled and the batch, keyed by id, is parked only if
     * nothing is parked for that action yet.
     */
    method PushToCoreService(notifications: seq<HostStatusBarNotification>, action: Action)
      returns (forwarded: seq<Forward>)
      requires Valid()
      modifies this
      ensures Valid()
      ensures serviceBound ==>
        forwarded == Forwards(action, notifications) && pending == old(pending) && queue == old(queue)
      ensures !serviceBound ==>
        && forwarded == []
        && ConnectCount(queue) == 1
        && queue == Reconnect(old(queue), BLE_SERVICE_RECONNECT_DELAY)
        && pending == Park(old(pending), action, notifications)
      ensures serviceBound == old(serviceBound) && connected == old(connected)
    {
      if !serviceBound {
        ScheduleLinkToBleCore(BLE_SERVICE_RECONNECT_DELAY);
        if !Parked(pending, action) {
          ParkKeepsWellFormed(pending, action, notifications);
          pending := pending + [PendingBatch(action, Associate(notifications))];
        }
        return [];
      }
      forwarded := [];
      for i := 0 to |notifications|
        invariant forwarded == Forwards(action, notifications[..i])
      {
        forwarded := forwarded + [Forward(action, notifications[i])];
      }
      assert notifications[..|notifications|] == notifications;
    }

    /**
     * `MSG_FLUSH_PENDING_NOTIFICATIONS`: the parked batches are taken and cleared, then each is
     * pushed again in order; with the service bound they are all forwarded, without it they are
     * parked again exactly as they were.
     */
    method FlushPending() returns (forwarded: seq<Forward>)
      requires Valid()
      modifies this
      ensures Valid()
      ensures serviceBound ==> forwarded == FlushForwards(old(pending)) && pending == [] && queue == old(queue)
      ensures !serviceBound ==>
        && forwarded == [] && pending == old(pending)
        && queue == if old(pending) == [] then old(queue) else Reconnect(old(queue), BLE_SERVICE_RECONNECT_DELAY)
      ensures serviceBound == old(serviceBound) && connected == old(connected)
    {
      var snapshot := pending;
      pending := [];
      forwarded := [];
      for i := 0 to |snapshot|
        invariant Valid()
        invariant serviceBound == old(serviceBound) && connected == old(connected)
        invariant serviceBound ==> forwarded == FlushForwards(snapshot[..i]) && pending == [] && queue == old(queue)
        invariant !serviceBound ==> forwarded == [] && pending == snapshot[..i]
        invariant !serviceBound && i == 0 ==> queue == old(queue)
        invariant !serviceBound && i > 0 ==>
          queue == Reconnect(old(queue), BLE_SERVICE_RECONNECT_DELAY) && ConnectCount(queue) == 1
      {
        var batch := snapshot[i];
        if serviceBound {
          FlushForwardsStep(snapshot, i);
        } else {
          Repark(snapshot, i);
        }
        var more := PushToCoreService(batch.notifications, batch.action);
        forwarded := forwarded + more;
      }
      assert snapshot[..|snapshot|] == snapshot;
    }

    /**
     * `handleWorkerMessage` for one message: `active` is what `getActiveNotifications(emptyArray())`
     * returns, `None` when it throws a `SecurityException`. Returns whether the message is known, whether
     * a bind to the core service is requested, and the calls made on the service.
     */
    method HandleWorkerMessage(msg: WorkerMessage, active: Option<seq<HostStatusBarNotification>>)
      returns (handled: bool, bind: bool, forwarded: seq<Forward>)
      requires Valid()
      modifies this
      ensures Valid()
      ensures handled <==> !msg.UnknownMessage?
      ensures bind <==> msg.ConnectBleCore?
      ensures msg.ConnectBleCore? || msg.UnknownMessage? ==> forwarded == [] && queue == old(queue) && pending == old(pending)
      ensures (msg.NotificationPosted? || msg.NotificationRemoved?) && !IsValidForPost(msg.sbn) ==>
        forwarded == [] && pending == old(pending) && queue == old(queue)
      ensures msg.NotificationPosted? && IsValidForPost(msg.sbn) && serviceBound ==>
        forwarded == [Forward(Posted, msg.sbn)] && pending == old(pending) && queue == old(queue)
      ensures msg.NotificationRemoved? && IsValidForPost(msg.sbn) && serviceBound ==>
        forwarded == [Forward(Removed, msg.sbn)] && pending == old(pending) && queue == old(queue)
      ensures (msg.NotificationPosted? || msg.NotificationRemoved?) && IsValidForPost(msg.sbn) && !serviceBound ==>
        && forwarded == []
        && pending == Park(old(pending), if msg.NotificationPosted? then Posted else Removed, [msg.sbn])
        && queue == Reconnect(old(queue), BLE_SERVICE_RECONNECT_DELAY)
      ensures msg.NotificationFullRefresh? && serviceBound ==>
        forwarded == Forwards(Posted, if connected && active.Some? then ValidForPost(active.value) else [])
        && pending == old(pending) && queue == old(queue)
      ensures msg.NotificationFullRefresh? && !serviceBound ==>
        && forwarded == []
        && pending == Park(old(pending), Posted, if connected && active.Some? then ValidForPost(active.value) else [])
        && queue == Reconnect(old(queue), BLE_SERVICE_RECONNECT_DELAY)
      ensures msg.FlushPendingNotifications? && serviceBound ==>
        forwarded == FlushForwards(old(pending)) && pending == [] && queue == old(queue)
      ensures msg.FlushPendingNotifications? && !serviceBound ==>
        && forwarded == [] && pending == old(pending)
        && queue == if old(pending) == [] then old(queue) else Reconnect(old(queue), BLE_SERVICE_RECONNECT_DELAY)
      ensures serviceBound == old(serviceBound) && connected == old(connected)
    {
      handled, bind, forwarded := true, false, [];
      match msg {
        case ConnectBleCore(_) =>
          bind := true;
        case NotificationFullRefresh =>
          var valid := if connected && active.Some? then ValidForPost(active.value) else [];
          forwarded := PushToCoreService(valid, Posted);
        case NotificationPosted(sbn) =>
          if IsValidForPost(sbn) {
            forwarded := PushToCoreService([sbn], Posted);
          }
        case NotificationRemoved(sbn) =>
          if IsValidForPost(sbn) {
            forwarded := PushToCoreService([sbn], Removed);
          }
        case FlushPendingNotifications =>
          forwarded := FlushPending();
        case UnknownMessage(_) =>
          handled := false;
      }
    }

    /** `filter { notificationIsValidForPost(it) }`, order kept. */
    function ValidForPost(ns: seq<HostStatusBarNotification>): (r: seq<HostStatusBarNotification>)
      ensures forall x :: x in r <==> x in ns && IsValidForPost(x)
      ensures |r| <= |ns|
    {
      if ns == [] then []
      else (if IsValidForPost(ns[0]) then [ns[0]] else []) + ValidForPost(ns[1..])
    }

    /**
     * The worker looper delivers one queued message (the one at `k`, as delays may reorder them)
     * and handles it. Handling a connect message removes it from the queue, so a new one may be
     * scheduled afterwards.
     */
    method ProcessMessage(k: nat, active: Option<seq<HostStatusBarNotification>>)
      returns (handled: bool, bind: bool, forwarded: seq<Forward>)
      requires Valid() && k < |queue|
      modifies this
      ensures Valid()
      ensures serviceBound == old(serviceBound) && connected == old(connected)
      ensures handled <==> !old(queue[k]).UnknownMessage?
      ensures bind <==> old(queue[k]).ConnectBleCore?
      ensures old(queue[k]).ConnectBleCore? ==> ConnectCount(queue) == 0
      ensures var msg, rest := old(queue[k]), old(queue[..k] + queue[k + 1..]);
        && (msg.ConnectBleCore? || msg.UnknownMessage? ==> forwarded == [] && queue == rest && pending == old(pending))
        && ((msg.NotificationPosted? || msg.NotificationRemoved?) && !IsValidForPost(msg.sbn) ==>
              forwarded == [] && queue == rest && pending == old(pending))
        && ((msg.NotificationPosted? || msg.NotificationRemoved?) && IsValidForPost(msg.sbn) && serviceBound ==>
              && forwarded == [Forward(if msg.NotificationPosted? then Posted else Removed, msg.sbn)]
              && queue == rest && pending == old(pending))
        && ((msg.NotificationPosted? || msg.NotificationRemoved?) && IsValidForPost(msg.sbn) && !serviceBound ==>
              && forwarded == []
              && queue == Reconnect(rest, BLE_SERVICE_RECONNECT_DELAY)
              && pending == Park(old(pending), if msg.NotificationPosted? then Posted else Removed, [msg.sbn]))
        && (msg.NotificationFullRefresh? && serviceBound ==>
              && forwarded == Forwards(Posted, if connected && active.Some? then ValidForPost(active.value) else [])
              && queue == rest && pending == old(pending))
        && (msg.NotificationFullRefresh? && !serviceBound ==>
              && forwarded == []
              && queue == Reconnect(rest, BLE_SERVICE_RECONNECT_DELAY)
              && pending == Park(old(pending), Posted, if connected && active.Some? then ValidForPost(active.value) else []))
        && (msg.FlushPendingNotifications? && serviceBound ==>
              forwarded == FlushForwards(old(pending)) && queue == rest && pending == [])
        && (msg.FlushPendingNotifications? && !serviceBound ==>
              && forwarded == [] && pending == old(pending)
              && queue == if old(pending) == [] then rest else Reconnect(rest, BLE_SERVICE_RECONNECT_DELAY))
    {
      var msg := queue[k];
      ConnectCountRemove(queue, k);
      queue := queue[..k] + queue[k + 1..];
      handled, bind, forwarded := HandleWorkerMessage(msg, active);
    }

    /** `onServiceConnected`: the service is recorded (a null binder gives none) and a flush is posted. */
    method OnServiceConnected(bound: bool)
      requires Valid()
      modifies this
      ensures Valid()
      ensures serviceBound == bound && queue == old(queue) + [FlushPendingNotifications]
      ensures pending == old(pending) && connected == old(connected)
    {
      serviceBound := bound;
      ConnectCountAppend(queue, [FlushPendingNotifications]);
      assert [FlushPendingNotifications][..0] == [];
      queue := queue + [FlushPendingNotifications];
    }

    /** `onServiceDisconnected`: the service is forgotten and a reconnect is scheduled after the delay. */
    method OnServiceDisconnected()
      requires Valid()
      modifies this
      ensures Valid()
      ensures !serviceBound && ConnectCount(queue) == 1
      ensures queue == Reconnect(old(queue), BLE_SERVICE_RECONNECT_DELAY)
      ensures pending == old(pending) && connected == old(connected)
    {
      serviceBound := false;
      ScheduleLinkToBleCore(BLE_SERVICE_RECONNECT_DELAY);
    }

    /** `onListenerConnected`: marks the listener connected and posts a full refresh. */
    method OnListenerConnected()
      requires Valid()
      modifies this
      ensures Valid()
      ensures connected && queue == old(queue) + [NotificationFullRefresh]
      ensures pending == old(pending) && serviceBound == old(serviceBound)
    {
      connected := true;
      ConnectCountAppend(queue, [NotificationFullRefresh]);
      assert [NotificationFullRefresh][..0] == [];
      queue := queue + [NotificationFullRefresh];
    }

    /** `onListenerDisconnected` */
    method OnListenerDisconnected()
      modifies this
      ensures !connected
      ensures queue == old(queue) && pending == old(pending) && serviceBound == old(serviceBound)
    {
      connected := false;
    }

    /** `onNotificationPosted` and `onNotificationRemoved`: a non-null notification is posted to the worker. */
    method OnNotificationEvent(action: Action, sbn: Option<HostStatusBarNotification>)
      requires Valid()
      modifies this
      ensures Valid()
      ensures queue == old(queue) + (if sbn.None? then []
                                     else if action == Posted then [NotificationPosted(sbn.value)]
                                     else [NotificationRemoved(sbn.value)])
      ensures pending == old(pending) && serviceBound == old(serviceBound) && connected == old(connected)
    {
      if sbn.Some? {
        var msg := if action == Posted then NotificationPosted(sbn.value) else NotificationRemoved(sbn.value);
        ConnectCountAppend(queue, [msg]);
        assert [msg][..0] == [];
        queue := queue + [msg];
      }
    }
  }
}
