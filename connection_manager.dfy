/** The server-side connection registry: one live socket per session and, per session, a
    bounded FIFO of payloads that could not be delivered. The transport is external: each
    send over a socket is an oracle outcome given by the caller, and `wire` records, in order,
    every payload a socket accepted. Heartbeats are not modelled. */
module ConnectionRegistry {
  import opened Seqs
  import opened Text
  import Events

  type SessionId = int

  /** `MAX_QUEUE_SIZE`: capacity of each session's queue. */
  const MaxQueueSize: nat := 100

  /** An opaque transport handle. */
  datatype Socket = Socket(handle: nat)

  /** What one `websocket.send_text` did: accepted the frame, raised `WebSocketDisconnect`, or
      raised any other exception. */
  datatype SendOutcome = Accepted | PeerDisconnected | SendFailed

  datatype Delivery = Delivery(socket: Socket, payload: string)

  /** The payloads of `q` written to `ws`, in order. */
  function Deliveries(ws: Socket, q: seq<string>): (r: seq<Delivery>)
    ensures |r| == |q|
  {
    if q == [] then [] else Deliveries(ws, q[..|q| - 1]) + [Delivery(ws, q[|q| - 1])]
  }

  /** The `i`-th delivery carries the `i`-th payload to `ws`. */
  lemma {:induction false} DeliveriesAt(ws: Socket, q: seq<string>, i: int)
    requires 0 <= i < |q|
    ensures Deliveries(ws, q)[i] == Delivery(ws, q[i])
  {
    if i < |q| - 1 {
      DeliveriesAt(ws, q[..|q| - 1], i);
    }
  }

  /** `deque(maxlen=MAX_QUEUE_SIZE).append`: a full queue drops its oldest entry. */
  function Enqueue(q: seq<string>, m: string): (r: seq<string>)
    requires |q| <= MaxQueueSize
    ensures |r| <= MaxQueueSize && r != [] && r[|r| - 1] == m
  {
    if |q| == MaxQueueSize then q[1..] + [m] else q + [m]
  }

  /** The last `n` elements of `s` (all of them when there are fewer). */
  function Newest(s: seq<string>, n: nat): (r: seq<string>)
    ensures |r| == if |s| <= n then |s| else n
  {
    if |s| <= n then s else s[|s| - n..]
  }

  /** A queue always holds the newest payloads queued for the session, up to capacity, in the
      order they were queued. */
  lemma EnqueueKeepsNewest(q: seq<string>, m: string)
    requires |q| <= MaxQueueSize
    ensures Enqueue(q, m) == Newest(q + [m], MaxQueueSize)
  {
  }

  /** Queueing `ms` one after another, as successive sends to a session without a live
      connection do. */
  function EnqueueAll(q: seq<string>, ms: seq<string>): (r: seq<string>)
    requires |q| <= MaxQueueSize
    ensures |r| <= MaxQueueSize
    decreases |ms|
  {
    if ms == [] then q else EnqueueAll(Enqueue(q, ms[0]), ms[1..])
  }

  /** N sends queued from the same starting queue leave exactly the newest 100 of the old
      entries followed by the N payloads, in call order; so from an empty queue N <= 100 sends
      leave the N payloads, and the 101st evicts the first. */
  lemma {:induction false} EnqueueAllKeepsNewest(q: seq<string>, ms: seq<string>)
    requires |q| <= MaxQueueSize
    ensures EnqueueAll(q, ms) == Newest(q + ms, MaxQueueSize)
    decreases |ms|
  {
    if ms != [] {
      var q' := Enqueue(q, ms[0]);
      EnqueueAllKeepsNewest(q', ms[1..]);
      NewestOfNewest(q + [ms[0]], ms[1..]);
      assert q + ms == (q + [ms[0]]) + ms[1..];
    }
  }

  lemma NewestOfNewest(s: seq<string>, t: seq<string>)
    ensures Newest(Newest(s, MaxQueueSize) + t, MaxQueueSize) == Newest(s + t, MaxQueueSize)
  {
    var n := MaxQueueSize;
    if |s| > n {
      var u := s[|s| - n..] + t;
      var v := s + t;
      assert |v| > n;
      assert u[|u| - n..] == v[|v| - n..];
    }
  }

  ghost predicate Bounded(queues: map<SessionId, seq<string>>) {
    forall sid :: sid in queues ==> |queues[sid]| <= MaxQueueSize
  }

  function QueueOf(queues: map<SessionId, seq<string>>, sid: SessionId): seq<string> {
    if sid in queues then queues[sid] else []
  }

  /** Number of sends of a flush that succeed before the first failing one: the payloads
      of `q` are sent in order, the i-th attempt (counting from `start`) succeeding when
      `ok(i)` holds. */
  function FlushRun(q: seq<string>, ok: nat -> bool, start: nat): (k: nat)
    ensures k <= |q|
    ensures forall i :: start <= i < start + k ==> ok(i)
    ensures k < |q| ==> !ok(start + k)
  {
    if q == [] || !ok(start) then 0 else 1 + FlushRun(q[1..], ok, start + 1)
  }

  /** What stays queued after a flush that delivered `k` payloads: the payload whose send
      failed has already been popped, so it is neither delivered nor kept. */
  function FlushRest(q: seq<string>, k: nat): seq<string>
    requires k <= |q|
  {
    if k < |q| then q[k + 1..] else []
  }

  /** When every send succeeds the whole queue goes out in FIFO order and nothing stays queued. */
  lemma FlushAllDelivered(q: seq<string>, ok: nat -> bool)
    requires forall i :: 0 <= i < |q| ==> ok(i)
    ensures FlushRun(q, ok, 0) == |q|
    ensures FlushRest(q, FlushRun(q, ok, 0)) == []
  {
  }

  /** A flush whose i-th send fails delivers a FIFO prefix of at most i payloads, loses exactly
      one payload, and keeps the rest queued in order. */
  lemma FlushSplitsQueue(q: seq<string>, ok: nat -> bool, i: nat)
    requires i < |q| && !ok(i)
    ensures FlushRun(q, ok, 0) <= i
    ensures var k := FlushRun(q, ok, 0);
      q == q[..k] + [q[k]] + FlushRest(q, k)
  {
    var k := FlushRun(q, ok, 0);
    assert k <= i;
    SplitAt(q, k);
  }

  lemma FlushStopsAt(q: seq<string>, ok: nat -> bool, n: nat)
    requires n < |q| && !ok(n)
    requires forall i :: 0 <= i < n ==> ok(i)
    ensures FlushRun(q, ok, 0) == n
  {
  }

  lemma UpdateTwice(m: map<SessionId, seq<string>>, k: SessionId, a: seq<string>, b: seq<string>)
    ensures m[k := a][k := b] == m[k := b]
  {
  }

  lemma PopFront(q: seq<string>, n: nat)
    requires n < |q|
    ensures q[n..][0] == q[n] && q[n..][1..] == q[n + 1..]
  {
  }

  lemma SplitAt(q: seq<string>, k: nat)
    requires k < |q|
    ensures q == q[..k] + [q[k]] + q[k + 1..]
  {
  }

  /** The frames the receive loop hands on: those that are not empty after `str.strip()`. */
  predicate NotBlank(raw: string) {
    Trim(raw, IsPythonSpace) != []
  }

  lemma NotBlankIffSomeNonSpace(raw: string)
    ensures NotBlank(raw) <==> exists i :: 0 <= i < |raw| && !IsPythonSpace(raw[i])
  {
    TrimEmptyIffAll(raw, IsPythonSpace);
  }

  class ConnectionManager {
    var activeConnections: map<SessionId, Socket>
    var messageQueues: map<SessionId, seq<string>>
    /** Every payload a socket accepted, in order: what the clients received. */
    ghost var wire: seq<Delivery>

    ghost predicate Valid()
      reads this
    {
      Bounded(messageQueues)
    }

    constructor ()
      ensures Valid()
      ensures activeConnections == map[] && messageQueues == map[] && wire == []
    {
      activeConnections := map[];
      messageQueues := map[];
      wire := [];
    }

    /** `disconnect`: forget the live socket, if any; queues stay. */
    method Disconnect(sid: SessionId)
      requires Valid()
      modifies this
      ensures Valid()
      ensures activeConnections == old(activeConnections) - {sid}
      ensures messageQueues == old(messageQueues) && wire == old(wire)
    {
      activeConnections := activeConnections - {sid};
    }

    /** `_queue_message` */
    method QueueMessage(sid: SessionId, message: string)
      requires Valid()
      modifies this
      ensures Valid()
      ensures messageQueues == old(messageQueues)[sid := Enqueue(QueueOf(old(messageQueues), sid), message)]
      ensures activeConnections == old(activeConnections) && wire == old(wire)
    {
      var q := QueueOf(messageQueues, sid);
      messageQueues := messageQueues[sid := Enqueue(q, message)];
    }

    /** `send_text`: a live send, or the queue when there is no socket or the send raises.
        Nothing is raised to the caller. */
    method SendText(sid: SessionId, message: string, outcome: SendOutcome)
      requires Valid()
      modifies this
      ensures Valid()
      ensures sid !in old(activeConnections) || outcome != Accepted ==>
        messageQueues == old(messageQueues)[sid := Enqueue(QueueOf(old(messageQueues), sid), message)]
        && wire == old(wire)
      ensures sid in old(activeConnections) && outcome == Accepted ==>
        messageQueues == old(messageQueues)
        && wire == old(wire) + [Delivery(old(activeConnections)[sid], message)]
      ensures activeConnections ==
        if sid in old(activeConnections) && outcome == PeerDisconnected
        then old(activeConnections) - {sid} else old(activeConnections)
    {
      if sid !in activeConnections {
        QueueMessage(sid, message);
        return;
      }
      var ws := activeConnections[sid];
      match outcome
      case Accepted =>
        wire := wire + [Delivery(ws, message)];
      case PeerDisconnected =>
        Disconnect(sid);
        QueueMessage(sid, message);
      case SendFailed =>
        QueueMessage(sid, message);
    }

    /** `send_json`: `send_text` of the event's JSON text. */
    method SendJson(sid: SessionId, event: Events.Event, outcome: SendOutcome)
      requires Valid()
      modifies this
      ensures Valid()
      ensures sid !in old(activeConnections) || outcome != Accepted ==>
        messageQueues == old(messageQueues)[sid := Enqueue(QueueOf(old(messageQueues), sid), Events.Encode(event))]
        && wire == old(wire)
      ensures sid in old(activeConnections) && outcome == Accepted ==>
        messageQueues == old(messageQueues)
        && wire == old(wire) + [Delivery(old(activeConnections)[sid], Events.Encode(event))]
      ensures activeConnections ==
        if sid in old(activeConnections) && outcome == PeerDisconnected
        then old(activeConnections) - {sid} else old(activeConnections)
    {
      var payload := Events.Encode(event);
      SendText(sid, payload, outcome);
    }

    /** `_flush_queue`: pop and send queued payloads over the live socket until the queue is
        empty or a send raises. */
    method FlushQueue(sid: SessionId, ok: nat -> bool)
      requires Valid()
      modifies this
      ensures Valid()
      ensures activeConnections == old(activeConnections)
      ensures sid !in old(activeConnections) ==> messageQueues == old(messageQueues) && wire == old(wire)
      ensures sid in old(activeConnections) ==>
        var q := QueueOf(old(messageQueues), sid);
        var k := FlushRun(q, ok, 0);
        && wire == old(wire) + Deliveries(old(activeConnections)[sid], q[..k])
        && messageQueues == if sid in old(messageQueues) then old(messageQueues)[sid := FlushRest(q, k)] else old(messageQueues)
    {
      if sid !in activeConnections {
        return;
      }
      if sid !in messageQueues || messageQueues[sid] == [] {
        assert sid in messageQueues ==> messageQueues[sid := []] == messageQueues;
        return;
      }
      DrainQueue(sid, ok);
    }

    /** The loop of `_flush_queue`, for a live session with a queue. */
    method DrainQueue(sid: SessionId, ok: nat -> bool)
      requires Valid() && sid in activeConnections && sid in messageQueues
      modifies this
      ensures Valid()
      ensures activeConnections == old(activeConnections)
      ensures
        var q := old(messageQueues)[sid];
        var k := FlushRun(q, ok, 0);
        && wire == old(wire) + Deliveries(old(activeConnections)[sid], q[..k])
        && messageQueues == old(messageQueues)[sid := FlushRest(q, k)]
    {
      var ws := activeConnections[sid];
      ghost var q0 := messageQueues[sid];
      var sent := 0;
      assert messageQueues == old(messageQueues)[sid := q0[0..]];
      while messageQueues[sid] != []
        invariant sid in messageQueues
        invariant 0 <= sent <= |q0| && messageQueues == old(messageQueues)[sid := q0[sent..]]
        invariant forall i :: 0 <= i < sent ==> ok(i)
        invariant wire == old(wire) + Deliveries(ws, q0[..sent])
        invariant activeConnections == old(activeConnections)
        decreases |messageQueues[sid]|
      {
        var payload := messageQueues[sid][0];
        PopFront(q0, sent);
        UpdateTwice(old(messageQueues), sid, q0[sent..], q0[sent + 1..]);
        messageQueues := messageQueues[sid := messageQueues[sid][1..]];
        if !ok(sent) {
          FlushStopsAt(q0, ok, sent);
          return;
        }
        wire := wire + [Delivery(ws, payload)];
        TakeSnoc(q0, sent);
        assert q0[..sent + 1][..sent] == q0[..sent];
        sent := sent + 1;
      }
      FlushAllDelivered(q0, ok);
    }

    /** `connect`: register `ws` for the session, replacing any previous socket, then flush the
        queue over it. Accepting the socket and starting the heartbeat have no effect here. */
    method Connect(sid: SessionId, ws: Socket, ok: nat -> bool)
      requires Valid()
      modifies this
      ensures Valid()
      ensures activeConnections == old(activeConnections)[sid := ws]
      ensures var q := QueueOf(old(messageQueues), sid);
        var k := FlushRun(q, ok, 0);
        && wire == old(wire) + Deliveries(ws, q[..k])
        && messageQueues == if sid in old(messageQueues) then old(messageQueues)[sid := FlushRest(q, k)] else old(messageQueues)
    {
      activeConnections := activeConnections[sid := ws];
      FlushQueue(sid, ok);
    }

    /** `handle_session`: run the connect hook once (its failure is swallowed), then receive
        `frames` until the socket reports a disconnect or a receive error, dispatching every
        frame that is not blank, unstripped and in order; finally drop the connection. The
        hooks' own effects are not modelled: `connectHookRuns` counts the hook call and
        `dispatched` lists the payloads handed to background `on_receive` tasks. */
    method HandleSession(sid: SessionId, frames: seq<string>, hasOnConnect: bool, hasOnReceive: bool)
      returns (connectHookRuns: nat, dispatched: seq<string>)
      requires Valid()
      modifies this
      ensures Valid()
      ensures connectHookRuns == if hasOnConnect then 1 else 0
      ensures dispatched == if hasOnReceive then Filter(frames, NotBlank) else []
      ensures activeConnections == old(activeConnections) - {sid}
      ensures messageQueues == old(messageQueues) && wire == old(wire)
    {
      connectHookRuns := if hasOnConnect then 1 else 0;
      dispatched := [];
      var i := 0;
      while i < |frames|
        invariant 0 <= i <= |frames|
        invariant hasOnReceive ==> dispatched == Filter(frames[..i], NotBlank)
        invariant !hasOnReceive ==> dispatched == []
        invariant unchanged(this)
      {
        var raw := frames[i];
        FilterSnoc(frames[..i], raw, NotBlank);
        TakeSnoc(frames, i);
        if NotBlank(raw) && hasOnReceive {
          dispatched := dispatched + [raw];
        }
        i := i + 1;
      }
      assert frames[..|frames|] == frames;
      Disconnect(sid);
    }
  }
}
