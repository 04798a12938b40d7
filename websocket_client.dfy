/** The web client's resilient websocket: outgoing messages are queued while the socket is not
    open and flushed in order when it opens; every close schedules a reconnect after an
    exponentially growing delay, capped at 30 seconds. Timers are not modelled: the delay is
    returned and the caller reconnects. */
module WebSocketClient {
  import opened Wrappers

  datatype ReadyState = Connecting | Open | Closing | Closed

  const BaseDelay: int := 1000
  const MaxDelay: int := 30000

  function Pow2(n: nat): (r: nat)
    ensures r >= 1
  {
    if n == 0 then 1 else 2 * Pow2(n - 1)
  }

  /** `Math.min(1000 * 2 ** attempts, 30000)`. */
  function ReconnectDelay(attempts: nat): (d: int)
    ensures d <= MaxDelay
    ensures d == MaxDelay || d == BaseDelay * Pow2(attempts)
  {
    if BaseDelay * Pow2(attempts) < MaxDelay then BaseDelay * Pow2(attempts) else MaxDelay
  }

  lemma {:induction false} Pow2Monotone(a: nat, b: nat)
    requires a <= b
    ensures Pow2(a) <= Pow2(b)
    decreases b
  {
    if a < b {
      Pow2Monotone(a, b - 1);
    }
  }

  /** The delay is never below one second and never above thirty. */
  lemma DelayBounds(attempts: nat)
    ensures BaseDelay <= ReconnectDelay(attempts) <= MaxDelay
  {
    Pow2Monotone(0, attempts);
  }

  /** More failed attempts never shorten the wait. */
  lemma DelayMonotone(a: nat, b: nat)
    requires a <= b
    ensures ReconnectDelay(a) <= ReconnectDelay(b)
  {
    Pow2Monotone(a, b);
  }

  /** From the sixth attempt on (five before it failed) the wait is the cap. */
  lemma DelayCappedFromFive(attempts: nat)
    requires attempts >= 5
    ensures ReconnectDelay(attempts) == MaxDelay
  {
    Pow2Monotone(5, attempts);
    assert Pow2(5) == 32;
  }

  /** Below five attempts the wait doubles each time: 1, 2, 4, 8 and 16 seconds. */
  lemma DelayDoublesBelowFive(attempts: nat)
    requires attempts < 4
    ensures ReconnectDelay(attempts + 1) == 2 * ReconnectDelay(attempts)
  {
    assert Pow2(4) == 16;
    Pow2Monotone(attempts + 1, 4);
  }

  /** The state the hook keeps in its refs: the current socket (None once nulled) with its
      ready state, the outgoing queue, the failed attempt count and the heartbeat handle. */
  class ResilientSocket {
    var socket: Option<ReadyState>
    var queue: seq<string>
    var attempts: nat
    var heartbeat: Option<int>
    var readyState: ReadyState
    /** What has been written to open sockets, in order. */
    ghost var wire: seq<string>

    /** Mounting: the first connection is opened. */
    constructor ()
      ensures socket == Some(Connecting) && readyState == Connecting
      ensures queue == [] && attempts == 0 && heartbeat == None && wire == []
    {
      socket := Some(Connecting);
      readyState := Connecting;
      queue := [];
      attempts := 0;
      heartbeat := None;
      wire := [];
    }

    /** `connect`: a new socket replaces the reference, in the connecting state. */
    method Connect()
      modifies this`socket, this`readyState
      ensures socket == Some(Connecting) && readyState == Connecting
    {
      socket := Some(Connecting);
      readyState := Connecting;
    }

    /** `send`: written at once on an open socket, otherwise queued; the queue has no bound. */
    method Send(message: string)
      modifies this`queue, this`wire
      ensures socket == Some(Open) ==> wire == old(wire) + [message] && queue == old(queue)
      ensures socket != Some(Open) ==> queue == old(queue) + [message] && wire == old(wire)
    {
      if socket == Some(Open) {
        wire := wire + [message];
      } else {
        queue := queue + [message];
      }
    }

    /** `onopen`: the attempt count is reset, a heartbeat is started, and the queued messages
        are written in the order they were queued; the queue is then empty. */
    method OnOpen(handle: int)
      requires socket.Some?
      modifies this`socket, this`readyState, this`attempts, this`heartbeat, this`queue, this`wire
      ensures socket == Some(Open) && readyState == Open
      ensures attempts == 0 && heartbeat == Some(handle)
      ensures wire == old(wire) + old(queue) && queue == []
    {
      socket := Some(Open);
      readyState := Open;
      attempts := 0;
      heartbeat := Some(handle);
      for i := 0 to |queue|
        invariant wire == old(wire) + queue[..i]
        invariant queue == old(queue)
      {
        wire := wire + [queue[i]];
      }
      assert queue[..|queue|] == queue;
      queue := [];
    }

    /** The browser moves the live socket out of OPEN (the server closed it or the network
        dropped) before its `onclose` handler runs; the hook's own refs are untouched. Until
        then `send`, which reads the socket's live ready state, queues instead of writing. */
    method StartClosing()
      requires socket == Some(Open)
      modifies this`socket
      ensures socket == Some(Closing)
    {
      socket := Some(Closing);
    }

    /** `cleanup`: the heartbeat is cleared and the socket reference dropped. */
    method Cleanup()
      modifies this`heartbeat, this`socket
      ensures heartbeat == None && socket == None
    {
      heartbeat := None;
      socket := None;
    }

    /** `onclose`: the state becomes closed, the socket is cleaned up, and a reconnect is due
        after the returned delay, computed from the attempts so far, which then grow by one. */
    method OnClose() returns (delay: int)
      modifies this`readyState, this`heartbeat, this`socket, this`attempts
      ensures readyState == Closed && heartbeat == None && socket == None
      ensures delay == ReconnectDelay(old(attempts)) && attempts == old(attempts) + 1
      ensures BaseDelay <= delay <= MaxDelay
      ensures queue == old(queue)
    {
      readyState := Closed;
      Cleanup();
      delay := ReconnectDelay(attempts);
      DelayBounds(attempts);
      attempts := attempts + 1;
    }
  }
}
