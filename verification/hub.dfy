/** A sequential abstraction of the WebSocket hub: one process-wide FIFO
    queue of inbound viewer messages, and one delivery log per connected
    viewer standing for what its outbound relay has sent to it. Tokio tasks,
    the broadcast channel's capacity and lagging receivers are not modelled;
    every operation happens atomically. */
module Hub {
  import opened Base
  import opened Events

  /** The only inbound message kind: `{"type": "send_message", "content": ...}`. */
  datatype ClientMessage = SendMessage(content: string)

  /** One item read from a viewer's socket. `Closed` stands both for a close
      frame and for the end of the stream; `Failed` for a transport error. */
  datatype Frame = Text(text: string) | Binary | Ping | Pong | Closed | Failed

  /** `logs` maps each live connection to the notices sent to it so far;
      `nextId` is the identity the next connection will get. */
  datatype Hub = Hub(inbound: seq<ClientMessage>, logs: map<nat, seq<Event>>, nextId: nat)

  /** Connection identities are never reused, and every live viewer's log
      opens with the `connected` notice. */
  ghost predicate Valid(h: Hub)
  {
    && (forall id :: id in h.logs ==> id < h.nextId)
    && (forall id :: id in h.logs ==> |h.logs[id]| > 0 && h.logs[id][0] == Connected)
  }

  /** The hub as the server starts it: no viewers, nothing queued. */
  function Initial(): (h: Hub)
    ensures Valid(h) && h.inbound == [] && h.logs == map[]
  {
    Hub([], map[], 0)
  }

  datatype Polled = Polled(message: Option<ClientMessage>, hub: Hub)

  /** `receive_message`: a non-blocking poll that takes the oldest queued
      message, if there is one. */
  function Poll(h: Hub): (p: Polled)
    ensures |h.inbound| == 0 <==> p.message.None?
    ensures p.message.None? ==> p.hub == h
    ensures p.message.Some? ==> [p.message.value] + p.hub.inbound == h.inbound
    ensures p.hub.logs == h.logs && p.hub.nextId == h.nextId
  {
    if |h.inbound| == 0 then Polled(None, h)
    else Polled(Some(h.inbound[0]), h.(inbound := h.inbound[1..]))
  }

  /** The receive task's handling of one text frame: a payload that decodes
      as a client message joins the back of the queue; anything else is
      dropped without a trace. */
  function ReceiveText(h: Hub, text: string, decode: string -> Option<ClientMessage>): (h': Hub)
    ensures decode(text).Some? ==> h'.inbound == h.inbound + [decode(text).value]
    ensures decode(text).None? ==> h' == h
    ensures h'.logs == h.logs && h'.nextId == h.nextId
  {
    match decode(text)
    case Some(m) => h.(inbound := h.inbound + [m])
    case None => h
  }

  /** `handle_socket` on a new connection: the viewer is subscribed and is
      sent the `connected` notice before anything else. */
  function Connect(h: Hub): (h': Hub)
    ensures h.nextId !in h.logs ==> h'.logs.Keys == h.logs.Keys + {h.nextId}
    ensures h.nextId in h'.logs && h'.logs[h.nextId] == [Connected]
    ensures forall id :: id in h.logs && id != h.nextId ==> id in h'.logs && h'.logs[id] == h.logs[id]
    ensures h'.inbound == h.inbound
    ensures Valid(h) ==> Valid(h') && h.nextId !in h.logs
  {
    Hub(h.inbound, h.logs[h.nextId := [Connected]], h.nextId + 1)
  }

  /** Tearing a connection down: its subscription goes, the queue stays. */
  function Disconnect(h: Hub, id: nat): (h': Hub)
    ensures h'.logs.Keys == h.logs.Keys - {id}
    ensures forall other :: other in h'.logs ==> h'.logs[other] == h.logs[other]
    ensures h'.inbound == h.inbound
    ensures Valid(h) ==> Valid(h')
  {
    h.(logs := h.logs - {id})
  }

  /** `broadcast_json`: the notice is appended to every live viewer's log.
      It reports nothing to its caller; with no viewers the notice is lost. */
  function Broadcast(h: Hub, e: Event): (h': Hub)
    ensures h'.logs.Keys == h.logs.Keys
    ensures forall id :: id in h.logs ==> h'.logs[id] == h.logs[id] + [e]
    ensures h'.inbound == h.inbound && h'.nextId == h.nextId
    ensures h.logs == map[] ==> h' == h
    ensures Valid(h) ==> Valid(h')
  {
    h.(logs := map id | id in h.logs :: h.logs[id] + [e])
  }

  /** Broadcasting notices one after another. */
  function BroadcastAll(h: Hub, es: seq<Event>): (h': Hub)
    ensures h'.logs.Keys == h.logs.Keys
    ensures h'.inbound == h.inbound && h'.nextId == h.nextId
    ensures Valid(h) ==> Valid(h')
    decreases |es|
  {
    if |es| == 0 then h else BroadcastAll(Broadcast(h, es[0]), es[1..])
  }

  /** Every viewer connected throughout a run of broadcasts receives the
      whole run, in order, with nothing missing or interleaved. */
  lemma {:induction false} BroadcastAllDelivers(h: Hub, es: seq<Event>)
    ensures forall id :: id in h.logs ==> BroadcastAll(h, es).logs[id] == h.logs[id] + es
    decreases |es|
  {
    if |es| > 0 {
      var h1 := Broadcast(h, es[0]);
      BroadcastAllDelivers(h1, es[1..]);
      forall id | id in h.logs
        ensures BroadcastAll(h, es).logs[id] == h.logs[id] + es
      {
        assert h1.logs[id] == h.logs[id] + [es[0]];
        assert [es[0]] + es[1..] == es;
      }
    }
  }

  /** One item from connection `id`'s socket. The receive loop only goes on
      after a text frame; any other item ends it, and `select!` then tears the
      whole connection down. Items for a connection already gone are ignored. */
  function Receive(h: Hub, id: nat, frame: Frame, decode: string -> Option<ClientMessage>): (h': Hub)
    ensures id !in h.logs ==> h' == h
    ensures id in h.logs && frame.Text? ==> h' == ReceiveText(h, frame.text, decode)
    ensures !frame.Text? ==> h'.logs.Keys == h.logs.Keys - {id} && h'.inbound == h.inbound && h'.nextId == h.nextId
    ensures !frame.Text? ==> forall other :: other in h'.logs ==> h'.logs[other] == h.logs[other]
    ensures Valid(h) ==> Valid(h')
  {
    if id !in h.logs then h
    else match frame
      case Text(text) => ReceiveText(h, text, decode)
      case _ => Disconnect(h, id)
  }

  /** Operations on the inbound queue alone: a viewer's text arrives, or the
      relay loop polls. */
  datatype QueueOp = Arrive(text: string) | Take

  /** The message an operation adds to the queue, if any. */
  function Contribution(op: QueueOp, decode: string -> Option<ClientMessage>): seq<ClientMessage>
  {
    if op.Arrive? && decode(op.text).Some? then [decode(op.text).value] else []
  }

  /** The messages a run of operations adds to the queue, in order. */
  function Accepted(ops: seq<QueueOp>, decode: string -> Option<ClientMessage>): seq<ClientMessage>
    decreases |ops|
  {
    if |ops| == 0 then [] else Contribution(ops[0], decode) + Accepted(ops[1..], decode)
  }

  /** One queue operation: what it took from the queue, and the hub after it. */
  function QueueStep(h: Hub, op: QueueOp, decode: string -> Option<ClientMessage>): (seq<ClientMessage>, Hub)
  {
    match op
    case Arrive(text) => ([], ReceiveText(h, text, decode))
    case Take =>
      var p := Poll(h);
      (if p.message.Some? then [p.message.value] else [], p.hub)
  }

  /** Runs queue operations, returning what the polls took and the hub. */
  function RunQueue(h: Hub, ops: seq<QueueOp>, decode: string -> Option<ClientMessage>): (seq<ClientMessage>, Hub)
    decreases |ops|
  {
    if |ops| == 0 then ([], h)
    else
      var (took, h1) := QueueStep(h, ops[0], decode);
      var (rest, h2) := RunQueue(h1, ops[1..], decode);
      (took + rest, h2)
  }

  lemma QueueStepFifo(h: Hub, op: QueueOp, decode: string -> Option<ClientMessage>)
    ensures QueueStep(h, op, decode).0 + QueueStep(h, op, decode).1.inbound
         == h.inbound + Contribution(op, decode)
  {
  }

  /** The queue is first-in, first-out: under any interleaving of arrivals
      and polls, what was taken followed by what is still queued is exactly
      what was queued before followed by the accepted arrivals, in order. */
  lemma {:induction false} QueueIsFifo(h: Hub, ops: seq<QueueOp>, decode: string -> Option<ClientMessage>)
    ensures RunQueue(h, ops, decode).0 + RunQueue(h, ops, decode).1.inbound
         == h.inbound + Accepted(ops, decode)
    decreases |ops|
  {
    if |ops| > 0 {
      var (took, h1) := QueueStep(h, ops[0], decode);
      var (later, h2) := RunQueue(h1, ops[1..], decode);
      QueueStepFifo(h, ops[0], decode);
      QueueIsFifo(h1, ops[1..], decode);
      calc {
        took + later + h2.inbound;
        took + (h1.inbound + Accepted(ops[1..], decode));
        (took + h1.inbound) + Accepted(ops[1..], decode);
        h.inbound + Contribution(ops[0], decode) + Accepted(ops[1..], decode);
      }
    }
  }
}
