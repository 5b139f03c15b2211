/** The relay process as a whole: the hub, the shared transcript, and the
    single loop that polls the queue and runs one user turn at a time. Each
    action is atomic, so a whole turn, with all its broadcasts, happens
    between two socket events; the 10 ms pause between polls is a `Tick`
    that finds the queue empty. */
module Server {
  import opened Base
  import opened Events
  import opened Hub
  import opened Turn
  import Prompt

  datatype Server = Server(hub: Hub, transcript: seq<Message>)

  /** The contents of the user entries of a transcript, in order. */
  function UserContents(ms: seq<Message>): (cs: seq<string>)
    ensures |cs| <= |ms|
    decreases |ms|
  {
    if |ms| == 0 then []
    else UserContents(ms[..|ms| - 1]) + (if ms[|ms| - 1].role == User then [ms[|ms| - 1].content] else [])
  }

  lemma {:induction false} UserContentsAppend(a: seq<Message>, b: seq<Message>)
    ensures UserContents(a + b) == UserContents(a) + UserContents(b)
    decreases |b|
  {
    if |b| == 0 {
      assert a + b == a;
    } else {
      var b' := b[..|b| - 1];
      assert (a + b)[..|a + b| - 1] == a + b';
      UserContentsAppend(a, b');
    }
  }

  /** Entries of other roles contribute nothing. */
  lemma {:induction false} UserContentsNone(ms: seq<Message>)
    requires forall k :: 0 <= k < |ms| ==> ms[k].role != User
    ensures UserContents(ms) == []
    decreases |ms|
  {
    if |ms| > 0 {
      var init := ms[..|ms| - 1];
      assert forall k :: 0 <= k < |init| ==> init[k] == ms[k];
      UserContentsNone(init);
    }
  }

  /** The texts of queued client messages, in order. */
  function Contents(ms: seq<ClientMessage>): (cs: seq<string>)
    ensures |cs| == |ms|
    ensures forall k :: 0 <= k < |ms| ==> cs[k] == ms[k].content
    decreases |ms|
  {
    if |ms| == 0 then [] else [ms[0].content] + Contents(ms[1..])
  }

  lemma ContentsAppend(a: seq<ClientMessage>, b: seq<ClientMessage>)
    ensures Contents(a + b) == Contents(a) + Contents(b)
  {
  }

  /** The process at start-up: nobody connected, nothing queued, and the
      transcript holding only the system prompt. */
  function Boot(): (s: Server)
    ensures Valid(s.hub) && s.hub.inbound == [] && s.hub.logs == map[]
    ensures |s.transcript| == 1 && s.transcript[0].role == System
    ensures s.transcript[0].content == Prompt.SystemPrompt()
    ensures UserContents(s.transcript) == []
  {
    var ms := [Message(System, Prompt.SystemPrompt())];
    assert ms[..0] == [];
    Server(Initial(), ms)
  }

  /** A viewer connects, an item arrives on a viewer's socket, or the relay
      loop polls the queue. */
  datatype Action = Open | Deliver(id: nat, frame: Frame) | Tick

  /** What some actions did: the messages they queued, the messages the
      relay loop took, and the process afterwards. */
  datatype Moved = Moved(queued: seq<ClientMessage>, taken: seq<ClientMessage>, server: Server)

  /** What the relay loop relies on from a user turn: the transcript grows
      by the user entry and then only by entries of other roles. */
  ghost predicate Sound(r: TurnResult, content: string, transcript: seq<Message>)
  {
    && |r.transcript| > |transcript|
    && r.transcript[..|transcript| + 1] == transcript + [Message(User, content)]
    && forall k :: |transcript| < k < |r.transcript| ==> r.transcript[k].role != User
  }

  /** The relay's own turns, `process_message` over the given backend. */
  function Turns(env: Env): (turn: (string, seq<Message>) -> TurnResult)
    ensures forall c, t :: turn(c, t) == ProcessMessage(c, t, env)
    ensures forall c, t :: Sound(turn(c, t), c, t)
  {
    (c, t) => ProcessMessage(c, t, env)
  }

  /** The relay loop's poll when a message is waiting: it takes the oldest
      one, runs the whole turn for it and broadcasts the turn's notices. The
      transcript keeps whatever the turn appended even when a stream failed,
      since the loop discards the turn's error. */
  function Serve(s: Server, turn: (string, seq<Message>) -> TurnResult): (m: Moved)
    requires |s.hub.inbound| > 0
    requires forall c, t :: Sound(turn(c, t), c, t)
    ensures m.queued == [] && m.taken == [s.hub.inbound[0]]
    ensures m.server.hub.inbound == s.hub.inbound[1..]
    ensures m.server.transcript == turn(s.hub.inbound[0].content, s.transcript).transcript
    ensures m.server.hub.logs.Keys == s.hub.logs.Keys
    ensures forall id :: id in s.hub.logs ==>
      m.server.hub.logs[id] == s.hub.logs[id] + turn(s.hub.inbound[0].content, s.transcript).events
    ensures s.transcript <= m.server.transcript
    ensures UserContents(m.server.transcript) == UserContents(s.transcript) + [s.hub.inbound[0].content]
    ensures Valid(s.hub) ==> Valid(m.server.hub)
  {
    var p := Poll(s.hub);
    var r := turn(s.hub.inbound[0].content, s.transcript);
    SoundTurn(r, s.hub.inbound[0].content, s.transcript);
    BroadcastAllDelivers(p.hub, r.events);
    Moved([], [s.hub.inbound[0]], Server(BroadcastAll(p.hub, r.events), r.transcript))
  }

  /** A sound turn extends the transcript and adds exactly one user entry. */
  lemma SoundTurn(r: TurnResult, content: string, transcript: seq<Message>)
    requires Sound(r, content, transcript)
    ensures transcript <= r.transcript
    ensures UserContents(r.transcript) == UserContents(transcript) + [content]
  {
    var entry := Message(User, content);
    var withUser := transcript + [entry];
    var rest := r.transcript[|withUser|..];
    assert r.transcript == r.transcript[..|withUser|] + rest;
    assert r.transcript == withUser + rest;
    assert forall k :: 0 <= k < |rest| ==> rest[k] == r.transcript[|withUser| + k];
    UserContentsNone(rest);
    UserContentsAppend(withUser, rest);
    UserContentsAppend(transcript, [entry]);
    assert UserContents([entry]) == [content] by {
      assert [entry][..0] == [];
    }
    assert r.transcript[..|transcript|] == withUser[..|transcript|];
  }

  /** One action. */
  function Step(s: Server, a: Action, turn: (string, seq<Message>) -> TurnResult, decode: string -> Option<ClientMessage>): (m: Moved)
    requires forall c, t :: Sound(turn(c, t), c, t)
    ensures m.taken + m.server.hub.inbound == s.hub.inbound + m.queued
    ensures a.Deliver? && a.id in s.hub.logs && a.frame.Text? && decode(a.frame.text).Some?
            ==> m.queued == [decode(a.frame.text).value]
    ensures !(a.Deliver? && a.id in s.hub.logs && a.frame.Text?) ==> m.queued == []
    ensures !a.Tick? ==> m.taken == [] && m.server.transcript == s.transcript
    ensures a.Tick? && |s.hub.inbound| == 0 ==> m.server == s && m.taken == []
    ensures a.Tick? && |s.hub.inbound| > 0 ==> m == Serve(s, turn)
    ensures s.transcript <= m.server.transcript
    ensures UserContents(m.server.transcript) == UserContents(s.transcript) + Contents(m.taken)
    ensures Valid(s.hub) ==> Valid(m.server.hub)
  {
    match a
    case Open => Moved([], [], s.(hub := Connect(s.hub)))
    case Deliver(id, frame) =>
      var h := Receive(s.hub, id, frame, decode);
      var queued := if id in s.hub.logs && frame.Text? && decode(frame.text).Some? then [decode(frame.text).value] else [];
      Moved(queued, [], s.(hub := h))
    case Tick =>
      if |s.hub.inbound| == 0 then Moved([], [], s)
      else
        var m := Serve(s, turn);
        assert [s.hub.inbound[0]] + s.hub.inbound[1..] == s.hub.inbound;
        m
  }

  /** Actions one after another. */
  function Run(s: Server, actions: seq<Action>, turn: (string, seq<Message>) -> TurnResult, decode: string -> Option<ClientMessage>): (m: Moved)
    requires forall c, t :: Sound(turn(c, t), c, t)
    ensures m.taken + m.server.hub.inbound == s.hub.inbound + m.queued
    ensures s.transcript <= m.server.transcript
    ensures UserContents(m.server.transcript) == UserContents(s.transcript) + Contents(m.taken)
    ensures Valid(s.hub) ==> Valid(m.server.hub)
    decreases |actions|
  {
    if |actions| == 0 then Moved([], [], s)
    else
      var first := Step(s, actions[0], turn, decode);
      var rest := Run(first.server, actions[1..], turn, decode);
      ContentsAppend(first.taken, rest.taken);
      QueueCompose(s.hub.inbound, first.taken, first.server.hub.inbound, first.queued,
                   rest.taken, rest.server.hub.inbound, rest.queued);
      LogCompose(UserContents(s.transcript), UserContents(first.server.transcript), UserContents(rest.server.transcript),
                 Contents(first.taken), Contents(rest.taken));
      PrefixCompose(s.transcript, first.server.transcript, rest.server.transcript);
      Moved(first.queued + rest.queued, first.taken + rest.taken, rest.server)
  }

  /** Two runs of queue traffic compose: what both took, then what is left,
      is what was queued at first, then what both queued. */
  lemma QueueCompose<T>(q0: seq<T>, took1: seq<T>, q1: seq<T>, added1: seq<T>, took2: seq<T>, q2: seq<T>, added2: seq<T>)
    requires took1 + q1 == q0 + added1
    requires took2 + q2 == q1 + added2
    ensures (took1 + took2) + q2 == q0 + (added1 + added2)
  {
    calc {
      (took1 + took2) + q2;
      took1 + (took2 + q2);
      took1 + q1 + added2;
      q0 + added1 + added2;
    }
  }

  lemma LogCompose<T>(l0: seq<T>, l1: seq<T>, l2: seq<T>, d1: seq<T>, d2: seq<T>)
    requires l1 == l0 + d1 && l2 == l1 + d2
    ensures l2 == l0 + (d1 + d2)
  {
  }

  lemma PrefixCompose<T>(a: seq<T>, b: seq<T>, c: seq<T>)
    requires a <= b && b <= c
    ensures a <= c
  {
  }

  /** From a state with nothing queued and no user entry yet, the user
      entries of the transcript followed by the messages still waiting are
      exactly the accepted messages, in arrival order; entries already in
      the transcript stay where they were. */
  lemma ServedInOrderFrom(s: Server, actions: seq<Action>, turn: (string, seq<Message>) -> TurnResult,
                          decode: string -> Option<ClientMessage>)
    requires forall c, t :: Sound(turn(c, t), c, t)
    requires s.hub.inbound == [] && UserContents(s.transcript) == []
    ensures var m := Run(s, actions, turn, decode);
      && UserContents(m.server.transcript) + Contents(m.server.hub.inbound) == Contents(m.queued)
      && s.transcript <= m.server.transcript
      && (Valid(s.hub) ==> Valid(m.server.hub))
  {
    var m := Run(s, actions, turn, decode);
    ContentsAppend(m.taken, m.server.hub.inbound);
    assert s.hub.inbound + m.queued == m.queued;
    assert [] + Contents(m.taken) == Contents(m.taken);
  }

  /** Messages are answered one at a time in the order they were queued:
      from start-up, the user entries of the transcript followed by the
      messages still waiting are exactly the messages viewers sent that
      were accepted, in arrival order, whatever the interleaving; the
      system prompt stays the first entry. */
  lemma ServedInArrivalOrder(actions: seq<Action>, env: Env, decode: string -> Option<ClientMessage>)
    ensures var m := Run(Boot(), actions, Turns(env), decode);
      && UserContents(m.server.transcript) + Contents(m.server.hub.inbound) == Contents(m.queued)
      && Valid(m.server.hub)
      && Boot().transcript <= m.server.transcript
  {
    ServedInOrderFrom(Boot(), actions, Turns(env), decode);
  }
}
