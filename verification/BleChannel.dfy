/** A channel to one peripheral: the frames that reach its session, and the messages that
    reach its consumer. */
module BleChannel {
  import opened Wrappers

  type Payload = seq<int>

  // ---- frames for the session -------------------------------------------------------------------

  datatype Opcode = Notification | OtherOpcode(int)

  datatype Frame = Frame(connectionHandle: int, opcode: Opcode, payload: Payload)

  /** handed: what the session was given, in order. */
  datatype Feed = Feed(observing: bool, session: bool, earlyFrames: seq<Payload>, handed: seq<Payload>)

  datatype FeedEvent = Observe | Receive(frame: Frame) | SessionCreated | Detach

  const NO_FEED: Feed := Feed(false, false, [], [])

  function FeedStep(f: Feed, e: FeedEvent, handle: int): Feed {
    match e
    case Observe => f.(observing := true)
    case Receive(frame) =>
      if !f.observing || frame.connectionHandle != handle || !frame.opcode.Notification? then f
      else if f.session then f.(handed := f.handed + [frame.payload])
      else f.(earlyFrames := f.earlyFrames + [frame.payload])
    case SessionCreated =>
      if f.session then f else f.(session := true, handed := f.handed + f.earlyFrames, earlyFrames := [])
    case Detach => f.(observing := false)
  }

  function FeedRun(f: Feed, es: seq<FeedEvent>, handle: int): Feed
    decreases es
  {
    if es == [] then f else FeedRun(FeedStep(f, es[0], handle), es[1..], handle)
  }

  /** The notifications for the handle while the observer is attached. */
  function Notifications(observing: bool, es: seq<FeedEvent>, handle: int): seq<Payload>
    decreases es
  {
    if es == [] then []
    else match es[0]
      case Observe => Notifications(true, es[1..], handle)
      case Detach => Notifications(false, es[1..], handle)
      case SessionCreated => Notifications(observing, es[1..], handle)
      case Receive(frame) =>
        (if observing && frame.connectionHandle == handle && frame.opcode.Notification? then [frame.payload] else [])
        + Notifications(observing, es[1..], handle)
  }

  lemma {:induction false} Associate<T>(a: seq<T>, b: seq<T>, c: seq<T>)
    ensures a + b + c == a + (b + c)
  {
  }

  lemma {:induction false} FeedKeeps(f: Feed, es: seq<FeedEvent>, handle: int)
    requires f.session ==> f.earlyFrames == []
    ensures var g := FeedRun(f, es, handle);
      && (g.session ==> g.earlyFrames == [])
      && g.handed + g.earlyFrames == f.handed + f.earlyFrames + Notifications(f.observing, es, handle)
    decreases es
  {
    var all := f.handed + f.earlyFrames;
    if es == [] {
      assert all + [] == all;
    } else {
      var next := FeedStep(f, es[0], handle);
      FeedKeeps(next, es[1..], handle);
      var more := Notifications(next.observing, es[1..], handle);
      match es[0]
      case Receive(frame) =>
        var taken := if f.observing && frame.connectionHandle == handle && frame.opcode.Notification? then [frame.payload] else [];
        assert next.handed + next.earlyFrames == all + taken;
        Associate(all, taken, more);
      case SessionCreated => assert next.handed + next.earlyFrames == all;
      case Observe =>
      case Detach =>
    }
  }

  lemma {:induction false} SessionStays(f: Feed, es: seq<FeedEvent>, handle: int)
    requires f.session || SessionCreated in es
    ensures FeedRun(f, es, handle).session
    decreases es
  {
    if es != [] {
      SessionStays(FeedStep(f, es[0], handle), es[1..], handle);
    }
  }

  /** Whenever the session is created, it is given exactly the notifications for its handle
      since the observer was attached, in order, each once. */
  lemma {:induction false} SessionIsFed(es: seq<FeedEvent>, handle: int)
    requires SessionCreated in es
    ensures FeedRun(NO_FEED, es, handle).handed == Notifications(false, es, handle)
  {
    FeedKeeps(NO_FEED, es, handle);
    SessionStays(NO_FEED, es, handle);
    var g := FeedRun(NO_FEED, es, handle);
    assert g.handed + [] == g.handed;
    assert [] + [] + Notifications(false, es, handle) == Notifications(false, es, handle);
  }

  /** The frame observer that opening a channel attaches, and the session it feeds. */
  class FrameObserver {
    const handle: int
    var observing: bool
    var session: bool
    var earlyFrames: seq<Payload>
    var handed: seq<Payload>

    ghost function Now(): Feed
      reads this
    {
      Feed(observing, session, earlyFrames, handed)
    }

    constructor (connectionHandle: int)
      ensures handle == connectionHandle && Now() == FeedStep(NO_FEED, Observe, handle)
    {
      handle := connectionHandle;
      observing, session, earlyFrames, handed := true, false, [], [];
    }

    method ForwardToBtp(payload: Payload)
      modifies this`handed
      ensures handed == old(handed) + [payload]
    {
      handed := handed + [payload];
    }

    method OnFrame(frame: Frame)
      modifies this
      ensures Now() == FeedStep(old(Now()), Receive(frame), handle)
    {
      if observing && frame.connectionHandle == handle && frame.opcode.Notification? {
        if session {
          ForwardToBtp(frame.payload);
        } else {
          earlyFrames := earlyFrames + [frame.payload];
        }
      }
    }

    method OnSessionCreated()
      requires !session
      modifies this
      ensures Now() == FeedStep(old(Now()), SessionCreated, handle)
    {
      session := true;
      ghost var before := handed;
      var frames := earlyFrames;
      for i := 0 to |frames|
        invariant handed == before + frames[..i]
        invariant session && observing == old(observing)
      {
        ForwardToBtp(frames[i]);
        Associate(before, frames[..i], [frames[i]]);
        assert frames[..i] + [frames[i]] == frames[..i + 1];
      }
      assert frames[..|frames|] == frames;
      earlyFrames := [];
    }
  }

  // ---- messages for the consumer ----------------------------------------------------------------

  /** What a call of next() was answered; None: the iteration is done. */
  datatype Answer = Answer(call: nat, message: Option<Payload>)

  /** calls: how often next() was called; open: the calls without an answer yet. */
  datatype Channel = Channel(
    connected: bool,
    queue: seq<Payload>,
    waiter: Option<nat>,
    done: bool,
    calls: nat,
    open: set<nat>,
    answers: seq<Answer>)

  datatype Event = Push(message: Payload) | Next | MarkDisconnected | Close

  const OPENED: Channel := Channel(true, [], None, false, 0, {}, [])

  function Answered(c: Channel, call: nat, message: Option<Payload>): Channel {
    c.(open := c.open - {call}, answers := c.answers + [Answer(call, message)])
  }

  function Pushed(c: Channel, message: Payload): Channel {
    if c.waiter.Some? then Answered(c, c.waiter.value, Some(message)).(waiter := None)
    else if !c.done then c.(queue := c.queue + [message])
    else c
  }

  function Asked(c: Channel): Channel {
    var call := c.calls;
    var asked := c.(calls := call + 1, open := c.open + {call});
    if c.queue != [] then Answered(asked, call, Some(c.queue[0])).(queue := c.queue[1..])
    else if c.done || !c.connected then Answered(asked, call, None)
    else asked.(waiter := Some(call))
  }

  function Terminated(c: Channel): Channel {
    if c.done then c
    else if c.waiter.Some? then Answered(c, c.waiter.value, None).(waiter := None, done := true)
    else c.(done := true)
  }

  function Step(c: Channel, e: Event): Channel {
    match e
    case Push(message) => Pushed(c, message)
    case Next => Asked(c)
    case MarkDisconnected => c.(connected := false)
    case Close => Terminated(c.(connected := false))
  }

  function Run(c: Channel, es: seq<Event>): Channel
    decreases es
  {
    if es == [] then c else Run(Step(c, es[0]), es[1..])
  }

  function Delivered(answers: seq<Answer>): seq<Payload> {
    if answers == [] then []
    else
      var last := answers[|answers| - 1].message;
      Delivered(answers[..|answers| - 1]) + (if last.Some? then [last.value] else [])
  }

  /** The messages pushed before the iteration was terminated. */
  function Accepted(c: Channel, es: seq<Event>): seq<Payload>
    decreases es
  {
    if es == [] then []
    else (if es[0].Push? && !c.done then [es[0].message] else []) + Accepted(Step(c, es[0]), es[1..])
  }

  predicate Valid(c: Channel) {
    && (c.waiter.Some? ==> c.queue == [] && !c.done && c.waiter.value in c.open && c.waiter.value < c.calls)
    && (forall call | call in c.open :: call < c.calls)
  }

  /** The answers came in the order of the calls, and only the waiting call has none. */
  predicate InOrder(c: Channel) {
    && (forall i | 0 <= i < |c.answers| :: c.answers[i].call == i)
    && c.calls == |c.answers| + (if c.waiter.Some? then 1 else 0)
    && c.open == (if c.waiter.Some? then {c.waiter.value} else {})
    && (c.waiter.Some? ==> c.waiter.value == |c.answers|)
  }

  lemma {:induction false} DeliveredPush(answers: seq<Answer>, a: Answer)
    ensures Delivered(answers + [a]) == Delivered(answers) + (if a.message.Some? then [a.message.value] else [])
  {
    assert (answers + [a])[..|answers|] == answers;
  }

  /** Delivered messages and the queue. */
  function Stream(c: Channel): seq<Payload> {
    Delivered(c.answers) + c.queue
  }

  lemma {:induction false} PushKeeps(c: Channel, message: Payload)
    requires Valid(c)
    ensures Valid(Pushed(c, message))
    ensures Stream(Pushed(c, message)) == Stream(c) + (if c.done then [] else [message])
    ensures InOrder(c) ==> InOrder(Pushed(c, message))
  {
    if c.waiter.Some? {
      DeliveredPush(c.answers, Answer(c.waiter.value, Some(message)));
      assert Stream(c) == Delivered(c.answers) + [];
    } else if !c.done {
      Associate(Delivered(c.answers), c.queue, [message]);
    } else {
      assert Stream(c) + [] == Stream(c);
    }
  }

  lemma {:induction false} AskKeeps(c: Channel)
    requires Valid(c)
    ensures Valid(Asked(c)) && Stream(Asked(c)) == Stream(c)
  {
    if c.queue != [] {
      DeliveredPush(c.answers, Answer(c.calls, Some(c.queue[0])));
      Associate(Delivered(c.answers), [c.queue[0]], c.queue[1..]);
      assert [c.queue[0]] + c.queue[1..] == c.queue;
    } else if c.done || !c.connected {
      DeliveredPush(c.answers, Answer(c.calls, None));
      assert Delivered(c.answers) + [] == Delivered(c.answers);
    }
  }

  /** A call keeps the order exactly when no other call is waiting. */
  lemma {:induction false} AskInOrder(c: Channel)
    requires Valid(c) && InOrder(c)
    ensures InOrder(Asked(c)) <==> c.waiter.None?
  {
    var asked := Asked(c);
    if c.waiter.Some? {
      assert c.waiter.value in asked.open;
      if !c.connected {
        assert asked.answers[|c.answers|].call == c.calls;
      }
    } else {
      assert c.open + {c.calls} - {c.calls} == {};
    }
  }

  lemma {:induction false} CloseKeeps(c: Channel)
    requires Valid(c)
    ensures Valid(Terminated(c)) && Stream(Terminated(c)) == Stream(c) && Terminated(c).done
    ensures InOrder(c) ==> InOrder(Terminated(c)) && Terminated(c).open == {}
  {
    if !c.done && c.waiter.Some? {
      DeliveredPush(c.answers, Answer(c.waiter.value, None));
      assert Delivered(c.answers) + [] == Delivered(c.answers);
    }
  }

  lemma {:induction false} StepKeeps(c: Channel, e: Event)
    requires Valid(c)
    ensures Valid(Step(c, e))
    ensures Stream(Step(c, e)) == Stream(c) + (if e.Push? && !c.done then [e.message] else [])
    ensures InOrder(c) ==> (InOrder(Step(c, e)) <==> !(e.Next? && c.waiter.Some?))
  {
    assert Stream(c) + [] == Stream(c);
    match e
    case Push(message) => PushKeeps(c, message);
    case Next =>
      AskKeeps(c);
      if InOrder(c) {
        AskInOrder(c);
      }
    case MarkDisconnected =>
    case Close => CloseKeeps(c.(connected := false));
  }

  /** The consumer never calls next() while an earlier call waits. */
  predicate SingleConsumer(c: Channel, es: seq<Event>)
    decreases es
  {
    es == [] || (!(es[0].Next? && c.waiter.Some?) && SingleConsumer(Step(c, es[0]), es[1..]))
  }

  lemma {:induction false} RunKeeps(c: Channel, es: seq<Event>)
    requires Valid(c)
    ensures Valid(Run(c, es)) && Stream(Run(c, es)) == Stream(c) + Accepted(c, es)
    ensures InOrder(c) && SingleConsumer(c, es) ==> InOrder(Run(c, es))
    decreases es
  {
    if es == [] {
      assert Stream(c) + [] == Stream(c);
    } else {
      StepKeeps(c, es[0]);
      RunKeeps(Step(c, es[0]), es[1..]);
      Associate(Stream(c), if es[0].Push? && !c.done then [es[0].message] else [], Accepted(Step(c, es[0]), es[1..]));
    }
  }

  /** The messages delivered, then those queued, are those pushed before termination, in order;
      and a single consumer gets them call by call, with no call forgotten. */
  lemma {:induction false} MessagesDelivered(es: seq<Event>)
    ensures Stream(Run(OPENED, es)) == Accepted(OPENED, es)
    ensures SingleConsumer(OPENED, es) ==> InOrder(Run(OPENED, es))
  {
    RunKeeps(OPENED, es);
    assert [] + [] + Accepted(OPENED, es) == Accepted(OPENED, es);
  }

  /** A call without an answer that no longer waits stays without one, whatever follows. */
  lemma {:induction false} Forgotten(c: Channel, call: nat, es: seq<Event>)
    requires Valid(c) && call in c.open && c.waiter != Some(call)
    ensures call in Run(c, es).open
    decreases es
  {
    if es != [] {
      StepKeeps(c, es[0]);
      Forgotten(Step(c, es[0]), call, es[1..]);
    }
  }

  /** Whatever follows, the call stays without an answer. */
  ghost predicate NeverAnswered(c: Channel, call: nat) {
    forall es: seq<Event> :: call in Run(c, es).open
  }

  lemma {:induction false} CloseAnswers(c: Channel, call: nat)
    requires Valid(c) && c.waiter == Some(call)
    ensures call !in Run(c, [Close]).open
  {
    assert [Close][1..] == [];
  }

  /** A second call while one waits leaves the first without an answer for good exactly while
      the channel is connected. */
  lemma {:induction false} SecondCallForgets(c: Channel)
    requires Valid(c) && c.waiter.Some?
    ensures NeverAnswered(Asked(c), c.waiter.value) <==> c.connected
  {
    AskKeeps(c);
    if c.connected {
      forall es: seq<Event> ensures c.waiter.value in Run(Asked(c), es).open {
        Forgotten(Asked(c), c.waiter.value, es);
      }
    } else {
      CloseAnswers(Asked(c), c.waiter.value);
    }
  }

  /** Two calls on a fresh channel: the first is never answered. */
  lemma {:induction false} FirstCallForgotten()
    ensures NeverAnswered(Run(OPENED, [Next, Next]), 0)
  {
    var c := Asked(OPENED);
    AskKeeps(OPENED);
    SecondCallForgets(c);
    assert [Next, Next][1..] == [Next] && [Next][1..] == [];
    assert Run(OPENED, [Next, Next]) == Asked(c);
  }

  /** The channel's queue and its consumer's promises. */
  class ProxyBleChannel {
    var connected: bool
    var queue: seq<Payload>
    var waiter: Option<nat>
    var done: bool
    var calls: nat
    var open: set<nat>
    var answers: seq<Answer>

    ghost function Now(): Channel
      reads this
    {
      Channel(connected, queue, waiter, done, calls, open, answers)
    }

    constructor ()
      ensures Now() == OPENED
    {
      connected, queue, waiter, done := true, [], None, false;
      calls, open, answers := 0, {}, [];
    }

    method Resolve(call: nat, message: Option<Payload>)
      modifies this`open, this`answers
      ensures Now() == Answered(old(Now()), call, message)
    {
      open := open - {call};
      answers := answers + [Answer(call, message)];
    }

    method PushMessage(message: Payload)
      modifies this
      ensures Now() == Step(old(Now()), Push(message))
    {
      if waiter.Some? {
        var call := waiter.value;
        waiter := None;
        Resolve(call, Some(message));
      } else if !done {
        queue := queue + [message];
      }
    }

    method AskNext()
      modifies this
      ensures Now() == Step(old(Now()), Next)
    {
      var call := calls;
      calls := calls + 1;
      open := open + {call};
      if |queue| > 0 {
        var message := queue[0];
        queue := queue[1..];
        Resolve(call, Some(message));
      } else if done || !connected {
        Resolve(call, None);
      } else {
        waiter := Some(call);
      }
    }

    method Disconnected()
      modifies this
      ensures Now() == Step(old(Now()), MarkDisconnected)
    {
      connected := false;
    }

    method CloseChannel()
      modifies this
      ensures Now() == Step(old(Now()), Close)
    {
      connected := false;
      if !done {
        done := true;
        if waiter.Some? {
          Resolve(waiter.value, None);
        }
        waiter := None;
      }
    }
  }
}
