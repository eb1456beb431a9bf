/** What each call of next() on a channel is answered, and when. */
module ChannelAnswers {
  import opened Wrappers
  import opened BleChannel

  /** A message if there is one, the end if the channel is over, else the call waits. */
  lemma {:induction false} NextIsAnswered(c: Channel)
    requires Valid(c)
    ensures var t := Step(c, Next);
      if c.queue != [] then
        t.answers == c.answers + [Answer(c.calls, Some(c.queue[0]))] && t.queue == c.queue[1..] && t.waiter == c.waiter
      else if c.done || !c.connected then
        t.answers == c.answers + [Answer(c.calls, None)] && t.waiter == c.waiter
      else
        t.answers == c.answers && t.waiter == Some(c.calls)
  {
  }

  /** A waiting call gets the next message, or the end when the channel closes. */
  lemma {:induction false} WaiterIsAnswered(c: Channel, message: Payload)
    requires Valid(c) && c.waiter.Some?
    ensures Step(c, Push(message)).answers == c.answers + [Answer(c.waiter.value, Some(message))]
    ensures Step(c, Push(message)).waiter.None? && Step(c, Push(message)).queue == []
    ensures Step(c, Close).answers == c.answers + [Answer(c.waiter.value, None)] && Step(c, Close).waiter.None?
    ensures Step(c, MarkDisconnected).answers == c.answers && Step(c, MarkDisconnected).waiter == c.waiter
  {
  }

  /** The end is announced only once nothing is queued and the channel was disconnected or closed. */
  lemma {:induction false} EndsOnlyWhenOver(c: Channel, e: Event, i: nat)
    requires Valid(c) && |c.answers| <= i < |Step(c, e).answers| && Step(c, e).answers[i].message.None?
    ensures c.queue == [] && (e.Close? || c.done || !c.connected)
  {
  }

  lemma {:induction false} RunState(c: Channel, es: seq<Event>)
    ensures Run(c, es).connected <==> c.connected && MarkDisconnected !in es && Close !in es
    ensures Run(c, es).done <==> c.done || Close in es
    decreases es
  {
    if es != [] {
      RunState(Step(c, es[0]), es[1..]);
    }
  }

  /** A channel is connected until it is disconnected or closed, and over exactly once closed. */
  lemma {:induction false} ConnectedUntil(es: seq<Event>)
    ensures Run(OPENED, es).connected <==> MarkDisconnected !in es && Close !in es
    ensures Run(OPENED, es).done <==> Close in es
  {
    RunState(OPENED, es);
  }

  // ---- while the channel is connected -------------------------------------------------------------

  function Pushes(es: seq<Event>): seq<Payload> {
    if es == [] then [] else (if es[0].Push? then [es[0].message] else []) + Pushes(es[1..])
  }

  function Calls(es: seq<Event>): nat {
    if es == [] then 0 else (if es[0].Next? then 1 else 0) + Calls(es[1..])
  }

  predicate Live(es: seq<Event>) {
    MarkDisconnected !in es && Close !in es
  }

  predicate AllMessages(answers: seq<Answer>) {
    forall i | 0 <= i < |answers| :: answers[i].message.Some?
  }

  lemma {:induction false} LiveRun(c: Channel, es: seq<Event>)
    requires Valid(c) && c.connected && !c.done && Live(es) && AllMessages(c.answers)
    ensures var t := Run(c, es);
      && t.connected && !t.done && AllMessages(t.answers) && t.calls == c.calls + Calls(es)
      && Accepted(c, es) == Pushes(es)
    decreases es
  {
    if es != [] {
      StepKeeps(c, es[0]);
      LiveRun(Step(c, es[0]), es[1..]);
    }
  }

  lemma {:induction false} DeliveredAt(answers: seq<Answer>, i: nat)
    requires AllMessages(answers)
    ensures |Delivered(answers)| == |answers|
    ensures i < |answers| ==> Delivered(answers)[i] == answers[i].message.value
  {
    if answers != [] {
      var n := |answers| - 1;
      DeliveredAt(answers[..n], if i < n then i else 0);
    }
  }

  /** While the channel is connected, a single consumer's i-th call is answered with the i-th
      message, as soon as there are both. */
  lemma {:induction false} CallsGetMessages(es: seq<Event>, i: nat)
    requires Live(es) && SingleConsumer(OPENED, es)
    ensures var t, sent := Run(OPENED, es), Pushes(es);
      && |t.answers| == (if Calls(es) <= |sent| then Calls(es) else |sent|)
      && (i < |t.answers| ==> t.answers[i] == Answer(i, Some(sent[i])))
  {
    var t := Run(OPENED, es);
    LiveRun(OPENED, es);
    RunKeeps(OPENED, es);
    MessagesDelivered(es);
    DeliveredAt(t.answers, i);
    assert Stream(t) == Pushes(es);
    if i < |t.answers| {
      assert Pushes(es)[i] == Delivered(t.answers)[i];
      assert t.answers[i].call == i && t.answers[i].message.Some?;
    }
  }
}
