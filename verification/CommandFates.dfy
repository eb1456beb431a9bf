/** What becomes of each command of a connection: the first event that concerns it decides. */
module CommandFates {
  import opened Wrappers
  import opened BleConnection

  /** What the event makes of an open command: its promise resolves or rejects with the client's
      answer, or rejects with an error. */
  function Outcome(e: Event, c: Command): Option<Cause> {
    match e
    case Response(d, success) => if d == c then Some(Answered(c, success)) else None
    case SendDone(d, ok) => if d == c && !ok then Some(SendError) else None
    case Timeout(d) => if d == c then Some(TimedOut) else None
    case Cleanup => Some(Disconnected)
    case _ => None
  }

  /** The command has the outcome, if there is one, or is still open. */
  predicate Fares(s: State, c: Command, outcome: Option<Cause>) {
    match outcome
    case Some(cause) => c in s.settled && s.settled[c] == cause && c !in s.waiting
    case None => c in s.waiting && c !in s.settled
  }

  /** An event settles an open command exactly if it concerns it, and as it says. */
  lemma {:induction false} StepSettles(s: State, e: Event, c: Command)
    requires Valid(s) && Correlated(s) && Enabled(s, e) && !Clash(s, e) && c in s.waiting
    ensures Fares(Step(s, e), c, Outcome(e, c))
  {
    match e
    case Response(d, success) => AnswerSettles(s, d, success, c);
    case SendDone(d, ok) =>
    case Timeout(d) =>
    case Cleanup => assert s.pending[IdOf(c)] == c;
    case _ =>
  }

  /** The answer of the client, success or not, settles its command, and no other one. */
  lemma {:induction false} AnswerSettles(s: State, d: Command, success: bool, c: Command)
    requires Valid(s) && Correlated(s) && c in s.waiting && (d in s.waiting || IdOf(d) !in s.pending)
    ensures Fares(Step(s, Response(d, success)), c, if d == c then Some(Answered(d, success)) else None)
  {
    assert s.pending[IdOf(c)] == c;
  }

  /** A command that is sent is open, and pending under the low 16 bits of its number. */
  lemma {:induction false} SendOpens(s: State)
    requires Valid(s) && Enabled(s, Send)
    ensures Step(s, Send).sent == s.sent + 1 && Fares(Step(s, Send), s.sent, None)
    ensures var id := s.sent % 65536; id in Step(s, Send).pending && Step(s, Send).pending[id] == s.sent
  {
  }

  /** The outcome of the first event that concerns the command once it is sent. */
  function Fate(sent: nat, es: seq<Event>, c: Command): Option<Cause>
    decreases es
  {
    if es == [] then None
    else if c < sent && Outcome(es[0], c).Some? then Outcome(es[0], c)
    else Fate(if es[0].Send? then sent + 1 else sent, es[1..], c)
  }

  lemma {:induction false} SettledStays(s: State, es: seq<Event>, c: Command)
    requires Valid(s) && Possible(s, es) && c in s.settled
    ensures c in Run(s, es).settled && Run(s, es).settled[c] == s.settled[c]
    decreases es
  {
    if es != [] {
      SettledForGood(s, es[0]);
      StepKeeps(s, es[0]);
      SettledStays(Step(s, es[0]), es[1..], c);
    }
  }

  lemma {:induction false} SentCount(s: State, e: Event)
    ensures Step(s, e).sent == if e.Send? then s.sent + 1 else s.sent
  {
  }

  lemma {:induction false} RunFate(s: State, es: seq<Event>, c: Command)
    requires Valid(s) && Sound(s) && Possible(s, es) && NoClash(s, es) && (c in s.waiting || c >= s.sent)
    ensures var t, fate := Run(s, es), Fate(s.sent, es, c);
      if fate.None? then c !in t.settled else c in t.settled && t.settled[c] == fate.value
    decreases es
  {
    if es != [] {
      var t := Step(s, es[0]);
      StepKeeps(s, es[0]);
      SentCount(s, es[0]);
      if c in s.waiting {
        StepSettles(s, es[0], c);
        if Outcome(es[0], c).Some? {
          SettledStays(t, es[1..], c);
        } else {
          RunFate(t, es[1..], c);
        }
      } else {
        RunFate(t, es[1..], c);
      }
    }
  }

  /** Over all runs without a clash: a command is settled exactly if an event after its sending
      concerned it, and then as the first such event says. */
  lemma {:induction false} EachFate(es: seq<Event>, c: Command)
    requires Possible(INITIAL, es) && NoClash(INITIAL, es)
    ensures var t, fate := Run(INITIAL, es), Fate(0, es, c);
      if fate.None? then c !in t.settled else c in t.settled && t.settled[c] == fate.value
  {
    RunFate(INITIAL, es, c);
  }

  // ---- when commands can be sent ------------------------------------------------------------------

  /** A connection that dropped sends nothing any more. */
  lemma {:induction false} DroppedSendsNothing(s: State, es: seq<Event>)
    requires !s.open && Possible(s, es)
    ensures Send !in es && !Run(s, es).open
    decreases es
  {
    if es != [] {
      DroppedSendsNothing(Step(s, es[0]), es[1..]);
    }
  }

  /** Without a hello nothing is sent, be it before the handshake or after a cleanup. */
  lemma {:induction false} NothingBeforeHello(s: State, es: seq<Event>)
    requires !s.ready && Possible(s, es) && Hello !in es
    ensures Send !in es && !Run(s, es).ready
    decreases es
  {
    if es != [] {
      NothingBeforeHello(Step(s, es[0]), es[1..]);
    }
  }

  /** A hello opens a connection that has not dropped; dropping and cleaning up close it. */
  lemma {:induction false} WhoMaySend(s: State)
    ensures Enabled(Step(s, Hello), Send) <==> s.open
    ensures !Step(s, Drop).open && !Step(s, Cleanup).ready
    ensures Enabled(Step(s, Send), Send) <==> Enabled(s, Send)
  {
  }

  /** `closed` is emitted by the first cleanup and by no other event. */
  lemma {:induction false} ClosedOnce(s: State, es: seq<Event>)
    requires s.closings <= 1
    ensures Run(s, es).closings == if s.closings == 1 || Cleanup in es then 1 else 0
    decreases es
  {
    if es != [] {
      ClosedOnce(Step(s, es[0]), es[1..]);
    }
  }
}
