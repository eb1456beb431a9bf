/** Commands and their answers on one proxy connection. Commands are numbered as they are
    sent; on the wire a command carries the low 16 bits of its number. */
module BleConnection {
  import opened Wrappers

  const IDS: nat := 0x1_0000

  type Command = nat

  /** to: the command that the client answered. */
  datatype Cause = Answered(to: Command, success: bool) | SendError | TimedOut | Disconnected

  /** waiting: commands sent and not settled; unsure: commands whose send may still fail;
      unanswered: commands for which no answer has come. */
  datatype State = State(
    open: bool,
    ready: bool,
    closings: nat,                   // how often `closed` was emitted
    pending: map<nat, Command>,
    nextId: nat,
    sent: nat,
    waiting: set<Command>,
    unsure: set<Command>,
    unanswered: set<Command>,
    settled: map<Command, Cause>)

  datatype Event =
    | Hello
    | Drop                                      // the socket is no longer open
    | Send
    | SendDone(command: Command, ok: bool)      // the socket reports how sending went
    | Timeout(command: Command)
    | Response(command: Command, success: bool)   // the client's answer to the command, which
                                                  // it may send late, twice or unasked
    | Cleanup                                   // close, error, timeout or bad handshake

  const INITIAL: State := State(true, false, 0, map[], 0, 0, {}, {}, {}, map[])

  function IdOf(c: Command): nat {
    c % IDS
  }

  // ---- steps ------------------------------------------------------------------------------------

  /** A promise settles the first time it is told to. */
  function Settle(s: State, c: Command, cause: Cause): State {
    if c in s.waiting then s.(waiting := s.waiting - {c}, settled := s.settled[c := cause]) else s
  }

  function Sent(s: State): State {
    s.(pending := s.pending[s.nextId := s.sent],
       nextId := (s.nextId + 1) % IDS,
       sent := s.sent + 1,
       waiting := s.waiting + {s.sent},
       unsure := s.unsure + {s.sent},
       unanswered := s.unanswered + {s.sent})
  }

  /** On the wire an answer carries only its command's id: it settles whatever is pending there. */
  function Replied(s: State, c: Command, success: bool): State {
    var t := s.(unanswered := s.unanswered - {c});
    if IdOf(c) in t.pending then Settle(Forget(t, IdOf(c)), t.pending[IdOf(c)], Answered(c, success)) else t
  }

  /** Forgets the pending command with the id, whichever it is. */
  function Forget(s: State, id: nat): State {
    s.(pending := s.pending - {id})
  }

  /** The settled commands once those waiting among cs are rejected. */
  function AllRejected(settled: map<Command, Cause>, waiting: set<Command>, cs: set<Command>): map<Command, Cause> {
    settled + map c | c in cs && c in waiting :: Disconnected
  }

  function Rejected(s: State, cs: set<Command>): State {
    s.(waiting := s.waiting - cs, settled := AllRejected(s.settled, s.waiting, cs))
  }

  /** Rejects every pending command and emits `closed` once. */
  function CleanedUp(s: State): State {
    Rejected(s, s.pending.Values).(ready := false, pending := map[], closings := if s.closings == 0 then 1 else s.closings)
  }

  predicate Enabled(s: State, e: Event) {
    match e
    case Hello => !s.ready
    case Send => s.open && s.ready              // otherwise sendCommand throws
    case SendDone(c, _) => c in s.unsure
    case Timeout(c) => c in s.waiting           // a settled promise stops its timer
    case _ => true
  }

  function Step(s: State, e: Event): State {
    match e
    case Hello => s.(ready := true)
    case Drop => s.(open := false)
    case Send => Sent(s)
    case SendDone(c, ok) =>
      var t := s.(unsure := s.unsure - {c});
      if ok then t else Settle(Forget(t, IdOf(c)), c, SendError)
    case Timeout(c) => Settle(Forget(s, IdOf(c)), c, TimedOut)
    case Response(c, success) => Replied(s, c, success)
    case Cleanup => CleanedUp(s)
  }

  // ---- what is kept -----------------------------------------------------------------------------

  /** Every command sent is either waiting or settled, an answered one under its own id. */
  predicate Valid(s: State) {
    && s.nextId == s.sent % IDS
    && (forall c | c in s.waiting :: c < s.sent && c !in s.settled)
    && (forall c | c in s.unsure :: c < s.sent)
    && (forall c | c in s.unanswered :: c < s.sent)
    && (forall c | c in s.settled :: c < s.sent)
    && (forall c: Command | c < s.sent :: c in s.waiting || c in s.settled)
    && (forall c | c in s.settled && s.settled[c].Answered? :: IdOf(s.settled[c].to) == IdOf(c))
    && (forall id | id in s.pending :: id < IDS && s.pending[id] in s.waiting && IdOf(s.pending[id]) == id)
    && s.closings <= 1
  }

  /** Every waiting command is pending under its id, so its answer finds it. */
  predicate Correlated(s: State) {
    forall c | c in s.waiting :: IdOf(c) in s.pending && s.pending[IdOf(c)] == c
  }

  /** Every answered command was answered by the answer to itself. */
  predicate Genuine(s: State) {
    forall c | c in s.settled && s.settled[c].Answered? :: s.settled[c].to == c
  }

  predicate Sound(s: State) {
    Correlated(s) && Genuine(s)
  }

  /** The id comes round while another command still holds it; or a failed send is reported,
      or an answer comes, for a settled command whose id another one holds by now. */
  predicate Clash(s: State, e: Event) {
    match e
    case Send => s.nextId in s.pending
    case SendDone(c, ok) => !ok && c !in s.waiting && IdOf(c) in s.pending
    case Response(c, _) => c !in s.waiting && IdOf(c) in s.pending
    case _ => false
  }

  /** Settling a command that is no longer pending. */
  lemma {:induction false} SettleKeeps(s: State, c: Command, cause: Cause)
    requires Valid(s) && forall id | id in s.pending :: s.pending[id] != c
    requires cause.Answered? ==> IdOf(cause.to) == IdOf(c)
    ensures Valid(Settle(s, c, cause)) && Settle(s, c, cause).pending == s.pending
  {
  }

  lemma {:induction false} ForgetKeeps(s: State, id: nat)
    requires Valid(s)
    ensures Valid(Forget(s, id))
  {
  }

  lemma {:induction false} SendKeeps(s: State)
    requires Valid(s)
    ensures Valid(Sent(s))
  {
  }

  /** Sending keeps commands and answers together unless the id is still held. */
  lemma {:induction false} SendCorrelates(s: State)
    requires Valid(s) && Correlated(s)
    ensures Correlated(Sent(s)) <==> s.nextId !in s.pending
  {
    var t := Sent(s);
    if s.nextId in s.pending {
      var held := s.pending[s.nextId];
      assert held in t.waiting && held != s.sent && t.pending[IdOf(held)] == s.sent;
    } else {
      forall c | c in t.waiting ensures IdOf(c) in t.pending && t.pending[IdOf(c)] == c {
        if c != s.sent {
          assert c in s.waiting;
        }
      }
    }
  }

  /** Forgetting an id and settling its command, as an answer, a timeout or a failed send does. */
  lemma {:induction false} DropKeeps(s: State, c: Command, cause: Cause)
    requires Valid(s) && (cause.Answered? ==> IdOf(cause.to) == IdOf(c))
    ensures Valid(Settle(Forget(s, IdOf(c)), c, cause))
    ensures Correlated(s) ==> (Correlated(Settle(Forget(s, IdOf(c)), c, cause)) <==> c in s.waiting || IdOf(c) !in s.pending)
  {
    var id := IdOf(c);
    var f := Forget(s, id);
    ForgetKeeps(s, id);
    SettleKeeps(f, c, cause);
    if Correlated(s) {
      var t := Settle(f, c, cause);
      if c !in s.waiting && id in s.pending {
        assert s.pending[id] in t.waiting;
      } else {
        forall x | x in t.waiting ensures IdOf(x) in t.pending && t.pending[IdOf(x)] == x {
          assert x in s.waiting;
        }
      }
    }
  }

  /** Cleanup settles what is pending and emits `closed` if it was not emitted before; where
      answers find their commands, nothing is left waiting. */
  lemma {:induction false} CleanupKeeps(s: State)
    requires Valid(s)
    ensures var t := CleanedUp(s);
      Valid(t) && t.pending == map[] && t.closings == 1 && (Correlated(s) ==> t.waiting == {} && Correlated(t))
  {
    if Correlated(s) {
      forall c | c in s.waiting ensures c in s.pending.Values {
        assert s.pending[IdOf(c)] == c;
      }
    }
  }

  /** A settled command stays settled as it is. */
  lemma {:induction false} SettledForGood(s: State, e: Event)
    requires Valid(s) && Enabled(s, e)
    ensures forall c | c in s.settled :: c in Step(s, e).settled && Step(s, e).settled[c] == s.settled[c]
  {
  }

  /** An answer settles its own command exactly if no other one holds the id. */
  lemma {:induction false} ReplyKeeps(s: State, c: Command, success: bool)
    requires Valid(s)
    ensures Valid(Replied(s, c, success))
    ensures Sound(s) ==> (Sound(Replied(s, c, success)) <==> c in s.waiting || IdOf(c) !in s.pending)
  {
    var t := s.(unanswered := s.unanswered - {c});
    if IdOf(c) in t.pending {
      var held := t.pending[IdOf(c)];
      DropKeeps(t, held, Answered(c, success));
      assert Replied(s, c, success).settled[held] == Answered(c, success);
    }
  }

  // ---- steps and runs ---------------------------------------------------------------------------

  /** Every event keeps the books; it keeps commands and their own answers together if and only
      if it is no clash. */
  lemma {:induction false} StepKeeps(s: State, e: Event)
    requires Valid(s) && Enabled(s, e)
    ensures Valid(Step(s, e)) && (Sound(s) ==> (Sound(Step(s, e)) <==> !Clash(s, e)))
  {
    match e
    case Hello =>
    case Drop =>
    case Send =>
      SendKeeps(s);
      if Correlated(s) {
        SendCorrelates(s);
      }
    case SendDone(c, ok) =>
      if !ok {
        DropKeeps(s.(unsure := s.unsure - {c}), c, SendError);
      }
    case Timeout(c) => DropKeeps(s, c, TimedOut);
    case Response(c, success) => ReplyKeeps(s, c, success);
    case Cleanup => CleanupKeeps(s);
  }

  predicate Possible(s: State, es: seq<Event>)
    decreases es
  {
    es == [] || (Enabled(s, es[0]) && Possible(Step(s, es[0]), es[1..]))
  }

  function Run(s: State, es: seq<Event>): State
    decreases es
  {
    if es == [] then s else Run(Step(s, es[0]), es[1..])
  }

  /** In the run, no id comes round too early and no answer or failure too late. */
  predicate NoClash(s: State, es: seq<Event>)
    decreases es
  {
    es == [] || (!Clash(s, es[0]) && NoClash(Step(s, es[0]), es[1..]))
  }

  lemma {:induction false} RunKeeps(s: State, es: seq<Event>)
    requires Valid(s) && Possible(s, es)
    ensures Valid(Run(s, es)) && (Sound(s) && NoClash(s, es) ==> Sound(Run(s, es)))
    decreases es
  {
    if es != [] {
      StepKeeps(s, es[0]);
      RunKeeps(Step(s, es[0]), es[1..]);
    }
  }

  lemma {:induction false} AllBelow(n: nat, a: set<Command>, b: set<Command>)
    requires forall c | c in a :: c < n && c !in b
    requires forall c | c in b :: c < n
    requires forall c: Command | c < n :: c in a || c in b
    ensures n == |a| + |b|
  {
    if n > 0 {
      var c := n - 1;
      AllBelow(c, a - {c}, b - {c});
    } else {
      assert a == {} && b == {};
    }
  }

  lemma {:induction false} PendingSize(pending: map<nat, Command>, waiting: set<Command>)
    requires forall id | id in pending :: pending[id] in waiting && IdOf(pending[id]) == id
    requires forall c | c in waiting :: IdOf(c) in pending && pending[IdOf(c)] == c
    ensures |pending| == |waiting|
    decreases waiting
  {
    if waiting == {} {
      assert pending == map[];
    } else {
      var c :| c in waiting;
      var fewer := pending - {IdOf(c)};
      assert pending.Keys == fewer.Keys + {IdOf(c)};
      PendingSize(fewer, waiting - {c});
    }
  }

  /** Every command sent is settled once or pending, and nothing else is. */
  lemma {:induction false} SentIsSettledOrPending(s: State)
    requires Valid(s)
    ensures s.sent == |s.settled| + |s.waiting|
    ensures Correlated(s) ==> s.sent == |s.settled| + |s.pending|
  {
    AllBelow(s.sent, s.waiting, s.settled.Keys);
    if Correlated(s) {
      PendingSize(s.pending, s.waiting);
    }
  }

  /** Over all runs without a clash: each command is settled at most once and by the answer to
      itself, a failed send, its timeout or a disconnect; what is sent is settled or pending;
      after a cleanup nothing is pending and `closed` was emitted once. */
  lemma {:induction false} CommandsOverRuns(es: seq<Event>)
    requires Possible(INITIAL, es)
    ensures var s := Run(INITIAL, es);
      && Valid(s)
      && (NoClash(INITIAL, es) ==>
           && Correlated(s) && Genuine(s) && s.sent == |s.settled| + |s.pending|
           && var t := CleanedUp(s); t.pending == map[] && t.closings == 1 && t.sent == |t.settled|)
  {
    RunKeeps(INITIAL, es);
    var s := Run(INITIAL, es);
    CleanupKeeps(s);
    SentIsSettledOrPending(s);
    SentIsSettledOrPending(CleanedUp(s));
  }

  /** The client answers only commands that it was sent and has not answered yet. */
  predicate Honest(s: State, e: Event) {
    e.Response? ==> e.command in s.unanswered
  }

  /** Every command that may still hold its id, fail or be answered is recent. */
  predicate Recent(s: State) {
    forall c | c in s.waiting + s.unsure + s.unanswered :: s.sent - c < IDS
  }

  /** Ids of commands fewer than 65536 apart differ: without an older one left, no clash. */
  lemma {:induction false} RecentNeverClash(s: State, e: Event)
    requires Valid(s) && Enabled(s, e) && Honest(s, e) && Recent(s)
    ensures !Clash(s, e)
  {
    match e
    case Send =>
      if s.nextId in s.pending {
        var held := s.pending[s.nextId];
        assert held in s.waiting + s.unsure + s.unanswered;
        SameIdFarApart(held, s.sent);
      }
    case SendDone(c, ok) => RecentHolder(s, c);
    case Response(c, _) => RecentHolder(s, c);
    case _ =>
  }

  /** Among recent commands, only a waiting one finds its id held. */
  lemma {:induction false} RecentHolder(s: State, c: Command)
    requires Valid(s) && Recent(s) && c in s.waiting + s.unsure + s.unanswered
    ensures IdOf(c) in s.pending ==> c in s.waiting
  {
    if IdOf(c) in s.pending && c !in s.waiting {
      var held := s.pending[IdOf(c)];
      assert held in s.waiting + s.unsure + s.unanswered;
      SameIdFarApart(if c < held then c else held, if c < held then held else c);
    }
  }

  predicate RecentThroughout(s: State, es: seq<Event>)
    decreases es
  {
    es == [] || (Recent(s) && Honest(s, es[0]) && RecentThroughout(Step(s, es[0]), es[1..]))
  }

  /** In a run with an honest client where no open, unsure or unanswered command grows 65536
      sends old, there is no clash. */
  lemma {:induction false} RecentRunsNeverClash(s: State, es: seq<Event>)
    requires Valid(s) && Possible(s, es) && RecentThroughout(s, es)
    ensures NoClash(s, es)
    decreases es
  {
    if es != [] {
      RecentNeverClash(s, es[0]);
      StepKeeps(s, es[0]);
      RecentRunsNeverClash(Step(s, es[0]), es[1..]);
    }
  }

  lemma {:induction false} SameIdFarApart(a: nat, b: nat)
    requires a < b && a % IDS == b % IDS
    ensures b - a >= IDS
  {
    assert b - a == IDS * (b / IDS - a / IDS);
  }

  // ---- runs that clash --------------------------------------------------------------------------

  lemma {:induction false} RunJoin(s: State, a: seq<Event>, b: seq<Event>)
    ensures Run(s, a + b) == Run(Run(s, a), b)
    ensures Possible(s, a + b) <==> Possible(s, a) && Possible(Run(s, a), b)
    decreases a
  {
    if a == [] {
      assert a + b == b;
    } else {
      assert (a + b)[1..] == a[1..] + b;
      RunJoin(Step(s, a[0]), a[1..], b);
    }
  }

  /** n commands, each answered before the next is sent. */
  function Rounds(first: Command, n: nat): seq<Event>
    decreases n
  {
    if n == 0 then [] else [Send, Response(first, true)] + Rounds(first + 1, n - 1)
  }

  /** Connected, and no command is open. */
  predicate Calm(s: State) {
    Valid(s) && s.open && s.ready && s.waiting == {} && s.pending == map[]
  }

  lemma {:induction false} RunTwo(s: State, a: Event, b: Event, es: seq<Event>)
    ensures Run(s, [a, b] + es) == Run(Step(Step(s, a), b), es)
    ensures Possible(s, [a, b] + es) <==> Enabled(s, a) && Enabled(Step(s, a), b) && Possible(Step(Step(s, a), b), es)
  {
    assert ([a, b] + es)[1..] == [b] + es && ([b] + es)[1..] == es;
  }

  function Round(s: State): State {
    Step(Step(s, Send), Response(s.sent, true))
  }

  lemma {:induction false} CalmRound(s: State)
    requires Calm(s)
    ensures Calm(Round(s)) && Round(s).sent == s.sent + 1
  {
    StepKeeps(s, Send);
    StepKeeps(Step(s, Send), Response(s.sent, true));
    var u := Step(s, Send);
    assert IdOf(s.sent) == s.nextId;
    assert u.pending[s.nextId] == s.sent;
    assert u.pending - {s.nextId} == map[];
  }

  lemma {:induction false} RoundsHead(s: State, n: nat)
    requires Calm(s) && n > 0
    ensures Run(s, Rounds(s.sent, n)) == Run(Round(s), Rounds(s.sent + 1, n - 1))
    ensures Possible(Round(s), Rounds(s.sent + 1, n - 1)) ==> Possible(s, Rounds(s.sent, n))
  {
    RunTwo(s, Send, Response(s.sent, true), Rounds(s.sent + 1, n - 1));
  }

  lemma {:induction false} CalmRounds(s: State, n: nat)
    requires Calm(s)
    ensures Possible(s, Rounds(s.sent, n))
    ensures Calm(Run(s, Rounds(s.sent, n))) && Run(s, Rounds(s.sent, n)).sent == s.sent + n
    decreases n
  {
    if n > 0 {
      CalmRound(s);
      RoundsHead(s, n);
      CalmRounds(Round(s), n - 1);
    }
  }

  const START: State := Step(INITIAL, Hello)

  /** Command 0 has timed out. */
  const TIMED_OUT: State := Step(Step(START, Send), Timeout(0))

  lemma {:induction false} TimedOutIsCalm()
    ensures Calm(TIMED_OUT) && TIMED_OUT.sent == 1
    ensures Possible(INITIAL, [Hello, Send, Timeout(0)]) && Run(INITIAL, [Hello, Send, Timeout(0)]) == TIMED_OUT
  {
    StepKeeps(INITIAL, Hello);
    StepKeeps(START, Send);
    StepKeeps(Step(START, Send), Timeout(0));
    assert Step(START, Send).pending == map[0 := 0];
    var es := [Hello, Send, Timeout(0)];
    assert es[1..] == [Send, Timeout(0)] + [];
    RunTwo(START, Send, Timeout(0), []);
  }

  /** Command 0 times out; 65535 commands later its id comes round; then its answer arrives,
      and command 65536 is settled with it. */
  lemma {:induction false} LateAnswerMisleads() returns (es: seq<Event>)
    ensures Possible(INITIAL, es)
    ensures var s := Run(INITIAL, es); var t := Step(s, Response(0, true));
      Clash(s, Response(0, true)) && IDS in t.settled && t.settled[IDS] == Answered(0, true)
  {
    var before := [Hello, Send, Timeout(0)];
    var rounds := Rounds(1, IDS - 1);
    TimedOutIsCalm();
    CalmRounds(TIMED_OUT, IDS - 1);
    var calm := Run(TIMED_OUT, rounds);
    RunJoin(INITIAL, before, rounds);
    RunJoin(INITIAL, before + rounds, [Send]);
    es := before + rounds + [Send];
    var s := Step(calm, Send);
    assert [Send][1..] == [];
    assert Run(INITIAL, es) == s;
    assert calm.nextId == 0 && s.pending[0] == IDS;
  }

  /** n commands without an answer. */
  function Sends(n: nat): seq<Event> {
    if n == 0 then [] else [Send] + Sends(n - 1)
  }

  /** Connected, and every command so far is open. */
  predicate Flooded(s: State) {
    Valid(s) && Correlated(s) && s.open && s.ready && s.settled == map[] && s.sent <= IDS
  }

  lemma {:induction false} Flood(s: State, n: nat)
    requires Flooded(s) && s.sent + n <= IDS
    ensures Possible(s, Sends(n)) && Flooded(Run(s, Sends(n))) && Run(s, Sends(n)).sent == s.sent + n
    decreases n
  {
    if n > 0 {
      SendKeeps(s);
      FloodHasRoom(s);
      SendCorrelates(s);
      Flood(Sent(s), n - 1);
      assert Sends(n)[1..] == Sends(n - 1);
    }
  }

  lemma {:induction false} FloodHasRoom(s: State)
    requires Flooded(s) && s.sent < IDS
    ensures s.nextId !in s.pending
  {
  }

  lemma {:induction false} FloodIsFull(s: State)
    requires Flooded(s) && s.sent == IDS
    ensures s.nextId in s.pending
  {
    assert 0 in s.waiting;
  }

  /** After 65536 commands without an answer, the next one takes the id of a waiting one. */
  lemma {:induction false} FloodClashes()
    ensures var es := [Hello] + Sends(IDS); Possible(INITIAL, es) && Clash(Run(INITIAL, es), Send)
  {
    StepKeeps(INITIAL, Hello);
    Flood(START, IDS);
    assert ([Hello] + Sends(IDS))[1..] == Sends(IDS);
    FloodIsFull(Run(START, Sends(IDS)));
  }

  // ---- the connection ---------------------------------------------------------------------------

  /** One connection: its socket, its pending commands and the promises it handed out. */
  class BleProxyConnection {
    var open: bool
    var handshakeComplete: bool
    var closings: nat
    var pendingCommands: map<nat, Command>
    var nextCommandId: nat
    var sent: nat
    var waiting: set<Command>
    var unsure: set<Command>
    ghost var unanswered: set<Command>
    ghost var settled: map<Command, Cause>

    ghost function Now(): State
      reads this
    {
      State(open, handshakeComplete, closings, pendingCommands, nextCommandId, sent, waiting, unsure, unanswered, settled)
    }

    constructor ()
      ensures Now() == INITIAL
    {
      open, handshakeComplete, closings := true, false, 0;
      pendingCommands, nextCommandId := map[], 0;
      sent, waiting, unsure := 0, {}, {};
      unanswered, settled := {}, map[];
    }

    method SettleCommand(c: Command, ghost cause: Cause)
      modifies this`waiting, this`settled
      ensures Now() == Settle(old(Now()), c, cause)
    {
      if c in waiting {
        waiting := waiting - {c};
        settled := settled[c := cause];
      }
    }

    method HandleHello()
      requires !handshakeComplete
      modifies this
      ensures Now() == Step(old(Now()), Hello)
    {
      handshakeComplete := true;
    }

    /** None: the client is not connected. */
    method SendCommand() returns (command: Option<Command>)
      modifies this
      ensures command == if Enabled(old(Now()), Send) then Some(old(sent)) else None
      ensures Now() == if command.Some? then Step(old(Now()), Send) else old(Now())
    {
      if !(handshakeComplete && open) {
        return None;
      }
      var id := nextCommandId;
      nextCommandId := (nextCommandId + 1) % IDS;
      var promise := sent;
      sent := sent + 1;
      waiting := waiting + {promise};
      pendingCommands := pendingCommands[id := promise];
      unsure := unsure + {promise};
      unanswered := unanswered + {promise};
      command := Some(promise);
    }

    /** The socket's callback for one command. */
    method OnSendDone(c: Command, ok: bool)
      requires c in unsure
      modifies this
      ensures Now() == Step(old(Now()), SendDone(c, ok))
    {
      unsure := unsure - {c};
      if !ok {
        pendingCommands := pendingCommands - {IdOf(c)};
        SettleCommand(c, SendError);
      }
    }

    method OnTimeout(c: Command)
      requires c in waiting
      modifies this
      ensures Now() == Step(old(Now()), Timeout(c))
    {
      pendingCommands := pendingCommands - {IdOf(c)};
      SettleCommand(c, TimedOut);
    }

    /** to: the command that the client answers; an id beyond 16 bits is nobody's. */
    method HandleResponse(id: nat, success: bool, ghost to: Command)
      requires Valid(Now()) && (id < IDS ==> id == IdOf(to))
      modifies this
      ensures Now() == if id < IDS then Step(old(Now()), Response(to, success)) else old(Now())
      ensures id in old(pendingCommands) ==>
        old(pendingCommands)[id] in settled && settled[old(pendingCommands)[id]] == Answered(to, success)
    {
      if id < IDS {
        unanswered := unanswered - {to};
      }
      if id !in pendingCommands {
        return;
      }
      var c := pendingCommands[id];
      pendingCommands := pendingCommands - {id};
      SettleCommand(c, Answered(to, success));
    }

    method RejectPending()
      modifies this`pendingCommands, this`waiting, this`settled
      ensures pendingCommands == map[] && waiting == old(waiting) - old(pendingCommands).Values
      ensures settled == AllRejected(old(settled), old(waiting), old(pendingCommands).Values)
    {
      while |pendingCommands| > 0
        invariant waiting - pendingCommands.Values == old(waiting) - old(pendingCommands).Values
        invariant AllRejected(settled, waiting, pendingCommands.Values)
               == AllRejected(old(settled), old(waiting), old(pendingCommands).Values)
        decreases |pendingCommands|
      {
        var id :| id in pendingCommands;
        var c := pendingCommands[id];
        RejectNext(settled, waiting, pendingCommands, id);
        pendingCommands := pendingCommands - {id};
        if c in waiting {
          settled := settled[c := Disconnected];
        }
        waiting := waiting - {c};
      }
    }

    method DoCleanup()
      modifies this
      ensures Now() == Step(old(Now()), Cleanup)
    {
      handshakeComplete := false;
      RejectPending();
      if closings == 0 {
        closings := closings + 1;
      }
    }
  }

  lemma {:induction false} RejectNext(settled: map<Command, Cause>, waiting: set<Command>,
                                      pending: map<nat, Command>, id: nat)
    requires id in pending
    ensures var rest, c := pending - {id}, pending[id];
      && waiting - pending.Values == waiting - {c} - rest.Values
      && AllRejected(settled, waiting, pending.Values)
         == AllRejected(if c in waiting then settled[c := Disconnected] else settled, waiting - {c}, rest.Values)
  {
    ValuesWithout(pending, id);
  }

  lemma {:induction false} ValuesWithout(pending: map<nat, Command>, id: nat)
    requires id in pending
    ensures pending.Values == (pending - {id}).Values + {pending[id]}
  {
    var rest := pending - {id};
    forall c | c in pending.Values ensures c in rest.Values + {pending[id]} {
      var k :| k in pending && pending[k] == c;
      assert k != id ==> rest[k] == c;
    }
    forall c | c in rest.Values ensures c in pending.Values {
      var k :| k in rest && rest[k] == c;
      assert pending[k] == c;
    }
    assert pending.Values == rest.Values + {pending[id]};
  }
}
