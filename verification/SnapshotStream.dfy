/** The camera snapshot stream a viewer holds: reused from another client or allocated by
    itself, and given back exactly when it is its own. */
module SnapshotStream {
  import opened Wrappers

  type StreamId = int

  datatype Resolution = Resolution(width: int, height: int)

  // ---- choosing a stream ------------------------------------------------------------------------

  function Min(a: int, b: int): int {
    if a <= b then a else b
  }

  function ClampToCapability(requested: Resolution, cap: Resolution): Resolution {
    Resolution(Min(requested.width, cap.width), Min(requested.height, cap.height))
  }

  predicate Fits(r: Resolution, cap: Resolution) {
    r.width <= cap.width && r.height <= cap.height
  }

  /** The clamped resolution is the greatest one that fits both. */
  lemma {:induction false} ClampIsGreatest(requested: Resolution, cap: Resolution, r: Resolution)
    ensures Fits(r, requested) && Fits(r, cap) <==> Fits(r, ClampToCapability(requested, cap))
  {
  }

  /** What a snapshot needs of its stream; a flag is None where the camera lacks the feature. */
  datatype Want = Want(imageCodec: int, resolution: Resolution, frameRate: int, watermark: Option<bool>, osd: Option<bool>)

  /** An entry of the camera's list of allocated streams, as far as it could be read. */
  datatype Entry = Entry(
    id: Option<StreamId>,
    imageCodec: Option<int>,
    least: Option<Resolution>,
    most: Option<Resolution>,
    watermark: Option<bool>,
    osd: Option<bool>)

  predicate Agrees(wanted: Option<bool>, actual: Option<bool>) {
    wanted.Some? ==> actual == wanted
  }

  predicate Covers(e: Entry, want: Want) {
    && e.imageCodec == Some(want.imageCodec)
    && e.least.Some? && e.most.Some? && Fits(e.least.value, want.resolution) && Fits(want.resolution, e.most.value)
    && Agrees(want.watermark, e.watermark) && Agrees(want.osd, e.osd)
  }

  /** The first entry with an id that covers the wanted parameters. */
  function FindMatching(list: seq<Entry>, want: Want): Option<StreamId> {
    if list == [] then None
    else if Covers(list[0], want) && list[0].id.Some? then list[0].id
    else FindMatching(list[1..], want)
  }

  method FindMatchingSnapshotStream(list: seq<Entry>, want: Want) returns (id: Option<StreamId>)
    ensures id == FindMatching(list, want)
    ensures id.None? <==> forall i | 0 <= i < |list| :: !(Covers(list[i], want) && list[i].id.Some?)
    ensures id.Some? ==>
      exists i | 0 <= i < |list| ::
        Covers(list[i], want) && list[i].id == id && forall j | 0 <= j < i :: !(Covers(list[j], want) && list[j].id.Some?)
  {
    for i := 0 to |list|
      invariant FindMatching(list, want) == FindMatching(list[i..], want)
      invariant forall j | 0 <= j < i :: !(Covers(list[j], want) && list[j].id.Some?)
    {
      assert list[i..][0] == list[i] && list[i..][1..] == list[i + 1..];
      var e := list[i];
      if e.imageCodec != Some(want.imageCodec) || e.least.None? || e.most.None? {
        continue;
      }
      var least, most := e.least.value, e.most.value;
      if least.width > want.resolution.width || most.width < want.resolution.width {
        continue;
      }
      if least.height > want.resolution.height || most.height < want.resolution.height {
        continue;
      }
      if want.watermark.Some? && e.watermark != want.watermark {
        continue;
      }
      if want.osd.Some? && e.osd != want.osd {
        continue;
      }
      if e.id.Some? {
        return e.id;
      }
    }
    id := None;
  }

  // ---- the lifecycle ----------------------------------------------------------------------------

  /** The stream in use, the parameters it was ensured for, and whether it is the viewer's own. */
  datatype Held = Held(id: StreamId, want: Want, owned: bool)

  /** The operations of the serialized chain. */
  datatype Op = TakeSnapshot(want: Want) | Release

  /** Where the running operation waits. */
  datatype Phase = Idle | Releasing | Replacing(want: Want) | Allocating(want: Want) | Capturing

  /** granted and returned: the ids of the camera's answers and of the viewer's requests. */
  datatype State = State(
    held: Option<Held>,
    chain: seq<Op>,
    phase: Phase,
    granted: seq<StreamId>,
    returned: seq<StreamId>)

  datatype Event =
    | Request(op: Op)
    | Begin(list: seq<Entry>)                    // the next operation of the chain starts
    | Replaced(list: seq<Entry>)                 // the old stream's deallocation has returned
    | AllocateAnswered(id: Option<StreamId>)     // None: an error, or no id in the answer
    | OpDone
    | DeallocateNow                              // a deallocation outside the chain

  const INITIAL: State := State(None, [], Idle, [], [])

  /** deallocateSnapshot up to its request: the hold ends; only an own stream is given back. */
  function LetGo(s: State): State {
    if s.held.None? then s
    else
      s.(held := None, returned := if s.held.value.owned then s.returned + [s.held.value.id] else s.returned)
  }

  /** Reuses a matching stream or asks for a new one. */
  function Acquire(s: State, want: Want, list: seq<Entry>): State {
    match FindMatching(list, want)
    case Some(id) => s.(held := Some(Held(id, want, false)), phase := Capturing)
    case None => s.(phase := Allocating(want))
  }

  function Ensure(s: State, want: Want, list: seq<Entry>): State {
    if s.held.None? then Acquire(s, want, list)
    else if s.held.value.want == want then s.(phase := Capturing)
    else LetGo(s).(phase := Replacing(want))
  }

  function Step(s: State, e: Event): State {
    match e
    case Request(op) => s.(chain := s.chain + [op])
    case Begin(list) =>
      if s.phase != Idle || s.chain == [] then s
      else
        var t := s.(chain := s.chain[1..]);
        (match s.chain[0]
         case TakeSnapshot(want) => Ensure(t, want, list)
         case Release => LetGo(t).(phase := Releasing))
    case Replaced(list) => if s.phase.Replacing? then Acquire(s, s.phase.want, list) else s
    case AllocateAnswered(id) =>
      if !s.phase.Allocating? then s
      else (match id
        case None => s.(phase := Idle)
        case Some(id) =>
          s.(held := Some(Held(id, s.phase.want, true)), phase := Capturing, granted := s.granted + [id]))
    case OpDone => if s.phase.Capturing? || s.phase.Releasing? then s.(phase := Idle) else s
    case DeallocateNow => LetGo(s)
  }

  function Run(s: State, es: seq<Event>): State
    decreases es
  {
    if es == [] then s else Run(Step(s, es[0]), es[1..])
  }

  function Own(held: Option<Held>): multiset<StreamId> {
    if held.Some? && held.value.owned then multiset{held.value.id} else multiset{}
  }

  /** Every stream allocated was given back once or is the one held. */
  predicate Conserved(s: State) {
    multiset(s.granted) == multiset(s.returned) + Own(s.held)
  }

  /** Nothing is held while a stream is being replaced or allocated. */
  predicate Valid(s: State) {
    (s.phase.Replacing? || s.phase.Allocating? ==> s.held.None?) && Conserved(s)
  }

  lemma {:induction false} LetGoKeeps(s: State)
    requires Conserved(s)
    ensures Conserved(LetGo(s)) && LetGo(s).held.None? && LetGo(s).granted == s.granted
  {
  }

  lemma {:induction false} AcquireKeeps(s: State, want: Want, list: seq<Entry>)
    requires Conserved(s) && s.held.None?
    ensures Valid(Acquire(s, want, list))
  {
  }

  lemma {:induction false} BeginKeeps(s: State, list: seq<Entry>)
    requires Valid(s) && s.phase.Idle? && s.chain != []
    ensures Valid(Step(s, Begin(list)))
  {
    var t := s.(chain := s.chain[1..]);
    LetGoKeeps(t);
    match s.chain[0]
    case Release =>
    case TakeSnapshot(want) =>
      if t.held.None? {
        AcquireKeeps(t, want, list);
      }
  }

  lemma {:induction false} AllocateKeeps(s: State, id: StreamId)
    requires Valid(s) && s.phase.Allocating?
    ensures Valid(Step(s, AllocateAnswered(Some(id))))
  {
    assert multiset(s.granted + [id]) == multiset(s.granted) + multiset{id};
  }

  /** Each event keeps the streams accounted for; the phases in which a stream would be
      overwritten are never reached with one held. */
  lemma {:induction false} StepKeeps(s: State, e: Event)
    requires Valid(s)
    ensures Valid(Step(s, e))
  {
    match e
    case Request(op) =>
    case Begin(list) => if s.phase.Idle? && s.chain != [] { BeginKeeps(s, list); }
    case Replaced(list) => if s.phase.Replacing? { AcquireKeeps(s, s.phase.want, list); }
    case AllocateAnswered(id) => if s.phase.Allocating? && id.Some? { AllocateKeeps(s, id.value); }
    case OpDone =>
    case DeallocateNow => LetGoKeeps(s);
  }

  /** What a step gives back is the viewer's own stream; a reused one never. */
  lemma {:induction false} GivenBackIsOwn(s: State, e: Event)
    requires Valid(s)
    ensures Step(s, e).returned == s.returned
         || (s.held.Some? && s.held.value.owned && Step(s, e).returned == s.returned + [s.held.value.id]
             && Step(s, e).held != s.held)
  {
  }

  /** Over all runs, with deallocations at any point, each allocated stream was given back
      exactly once or is held, and there is at most one of those. */
  lemma {:induction false} StreamsConserved(s: State, es: seq<Event>)
    requires Valid(s)
    ensures Valid(Run(s, es))
    ensures var t := Run(s, es); |t.returned| <= |t.granted| <= |t.returned| + 1
    decreases es
  {
    if es == [] {
      assert |multiset(s.granted)| == |s.granted| && |multiset(s.returned)| == |s.returned|;
      assert |Own(s.held)| <= 1;
    } else {
      StepKeeps(s, es[0]);
      StreamsConserved(Step(s, es[0]), es[1..]);
    }
  }

  // ---- without the chain --------------------------------------------------------------------------

  /** Captures that run side by side on the same fields, each with its own phase. */
  datatype Unchained = Unchained(shared: State, captures: seq<Phase>)

  datatype UnchainedEvent =
    | Start(want: Want, list: seq<Entry>)
    | Resume(capture: nat, event: Event)         // what the capture waited for has come

  function UnchainedStep(u: Unchained, e: UnchainedEvent): Unchained {
    match e
    case Start(want, list) =>
      var t := Ensure(u.shared.(phase := Idle), want, list);
      Unchained(t, u.captures + [t.phase])
    case Resume(k, event) =>
      if k >= |u.captures| then u
      else
        var t := Step(u.shared.(phase := u.captures[k]), event);
        Unchained(t, u.captures[k := t.phase])
  }

  function UnchainedRun(u: Unchained, es: seq<UnchainedEvent>): Unchained
    decreases es
  {
    if es == [] then u else UnchainedRun(UnchainedStep(u, es[0]), es[1..])
  }

  const ALONE: Unchained := Unchained(INITIAL, [])

  /** Two captures start, and both of them are granted a stream. */
  function TwoCaptures(want: Want, a: StreamId, b: StreamId): seq<UnchainedEvent> {
    [Start(want, []), Start(want, []), Resume(0, AllocateAnswered(Some(a))), Resume(1, AllocateAnswered(Some(b)))]
  }

  lemma {:induction false} UnchainedCons(u: Unchained, e: UnchainedEvent, es: seq<UnchainedEvent>)
    ensures UnchainedRun(u, [e] + es) == UnchainedRun(UnchainedStep(u, e), es)
  {
    assert ([e] + es)[1..] == es;
  }

  /** The states on the way. */
  function Started(want: Want): State {
    INITIAL.(phase := Allocating(want))
  }

  function FirstGranted(want: Want, a: StreamId): Unchained {
    Unchained(State(Some(Held(a, want, true)), [], Capturing, [a], []), [Capturing, Allocating(want)])
  }

  lemma {:induction false} TwoStart(want: Want)
    ensures UnchainedStep(ALONE, Start(want, [])) == Unchained(Started(want), [Allocating(want)])
    ensures UnchainedStep(Unchained(Started(want), [Allocating(want)]), Start(want, []))
         == Unchained(Started(want), [Allocating(want), Allocating(want)])
  {
  }

  lemma {:induction false} FirstAnswered(want: Want, a: StreamId)
    ensures UnchainedStep(Unchained(Started(want), [Allocating(want), Allocating(want)]),
                          Resume(0, AllocateAnswered(Some(a))))
         == FirstGranted(want, a)
  {
  }

  lemma {:induction false} SecondAnswered(want: Want, a: StreamId, b: StreamId)
    ensures UnchainedStep(FirstGranted(want, a), Resume(1, AllocateAnswered(Some(b)))).shared
         == State(Some(Held(b, want, true)), [], Capturing, [a, b], [])
  {
    assert [a] + [b] == [a, b];
  }

  lemma {:induction false} FourSteps(u: Unchained, a: UnchainedEvent, b: UnchainedEvent, c: UnchainedEvent, d: UnchainedEvent)
    ensures UnchainedRun(u, [a, b, c, d])
         == UnchainedStep(UnchainedStep(UnchainedStep(UnchainedStep(u, a), b), c), d)
  {
    UnchainedCons(u, a, [b, c, d]);
    UnchainedCons(UnchainedStep(u, a), b, [c, d]);
    var v := UnchainedStep(UnchainedStep(u, a), b);
    UnchainedCons(v, c, [d]);
    UnchainedCons(UnchainedStep(v, c), d, []);
    assert [a] + [b, c, d] == [a, b, c, d] && [b] + [c, d] == [b, c, d] && [c] + [d] == [c, d] && [d] + [] == [d];
  }

  lemma {:induction false} TwoCapturesEnd(want: Want, a: StreamId, b: StreamId)
    ensures UnchainedRun(ALONE, TwoCaptures(want, a, b)).shared
         == State(Some(Held(b, want, true)), [], Capturing, [a, b], [])
  {
    FourSteps(ALONE, Start(want, []), Start(want, []), Resume(0, AllocateAnswered(Some(a))),
              Resume(1, AllocateAnswered(Some(b))));
    TwoStart(want);
    FirstAnswered(want, a);
    SecondAnswered(want, a, b);
  }

  /** Two streams were granted and only the second can be given back. */
  lemma {:induction false} OneIsLost(s: State, want: Want, a: StreamId, b: StreamId)
    requires s == State(Some(Held(b, want, true)), [], Capturing, [a, b], [])
    ensures !Conserved(s) && !Conserved(LetGo(s))
  {
    assert |multiset(s.granted)| == 2;
    assert |multiset(s.returned) + Own(s.held)| == 1;
    assert LetGo(s).returned == [b];
    assert |multiset(LetGo(s).returned) + Own(None)| == 1;
  }

  /** From the initial state, the second answer overwrites the first hold, which is never given
      back: not even when the viewer lets go. */
  lemma {:induction false} UnserializedLeaks(want: Want, a: StreamId, b: StreamId)
    ensures Conserved(ALONE.shared)
    ensures var s := UnchainedRun(ALONE, TwoCaptures(want, a, b)).shared; !Conserved(s) && !Conserved(LetGo(s))
  {
    TwoCapturesEnd(want, a, b);
    OneIsLost(UnchainedRun(ALONE, TwoCaptures(want, a, b)).shared, want, a, b);
  }

  /** The viewer's fields. */
  class SnapshotHolder {
    var held: Option<Held>
    var chain: seq<Op>
    var phase: Phase
    var granted: seq<StreamId>
    var returned: seq<StreamId>

    ghost function Now(): State
      reads this
    {
      State(held, chain, phase, granted, returned)
    }

    constructor ()
      ensures Now() == INITIAL && Valid(Now())
    {
      held, chain, phase, granted, returned := None, [], Idle, [], [];
    }

    method RunSerialized(op: Op)
      requires Valid(Now())
      modifies this
      ensures Now() == Step(old(Now()), Request(op)) && Valid(Now())
    {
      chain := chain + [op];
    }

    /** May be called at any point, inside or outside the chain. */
    method DeallocateSnapshot()
      requires Conserved(Now())
      modifies this
      ensures Now() == LetGo(old(Now())) && Conserved(Now())
    {
      LetGoKeeps(Now());
      if held.None? {
        return;
      }
      var id, wasOwned := held.value.id, held.value.owned;
      held := None;
      if !wasOwned {
        return;
      }
      returned := returned + [id];
    }

    method AcquireStream(want: Want, list: seq<Entry>)
      requires held.None? && Conserved(Now())
      modifies this
      ensures Now() == Acquire(old(Now()), want, list) && Valid(Now())
    {
      var reused := FindMatchingSnapshotStream(list, want);
      if reused.Some? {
        held := Some(Held(reused.value, want, false));
        phase := Capturing;
      } else {
        phase := Allocating(want);
      }
    }

    method BeginNext(list: seq<Entry>)
      requires Valid(Now())
      modifies this
      ensures Now() == Step(old(Now()), Begin(list)) && Valid(Now())
    {
      if phase != Idle || chain == [] {
        return;
      }
      var op := chain[0];
      chain := chain[1..];
      match op
      case Release =>
        DeallocateSnapshot();
        phase := Releasing;
      case TakeSnapshot(want) =>
        if held.Some? {
          if held.value.want == want {
            phase := Capturing;
          } else {
            DeallocateSnapshot();
            phase := Replacing(want);
          }
        } else {
          AcquireStream(want, list);
        }
    }

    method OnReplaced(list: seq<Entry>)
      requires Valid(Now())
      modifies this
      ensures Now() == Step(old(Now()), Replaced(list)) && Valid(Now())
    {
      if phase.Replacing? {
        AcquireStream(phase.want, list);
      }
    }

    method OnAllocateAnswered(id: Option<StreamId>)
      requires Valid(Now())
      modifies this
      ensures Now() == Step(old(Now()), AllocateAnswered(id)) && Valid(Now())
    {
      StepKeeps(Now(), AllocateAnswered(id));
      if !phase.Allocating? {
        return;
      }
      if id.None? {
        phase := Idle;
        return;
      }
      held := Some(Held(id.value, phase.want, true));
      phase := Capturing;
      granted := granted + [id.value];
    }

    method OnOpDone()
      requires Valid(Now())
      modifies this
      ensures Now() == Step(old(Now()), OpDone) && Valid(Now())
    {
      if phase.Capturing? || phase.Releasing? {
        phase := Idle;
      }
    }
  }
}
