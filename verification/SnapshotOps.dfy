/** The operations of the snapshot chain from beginning to end: which stream a capture uses, and in
    which order operations run. */
module SnapshotOps {
  import opened Wrappers
  import opened SnapshotStream

  /** What an entry must be to be reused. */
  lemma {:induction false} CoversWhen(e: Entry, want: Want)
    ensures Covers(e, want) <==>
      && e.imageCodec == Some(want.imageCodec) && e.least.Some? && e.most.Some?
      && e.least.value.width <= want.resolution.width <= e.most.value.width
      && e.least.value.height <= want.resolution.height <= e.most.value.height
      && (want.watermark.None? || e.watermark == want.watermark)
      && (want.osd.None? || e.osd == want.osd)
  {
  }

  // ---- the stream that is captured ----------------------------------------------------------------

  /** The parameters that the operation in progress, or the one that begins, asks for. */
  function Wanted(s: State, e: Event): Option<Want> {
    if s.phase.Replacing? || s.phase.Allocating? then Some(s.phase.want)
    else if e.Begin? && s.chain != [] && s.chain[0].TakeSnapshot? then Some(s.chain[0].want)
    else None
  }

  /** A capture starts only with a held stream for the very parameters that were asked for. */
  lemma {:induction false} CapturesTheWanted(s: State, e: Event)
    requires Valid(s) && !s.phase.Capturing? && Step(s, e).phase.Capturing?
    ensures Step(s, e).held.Some? && Wanted(s, e) == Some(Step(s, e).held.value.want)
  {
  }

  /** Its capture goes on with the stream unless a deallocation takes it. */
  lemma {:induction false} CaptureKeepsStream(s: State, e: Event)
    requires Valid(s) && s.phase.Capturing? && !e.DeallocateNow?
    ensures Step(s, e).held == s.held && Step(s, e).granted == s.granted && Step(s, e).returned == s.returned
    ensures Step(s, e).phase == if e.OpDone? then Idle else Capturing
  {
  }

  /** A stream of the viewer's own, to be given back. */
  function OwnId(held: Option<Held>): seq<StreamId> {
    if held.Some? && held.value.owned then [held.value.id] else []
  }

  lemma {:induction false} RunFour(s: State, a: Event, b: Event, c: Event, d: Event)
    ensures Run(s, [a, b, c, d]) == Step(Step(Step(Step(s, a), b), c), d)
  {
    assert [a, b, c, d][1..] == [b, c, d] && [b, c, d][1..] == [c, d] && [c, d][1..] == [d] && [d][1..] == [];
    var t := Step(Step(s, a), b);
    assert Run(t, [c, d]) == Run(Step(t, c), [d]);
    assert Run(s, [a, b, c, d]) == Run(t, [c, d]);
  }

  /** A capture from its begin to its end: a stream with the wanted parameters is kept; any other
      is let go, and then a listed one is reused or a new one is the viewer's own. */
  lemma {:induction false} CaptureCompletes(s: State, want: Want, list: seq<Entry>, later: seq<Entry>, id: StreamId)
    requires Valid(s) && s.phase.Idle? && s.chain != [] && s.chain[0] == TakeSnapshot(want)
    ensures var t := Run(s, [Begin(list), Replaced(later), AllocateAnswered(Some(id)), OpDone]);
      var match' := FindMatching(if s.held.None? then list else later, want);
      && t.phase.Idle? && t.chain == s.chain[1..]
      && if s.held.Some? && s.held.value.want == want then
           t.held == s.held && t.granted == s.granted && t.returned == s.returned
         else
           && t.returned == s.returned + OwnId(s.held)
           && if match'.Some? then
                t.held == Some(Held(match'.value, want, false)) && t.granted == s.granted
              else
                t.held == Some(Held(id, want, true)) && t.granted == s.granted + [id]
  {
    RunFour(s, Begin(list), Replaced(later), AllocateAnswered(Some(id)), OpDone);
    assert s.returned + [] == s.returned;
  }

  /** Where the camera grants none, the operation ends without a stream. */
  lemma {:induction false} CaptureFails(s: State, want: Want, list: seq<Entry>, later: seq<Entry>)
    requires Valid(s) && s.phase.Idle? && s.chain != [] && s.chain[0] == TakeSnapshot(want)
    requires !(s.held.Some? && s.held.value.want == want)
    requires FindMatching(if s.held.None? then list else later, want).None?
    ensures var t := Run(s, [Begin(list), Replaced(later), AllocateAnswered(None), OpDone]);
      && t.phase.Idle? && t.chain == s.chain[1..] && t.held.None?
      && t.granted == s.granted && t.returned == s.returned + OwnId(s.held)
  {
    RunFour(s, Begin(list), Replaced(later), AllocateAnswered(None), OpDone);
    assert s.returned + [] == s.returned;
  }

  /** A release lets go of the stream, and gives it back if it is the viewer's own. */
  lemma {:induction false} ReleaseCompletes(s: State, list: seq<Entry>)
    requires Valid(s) && s.phase.Idle? && s.chain != [] && s.chain[0] == Release
    ensures var t := Run(s, [Begin(list), OpDone]);
      && t.phase.Idle? && t.chain == s.chain[1..] && t.held.None?
      && t.granted == s.granted && t.returned == s.returned + OwnId(s.held)
  {
    assert [Begin(list), OpDone][1..] == [OpDone] && [OpDone][1..] == [];
    assert s.returned + [] == s.returned;
  }

  /** A deallocation at any time does the same. */
  lemma {:induction false} DeallocationLetsGo(s: State)
    ensures var t := Step(s, DeallocateNow);
      && t.held.None? && t.returned == s.returned + OwnId(s.held)
      && t.granted == s.granted && t.chain == s.chain && t.phase == s.phase
  {
    assert s.returned + [] == s.returned;
  }

  // ---- the order of operations --------------------------------------------------------------------

  function Requested(es: seq<Event>): seq<Op> {
    if es == [] then [] else (if es[0].Request? then [es[0].op] else []) + Requested(es[1..])
  }

  /** The operations that begin in the run, each while no other is in progress. */
  function Begun(s: State, es: seq<Event>): seq<Op>
    decreases es
  {
    if es == [] then []
    else
      (if es[0].Begin? && s.phase.Idle? && s.chain != [] then [s.chain[0]] else [])
      + Begun(Step(s, es[0]), es[1..])
  }

  /** Operations begin in the order of their requests, one after the other, and none is lost. */
  lemma {:induction false} InRequestOrder(s: State, es: seq<Event>)
    ensures Begun(s, es) + Run(s, es).chain == s.chain + Requested(es)
    decreases es
  {
    if es != [] {
      var t := Step(s, es[0]);
      InRequestOrder(t, es[1..]);
      OneBegins(s, es[0]);
      var first := Begun(s, [es[0]]);
      assert [es[0]][1..] == [];
      assert Begun(s, es) == first + Begun(t, es[1..]);
      assert Begun(s, es) + Run(s, es).chain == first + (Begun(t, es[1..]) + Run(s, es).chain);
      assert first + t.chain + Requested(es[1..]) == first + (t.chain + Requested(es[1..]));
    }
  }

  lemma {:induction false} OneBegins(s: State, e: Event)
    ensures Begun(s, [e]) + Step(s, e).chain == s.chain + (if e.Request? then [e.op] else [])
  {
    assert [e][1..] == [];
  }
}
