/** A rotation does rotate: from one timer to the next, the log becomes the first backup, and what
    is written meanwhile becomes the new log. */
module RotationCycle {
  import opened Wrappers
  import opened LogRotation

  // ---- between the completions --------------------------------------------------------------------

  /** Writes, and streams that put lines into their files. */
  predicate Quiet(e: Event) {
    e.Write? || e.FlushWriter? || e.FlushOld?
  }

  predicate AllQuiet(es: seq<Event>) {
    forall i | 0 <= i < |es| :: Quiet(es[i])
  }

  function LinesOf(es: seq<Event>): seq<Line> {
    if es == [] then [] else (if es[0].Write? then [es[0].line] else []) + LinesOf(es[1..])
  }

  /** The log that new lines go to, with the lines on their way. */
  function Current(s: State): seq<Line> {
    match s.stage
    case DrainingOld => Content(s.files, Temp) + s.writer.buffer
    case DrainingTemp => Content(s.files, Temp) + s.writer.buffer + Pending(s)
    case OpeningFinal => Content(s.files, Active) + Pending(s)
    case _ => Content(s.files, Active) + s.writer.buffer
  }

  function Pending(s: State): seq<Line> {
    if s.pendingLines.Some? then s.pendingLines.value else []
  }

  /** The log that is being drained. */
  function Draining(s: State): seq<Line> {
    if s.stage.DrainingOld? && s.oldStream.Some? then Content(s.files, Active) + s.oldStream.value.buffer else []
  }

  /** No backup differs. */
  ghost predicate SameBackups(s: State, t: State) {
    t.dropped == s.dropped && forall k: nat :: Content(t.files, Backup(k)) == Content(s.files, Backup(k))
  }

  /** t is s with the lines added to the current log. */
  ghost predicate Grew(s: State, t: State, lines: seq<Line>) {
    && Valid(t) && t.stage == s.stage && SameBackups(s, t) && Draining(t) == Draining(s)
    && Current(t) == Current(s) + lines
  }

  lemma {:induction false} GrewTwice(s: State, t: State, u: State, a: seq<Line>, b: seq<Line>)
    requires Grew(s, t, a) && Grew(t, u, b)
    ensures Grew(s, u, a + b)
  {
    assert Current(s) + a + b == Current(s) + (a + b);
  }

  /** Before the last completion, lines are added to the current log and to nothing else. */
  lemma {:induction false} QuietStep(s: State, e: Event, last: nat)
    requires Valid(s) && !s.stage.Closed? && last > 0 && Quiet(e)
    ensures Grew(s, Step(s, e, last), LinesOf([e]))
  {
    assert [e][1..] == [];
    match e
    case Write(line) =>
      WriteKeeps(s, line, last);
      WriteAdds(s, line);
    case FlushWriter(n) =>
      FlushWriterKeeps(s, n, last);
      FlushMoves(s, n, last);
      assert Current(s) + [] == Current(s);
    case FlushOld(n) =>
      FlushOldKeeps(s, n, last);
      FlushOldMoves(s, n, last);
      assert Current(s) + [] == Current(s);
  }

  lemma {:induction false} WriteAdds(s: State, line: Line)
    requires Valid(s) && !s.stage.Closed?
    ensures var t := Written(s, line);
      && t.stage == s.stage && SameBackups(s, t) && Draining(t) == Draining(s)
      && Current(t) == Current(s) + [line]
  {
  }

  /** A stream moved lines into its file: what the two hold together is unchanged. */
  ghost predicate MovedLines(before: Files, from: Stream, after: Files, to: Stream) {
    && to.path == from.path && Content(after, to.path) + to.buffer == Content(before, from.path) + from.buffer
    && (from.buffer == [] ==> to.buffer == [])
    && forall p | p != from.path :: Content(after, p) == Content(before, p)
  }

  lemma {:induction false} FlushMovesLines(files: Files, from: Stream, n: nat)
    ensures var (after, to) := FlushStream(files, from, n); MovedLines(files, from, after, to)
  {
    FlushKeeps(files, from, n);
  }

  lemma {:induction false} WriterMoved(s: State, files: Files, writer: Stream)
    requires Valid(s) && !s.stage.Closed? && MovedLines(s.files, s.writer, files, writer)
    ensures var t := s.(files := files, writer := writer);
      SameBackups(s, t) && Current(t) == Current(s) && Draining(t) == Draining(s)
  {
    assert s.writer.path == Active || s.writer.path == Temp;
  }

  lemma {:induction false} FlushMoves(s: State, n: nat, last: nat)
    requires Valid(s) && !s.stage.Closed? && last > 0
    ensures var t := Step(s, FlushWriter(n), last);
      t.stage == s.stage && SameBackups(s, t) && Current(t) == Current(s) && Draining(t) == Draining(s)
  {
    var (files, writer) := FlushStream(s.files, s.writer, n);
    FlushMovesLines(s.files, s.writer, n);
    WriterMoved(s, files, writer);
  }

  lemma {:induction false} OldMoved(s: State, files: Files, draining: Stream)
    requires Valid(s) && s.oldStream.Some? && MovedLines(s.files, s.oldStream.value, files, draining)
    ensures var t := s.(files := files, oldStream := Some(draining));
      SameBackups(s, t) && Current(t) == Current(s) && Draining(t) == Draining(s)
  {
    assert s.stage.DrainingOld? && s.oldStream.value.path == Active;
  }

  lemma {:induction false} FlushOldMoves(s: State, n: nat, last: nat)
    requires Valid(s) && !s.stage.Closed? && last > 0
    ensures var t := Step(s, FlushOld(n), last);
      t.stage == s.stage && SameBackups(s, t) && Current(t) == Current(s) && Draining(t) == Draining(s)
  {
    if s.oldStream.Some? {
      var (files, draining) := FlushStream(s.files, s.oldStream.value, n);
      FlushMovesLines(s.files, s.oldStream.value, n);
      OldMoved(s, files, draining);
    }
  }

  lemma {:induction false} QuietRun(s: State, es: seq<Event>, last: nat)
    requires Valid(s) && !s.stage.Closed? && last > 0 && AllQuiet(es)
    ensures Grew(s, Run(s, es, last), LinesOf(es))
    decreases es
  {
    if es == [] {
      assert Current(s) + [] == Current(s);
    } else {
      var t := Step(s, es[0], last);
      QuietStep(s, es[0], last);
      QuietRun(t, es[1..], last);
      GrewTwice(s, t, Run(t, es[1..], last), LinesOf([es[0]]), LinesOf(es[1..]));
      assert [es[0]][1..] == [];
      assert LinesOf(es) == LinesOf([es[0]]) + LinesOf(es[1..]);
    }
  }

  /** The stream gives its file the first lines of its buffer, as many as asked for. */
  lemma {:induction false} FlushReaches(s: State, count: nat, last: nat)
    requires Valid(s) && last > 0
    ensures var n := if count <= |s.writer.buffer| then count else |s.writer.buffer|;
      var t := Step(s, FlushWriter(count), last);
      Content(t.files, s.writer.path) == Content(s.files, s.writer.path) + s.writer.buffer[..n]
      && t.writer.buffer == s.writer.buffer[n..]
  {
  }

  lemma {:induction false} FlushOldReaches(s: State, count: nat, last: nat)
    requires Valid(s) && last > 0 && s.oldStream.Some?
    ensures var old' := s.oldStream.value;
      var n := if count <= |old'.buffer| then count else |old'.buffer|;
      var t := Step(s, FlushOld(count), last);
      && Content(t.files, old'.path) == Content(s.files, old'.path) + old'.buffer[..n]
      && t.oldStream.Some? && t.oldStream.value.buffer == old'.buffer[n..]
  {
  }

  // ---- the completions ----------------------------------------------------------------------------

  /** Only the first timer starts a rotation; a temporary file that cannot be opened ends it, and
      nothing else has changed. */
  lemma {:induction false} TimerAndFailure(s: State, last: nat)
    requires last > 0
    ensures Step(s, RotateTimer, last) == if s.stage.Idle? then s.(stage := OpeningTemp) else s
    ensures s.stage.Idle? ==> Step(Step(s, RotateTimer, last), TempFailed, last) == s
  {
  }

  lemma {:induction false} TempOpens(s: State, last: nat)
    requires Valid(s) && s.stage.OpeningTemp? && last > 0
    ensures var t := Step(s, TempOpened, last);
      && Valid(t) && t.stage.DrainingOld? && SameBackups(s, t) && Draining(t) == Current(s) && Current(t) == []
  {
    SwapKeeps(s, last);
  }

  /** Shifting, backup by backup. */
  ghost predicate Moved(before: Files, after: Files, last: nat) {
    && Content(after, Backup(1)) == Content(before, Active)
    && (forall k | 1 <= k < last :: Content(after, Backup(k + 1)) == Content(before, Backup(k)))
    && Active !in after && Content(after, Temp) == Content(before, Temp)
  }

  lemma {:induction false} ShiftMoves(files: Files, last: nat)
    requires last > 0
    ensures Moved(files, Shifted(files, last), last)
  {
    var after := Shifted(files, last);
    ShiftedContent(files, last, 1);
    forall k | 1 <= k < last ensures Content(after, Backup(k + 1)) == Content(files, Backup(k)) {
      ShiftedContent(files, last, k + 1);
    }
  }

  /** The drained log is the first backup; every other one has moved up; the last is dropped. */
  lemma {:induction false} OldDrains(s: State, last: nat)
    requires Valid(s) && s.stage.DrainingOld? && last > 0
    ensures var t := Step(s, OldDrained, last);
      && Valid(t) && t.stage.DrainingTemp? && Current(t) == Current(s)
      && Content(t.files, Backup(1)) == Draining(s)
      && (forall k | 1 <= k < last :: Content(t.files, Backup(k + 1)) == Content(s.files, Backup(k)))
      && t.dropped == s.dropped + [Content(s.files, Backup(last))]
  {
    DrainKeeps(s, last);
    var draining := s.oldStream.value;
    var files := Append(s.files, draining.path, draining.buffer);
    ShiftMoves(files, last);
    assert forall k: nat :: Content(files, Backup(k)) == Content(s.files, Backup(k));
    assert Content(files, Backup(last)) == Content(s.files, Backup(last));
    assert Current(s) + [] == Current(s);
  }

  lemma {:induction false} TempDrains(s: State, last: nat)
    requires Valid(s) && s.stage.DrainingTemp? && last > 0
    ensures var t := Step(s, TempDrained, last);
      Valid(t) && t.stage.OpeningFinal? && SameBackups(s, t) && Current(t) == Current(s)
  {
    RenameKeeps(s, last);
  }

  lemma {:induction false} FinalOpens(s: State, last: nat)
    requires Valid(s) && s.stage.OpeningFinal? && last > 0
    ensures var t := Step(s, FinalOpened, last);
      Valid(t) && t.stage.Idle? && SameBackups(s, t) && Current(t) == Current(s)
  {
    ReopenKeeps(s, last);
    assert Content(s.files, Active) + [] == Content(s.files, Active);
  }

  // ---- a whole rotation ---------------------------------------------------------------------------

  lemma {:induction false} RunJoin(s: State, a: seq<Event>, b: seq<Event>, last: nat)
    requires last > 0
    ensures Run(s, a + b, last) == Run(Run(s, a, last), b, last)
    decreases a
  {
    if a == [] {
      assert a + b == b;
    } else {
      assert (a + b)[1..] == a[1..] + b;
      RunJoin(Step(s, a[0], last), a[1..], b, last);
    }
  }

  /** Something happens, and then all is quiet. */
  lemma {:induction false} ThenQuiet(s: State, e: Event, es: seq<Event>, last: nat)
    requires last > 0 && AllQuiet(es) && Valid(Step(s, e, last)) && !Step(s, e, last).stage.Closed?
    ensures Grew(Step(s, e, last), Run(s, [e] + es, last), LinesOf(es))
  {
    assert ([e] + es)[1..] == es;
    QuietRun(Step(s, e, last), es, last);
  }

  /** The timer and the completions of one rotation, with anything written in between. */
  function Rotation(a: seq<Event>, b: seq<Event>, c: seq<Event>, d: seq<Event>): seq<Event> {
    ([RotateTimer] + a) + (([TempOpened] + b) + (([OldDrained] + c) + (([TempDrained] + d) + [FinalOpened])))
  }

  /** The states at the end of the first, of the first two, three and four parts. */
  function After1(s: State, a: seq<Event>, last: nat): State
    requires last > 0
  {
    Run(s, [RotateTimer] + a, last)
  }

  function After2(s: State, a: seq<Event>, b: seq<Event>, last: nat): State
    requires last > 0
  {
    Run(After1(s, a, last), [TempOpened] + b, last)
  }

  function After3(s: State, a: seq<Event>, b: seq<Event>, c: seq<Event>, last: nat): State
    requires last > 0
  {
    Run(After2(s, a, b, last), [OldDrained] + c, last)
  }

  function After4(s: State, a: seq<Event>, b: seq<Event>, c: seq<Event>, d: seq<Event>, last: nat): State
    requires last > 0
  {
    Run(After3(s, a, b, c, last), [TempDrained] + d, last)
  }

  lemma {:induction false} RotationParts(s: State, a: seq<Event>, b: seq<Event>, c: seq<Event>, d: seq<Event>, last: nat)
    requires last > 0
    ensures Run(s, Rotation(a, b, c, d), last) == Step(After4(s, a, b, c, d, last), FinalOpened, last)
  {
    var part4 := ([TempDrained] + d) + [FinalOpened];
    var part3 := ([OldDrained] + c) + part4;
    var part2 := ([TempOpened] + b) + part3;
    RunJoin(s, [RotateTimer] + a, part2, last);
    RunJoin(After1(s, a, last), [TempOpened] + b, part3, last);
    RunJoin(After2(s, a, b, last), [OldDrained] + c, part4, last);
    RunJoin(After3(s, a, b, c, last), [TempDrained] + d, [FinalOpened], last);
    assert [FinalOpened][1..] == [];
  }

  /** Up to the opening of the temporary file the log grows; then it is drained and a new one begins. */
  lemma {:induction false} FirstHalf(s: State, a: seq<Event>, b: seq<Event>, last: nat)
    requires Valid(s) && s.stage.Idle? && last > 0 && AllQuiet(a) && AllQuiet(b)
    ensures var t := After2(s, a, b, last);
      && Valid(t) && t.stage.DrainingOld? && SameBackups(s, t)
      && Draining(t) == Current(s) + LinesOf(a) && Current(t) == LinesOf(b)
  {
    StepKeeps(s, RotateTimer, last);
    ThenQuiet(s, RotateTimer, a, last);
    var s1 := After1(s, a, last);
    TempOpens(s1, last);
    ThenQuiet(s1, TempOpened, b, last);
    assert [] + LinesOf(b) == LinesOf(b);
  }

  lemma {:induction false} SecondHalf(s: State, c: seq<Event>, last: nat)
    requires Valid(s) && s.stage.DrainingOld? && last > 0 && AllQuiet(c)
    ensures var t := Run(s, [OldDrained] + c, last);
      && Valid(t) && t.stage.DrainingTemp? && Content(t.files, Backup(1)) == Draining(s)
      && (forall k | 1 <= k < last :: Content(t.files, Backup(k + 1)) == Content(s.files, Backup(k)))
      && t.dropped == s.dropped + [Content(s.files, Backup(last))] && Current(t) == Current(s) + LinesOf(c)
  {
    OldDrains(s, last);
    ThenQuiet(s, OldDrained, c, last);
  }

  lemma {:induction false} LastPart(s: State, d: seq<Event>, last: nat)
    requires Valid(s) && s.stage.DrainingTemp? && last > 0 && AllQuiet(d)
    ensures var t := Step(Run(s, [TempDrained] + d, last), FinalOpened, last);
      && Valid(t) && t.stage.Idle? && SameBackups(s, t)
      && Content(t.files, Active) + t.writer.buffer == Current(s) + LinesOf(d)
  {
    TempDrains(s, last);
    ThenQuiet(s, TempDrained, d, last);
    FinalOpens(Run(s, [TempDrained] + d, last), last);
  }

  /** Every rotation whose files can be opened completes: the log with what was written before the
      temporary file opened is backup 1, the backups have moved up, and what was written after that
      is the whole new log. */
  lemma {:induction false} RotationCompletes(s: State, a: seq<Event>, b: seq<Event>, c: seq<Event>, d: seq<Event>, last: nat)
    requires Valid(s) && s.stage.Idle? && last > 0
    requires AllQuiet(a) && AllQuiet(b) && AllQuiet(c) && AllQuiet(d)
    ensures var t := Run(s, Rotation(a, b, c, d), last);
      && Valid(t) && t.stage.Idle?
      && Content(t.files, Backup(1)) == Content(s.files, Active) + s.writer.buffer + LinesOf(a)
      && (forall k | 1 <= k < last :: Content(t.files, Backup(k + 1)) == Content(s.files, Backup(k)))
      && t.dropped == s.dropped + [Content(s.files, Backup(last))]
      && Content(t.files, Active) + t.writer.buffer == LinesOf(b) + LinesOf(c) + LinesOf(d)
  {
    RotationParts(s, a, b, c, d, last);
    FirstHalf(s, a, b, last);
    SecondHalf(After2(s, a, b, last), c, last);
    LastPart(After3(s, a, b, c, last), d, last);
  }

  // ---- startup ------------------------------------------------------------------------------------

  /** Startup rotates too: the log of the last run is the first backup, the backups have moved up,
      there is no temporary file, and the new log is empty. */
  lemma {:induction false} StartRotates(files: Files, last: nat)
    requires last > 0
    ensures var s := Start(files, last);
      && s.stage.Idle? && Temp !in s.files && Active in s.files && Current(s) == []
      && Content(s.files, Backup(1)) == Content(files, Active)
      && (forall k | 1 <= k < last :: Content(s.files, Backup(k + 1)) == Content(files, Backup(k)))
      && s.dropped == [Content(files, Backup(last))]
  {
    var kept := files - {Temp};
    ShiftMoves(kept, last);
    assert forall k: nat :: Content(kept, Backup(k)) == Content(files, Backup(k));
    StartFilesAre(kept, Shifted(kept, last), last);
  }

  lemma {:induction false} StartFilesAre(kept: Files, shifted: Files, last: nat)
    requires last > 0 && shifted == Shifted(kept, last) && Temp !in kept
    ensures Temp !in Append(shifted, Active, [])
  {
  }
}
