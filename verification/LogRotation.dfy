/** Rotation of the log file while lines keep arriving. The asynchronous parts of the
    rotation are events that may come at any moment between writes. */
module LogRotation {
  import opened Wrappers

  type Line = string

  /** The log file, the temporary file beside it, and the numbered backups. */
  datatype Path = Active | Temp | Backup(number: nat)

  type Files = map<Path, seq<Line>>

  /** An append stream: what it was given and has not yet put into its file. */
  datatype Stream = Stream(path: Path, buffer: seq<Line>, ended: bool)

  /** Where doRotate waits. */
  datatype Stage = Idle | OpeningTemp | DrainingOld | DrainingTemp | OpeningFinal | Closed

  /** dropped: the backups pushed past the last one, whole, oldest first. */
  datatype State = State(
    files: Files,
    writer: Stream,
    oldStream: Option<Stream>,
    pendingLines: Option<seq<Line>>,
    stage: Stage,
    dropped: seq<seq<Line>>)

  datatype Event =
    | Write(line: Line)
    | FlushWriter(count: nat)     // the stream puts some of its lines into its file
    | FlushOld(count: nat)
    | RotateTimer
    | TempOpened
    | TempFailed
    | OldDrained
    | TempDrained
    | FinalOpened
    | CloseDrained                // close() waits for the rotation, then ends the writer

  // ---- files ----------------------------------------------------------------------------------

  function Content(files: Files, path: Path): seq<Line> {
    if path in files then files[path] else []
  }

  /** Backups k, k-1, ..., 1: oldest first. */
  function BackupLines(files: Files, k: nat): seq<Line> {
    if k == 0 then [] else Content(files, Backup(k)) + BackupLines(files, k - 1)
  }

  function Flatten(parts: seq<seq<Line>>): seq<Line> {
    if parts == [] then [] else Flatten(parts[..|parts| - 1]) + parts[|parts| - 1]
  }

  /** Where shifting the backups leaves a file; None: deleted. */
  function Target(path: Path, last: nat): Option<Path> {
    match path
    case Active => Some(Backup(1))
    case Temp => Some(Temp)
    case Backup(k) => if 1 <= k < last then Some(Backup(k + 1)) else if k == last then None else Some(path)
  }

  /** All files moved at once, each to its own target. */
  function Shifted(files: Files, last: nat): (r: Files)
    requires last > 0
    ensures forall p | p in files && Target(p, last).Some? :: Target(p, last).value in r && r[Target(p, last).value] == files[p]
  {
    map p | p in files && Target(p, last).Some? :: Target(p, last).value := files[p]
  }

  function Append(files: Files, path: Path, lines: seq<Line>): Files {
    files[path := Content(files, path) + lines]
  }

  function Min(a: nat, b: nat): nat {
    if a < b then a else b
  }

  /** The first lines of the buffer reach the file. */
  function FlushStream(files: Files, s: Stream, count: nat): (r: (Files, Stream)) {
    var n := Min(count, |s.buffer|);
    (Append(files, s.path, s.buffer[..n]), s.(buffer := s.buffer[n..]))
  }

  // ---- steps ----------------------------------------------------------------------------------

  /** Startup: a stale temporary file is deleted, the backups are shifted, the file is opened. */
  function Start(files: Files, last: nat): State
    requires last > 0
  {
    var kept := Shifted(files - {Temp}, last);
    State(Append(kept, Active, []), Stream(Active, [], false), None, None, Idle, [Content(files, Backup(last))])
  }

  function Written(s: State, line: Line): State {
    if s.pendingLines.Some? then s.(pendingLines := Some(s.pendingLines.value + [line]))
    else if !s.writer.ended then s.(writer := s.writer.(buffer := s.writer.buffer + [line]))
    else s
  }

  function Swapped(s: State): State {
    s.(files := s.files[Temp := []],
       oldStream := Some(s.writer.(ended := true)),
       writer := Stream(Temp, [], false),
       stage := DrainingOld)
  }

  function ShiftedAway(s: State, last: nat): State
    requires last > 0 && s.oldStream.Some?
  {
    var draining := s.oldStream.value;
    var files := Append(s.files, draining.path, draining.buffer);
    s.(files := Shifted(files, last),
       dropped := s.dropped + [Content(files, Backup(last))],
       oldStream := None,
       pendingLines := Some([]),
       writer := s.writer.(ended := true),
       stage := DrainingTemp)
  }

  function Renamed(s: State): State {
    var files := Append(s.files, s.writer.path, s.writer.buffer);
    s.(files := files[Active := files[s.writer.path]] - {Temp},
       writer := s.writer.(buffer := []),
       stage := OpeningFinal)
  }

  function Reopened(s: State): State {
    s.(files := Append(s.files, Active, []),
       writer := Stream(Active, if s.pendingLines.Some? then s.pendingLines.value else [], false),
       pendingLines := None,
       stage := Idle)
  }

  function Ended(s: State): State {
    s.(files := Append(s.files, s.writer.path, s.writer.buffer),
       writer := s.writer.(buffer := [], ended := true),
       stage := Closed)
  }

  /** One event; one that cannot come in the present stage changes nothing. */
  function Step(s: State, e: Event, last: nat): State
    requires last > 0
  {
    match e
    case Write(line) => Written(s, line)
    case FlushWriter(n) =>
      var (files, writer) := FlushStream(s.files, s.writer, n);
      s.(files := files, writer := writer)
    case FlushOld(n) =>
      if s.oldStream.None? then s
      else
        var (files, draining) := FlushStream(s.files, s.oldStream.value, n);
        s.(files := files, oldStream := Some(draining))
    case RotateTimer => if s.stage.Idle? then s.(stage := OpeningTemp) else s
    case TempOpened => if s.stage.OpeningTemp? then Swapped(s) else s
    case TempFailed => if s.stage.OpeningTemp? then s.(stage := Idle) else s
    case OldDrained => if s.stage.DrainingOld? && s.oldStream.Some? then ShiftedAway(s, last) else s
    case TempDrained => if s.stage.DrainingTemp? then Renamed(s) else s
    case FinalOpened => if s.stage.OpeningFinal? then Reopened(s) else s
    case CloseDrained => if s.stage.Idle? then Ended(s) else s
  }

  function Run(s: State, es: seq<Event>, last: nat): State
    requires last > 0
    decreases es
  {
    if es == [] then s else Run(Step(s, es[0], last), es[1..], last)
  }

  /** The lines written while the log was not closed. */
  function Accepted(s: State, es: seq<Event>, last: nat): seq<Line>
    requires last > 0
    decreases es
  {
    if es == [] then []
    else
      (if es[0].Write? && !s.stage.Closed? then [es[0].line] else [])
      + Accepted(Step(s, es[0], last), es[1..], last)
  }

  // ---- what is kept ---------------------------------------------------------------------------

  /** Which streams are open, on which files, in each stage. */
  predicate Valid(s: State) {
    match s.stage
    case Idle => Steady(s) && !s.writer.ended
    case OpeningTemp => Steady(s) && !s.writer.ended
    case Closed => Steady(s) && s.writer.ended && s.writer.buffer == []
    case DrainingOld =>
      && s.writer.path == Temp && !s.writer.ended && s.pendingLines.None?
      && s.oldStream.Some? && s.oldStream.value.path == Active
    case DrainingTemp =>
      s.writer.path == Temp && s.oldStream.None? && s.pendingLines.Some? && Active !in s.files
    case OpeningFinal =>
      && s.writer.path == Temp && s.writer.buffer == [] && s.oldStream.None? && s.pendingLines.Some?
      && Content(s.files, Temp) == []
  }

  predicate Steady(s: State) {
    s.writer.path == Active && s.oldStream.None? && s.pendingLines.None? && Content(s.files, Temp) == []
  }

  /** What streams on the file have not yet put into it. */
  function Buffered(s: State, path: Path): seq<Line> {
    if s.writer.path == path then s.writer.buffer
    else if s.oldStream.Some? && s.oldStream.value.path == path then s.oldStream.value.buffer
    else []
  }

  /** The lines in the active file, the temporary file and memory, in order. */
  function Recent(s: State): seq<Line> {
    (Content(s.files, Active) + Buffered(s, Active))
    + ((Content(s.files, Temp) + Buffered(s, Temp))
       + (if s.pendingLines.Some? then s.pendingLines.value else []))
  }

  /** Everything ever logged: the dropped backups, the backups, then the recent lines. */
  function History(s: State, last: nat): seq<Line> {
    Flatten(s.dropped) + (BackupLines(s.files, last) + Recent(s))
  }

  lemma {:induction false} SameBackups(a: Files, b: Files, k: nat)
    requires forall i | 1 <= i <= k :: Content(a, Backup(i)) == Content(b, Backup(i))
    ensures BackupLines(a, k) == BackupLines(b, k)
  {
    if k > 0 {
      SameBackups(a, b, k - 1);
    }
  }

  lemma {:induction false} ShiftedContent(files: Files, last: nat, k: nat)
    requires last > 0 && 1 <= k <= last
    ensures Content(Shifted(files, last), Backup(k)) == if k == 1 then Content(files, Active) else Content(files, Backup(k - 1))
    ensures Active !in Shifted(files, last) && Content(Shifted(files, last), Temp) == Content(files, Temp)
  {
    if k == 1 {
      assert Target(Active, last) == Some(Backup(1));
    } else {
      assert Target(Backup(k - 1), last) == Some(Backup(k));
    }
    assert Target(Temp, last) == Some(Temp);
  }

  /** Every backup moves up by one, with gaps or without, and the active file becomes the first. */
  lemma {:induction false} ShiftedBackups(files: Files, last: nat, k: nat)
    requires 1 <= k <= last
    ensures BackupLines(Shifted(files, last), k) == BackupLines(files, k - 1) + Content(files, Active)
  {
    ShiftedContent(files, last, k);
    if k == 1 {
      assert BackupLines(Shifted(files, last), 0) == [];
    } else {
      ShiftedBackups(files, last, k - 1);
    }
  }

  lemma {:induction false} FlattenPush(parts: seq<seq<Line>>, part: seq<Line>)
    ensures Flatten(parts + [part]) == Flatten(parts) + part
  {
    assert (parts + [part])[..|parts|] == parts;
  }

  /** Shifting drops the last backup and nothing else. */
  lemma {:induction false} ShiftKeeps(files: Files, dropped: seq<seq<Line>>, last: nat)
    requires last > 0
    ensures Flatten(dropped + [Content(files, Backup(last))]) + BackupLines(Shifted(files, last), last)
         == Flatten(dropped) + (BackupLines(files, last) + Content(files, Active))
  {
    FlattenPush(dropped, Content(files, Backup(last)));
    ShiftedBackups(files, last, last);
    Regroup(Flatten(dropped), Content(files, Backup(last)), BackupLines(files, last - 1), Content(files, Active));
  }

  lemma {:induction false} Regroup(a: seq<Line>, b: seq<Line>, c: seq<Line>, d: seq<Line>)
    ensures (a + b) + (c + d) == a + ((b + c) + d)
  {
  }

  lemma {:induction false} FlushKeeps(files: Files, s: Stream, count: nat)
    ensures var (after, t) := FlushStream(files, s, count);
      Content(after, s.path) + t.buffer == Content(files, s.path) + s.buffer
      && t.path == s.path && t.ended == s.ended
      && forall p | p != s.path :: Content(after, p) == Content(files, p)
  {
    var n := Min(count, |s.buffer|);
    assert s.buffer[..n] + s.buffer[n..] == s.buffer;
  }

  lemma {:induction false} SameHistory(s: State, t: State, last: nat)
    requires t.dropped == s.dropped && Recent(t) == Recent(s)
    requires forall i | 1 <= i <= last :: Content(t.files, Backup(i)) == Content(s.files, Backup(i))
    ensures History(t, last) == History(s, last)
  {
    SameBackups(s.files, t.files, last);
  }

  /** A written line is the newest of the history, unless the log is closed. */
  lemma {:induction false} WriteKeeps(s: State, line: Line, last: nat)
    requires Valid(s)
    ensures Valid(Written(s, line))
    ensures History(Written(s, line), last) == History(s, last) + (if s.stage.Closed? then [] else [line])
  {
    var t := Written(s, line);
    if s.stage.Closed? {
      assert History(s, last) + [] == History(s, last);
    } else {
      assert Recent(t) == Recent(s) + [line] by {
        RecentOf(s);
        RecentOf(t);
      }
      AppendRight(Flatten(s.dropped), BackupLines(s.files, last), Recent(s), [line]);
    }
  }

  lemma {:induction false} AppendRight(a: seq<Line>, b: seq<Line>, c: seq<Line>, d: seq<Line>)
    ensures a + (b + (c + d)) == a + (b + c) + d
  {
  }

  /** The recent lines, stage by stage. */
  lemma {:induction false} RecentOf(s: State)
    requires Valid(s)
    ensures Steady(s) ==> Recent(s) == Content(s.files, Active) + s.writer.buffer
    ensures s.stage.DrainingOld? ==>
      Recent(s) == Content(s.files, Active) + s.oldStream.value.buffer + (Content(s.files, Temp) + s.writer.buffer)
    ensures s.stage.DrainingTemp? ==> Recent(s) == Content(s.files, Temp) + s.writer.buffer + s.pendingLines.value
    ensures s.stage.OpeningFinal? ==> Recent(s) == Content(s.files, Active) + s.pendingLines.value
  {
  }

  lemma {:induction false} FlushWriterKeeps(s: State, n: nat, last: nat)
    requires Valid(s) && last > 0
    ensures Valid(Step(s, FlushWriter(n), last)) && History(Step(s, FlushWriter(n), last), last) == History(s, last)
  {
    var t := Step(s, FlushWriter(n), last);
    FlushKeeps(s.files, s.writer, n);
    RecentOf(s);
    RecentOf(t);
    SameHistory(s, t, last);
  }

  lemma {:induction false} FlushOldKeeps(s: State, n: nat, last: nat)
    requires Valid(s) && last > 0
    ensures Valid(Step(s, FlushOld(n), last)) && History(Step(s, FlushOld(n), last), last) == History(s, last)
  {
    if s.oldStream.Some? {
      var t := Step(s, FlushOld(n), last);
      FlushKeeps(s.files, s.oldStream.value, n);
      RecentOf(s);
      RecentOf(t);
      SameHistory(s, t, last);
    }
  }

  lemma {:induction false} SwapKeeps(s: State, last: nat)
    requires Valid(s) && s.stage.OpeningTemp?
    ensures Valid(Swapped(s)) && History(Swapped(s), last) == History(s, last)
  {
    RecentOf(s);
    RecentOf(Swapped(s));
    SameHistory(s, Swapped(s), last);
  }

  lemma {:induction false} DrainKeeps(s: State, last: nat)
    requires Valid(s) && s.stage.DrainingOld? && last > 0
    ensures Valid(ShiftedAway(s, last)) && History(ShiftedAway(s, last), last) == History(s, last)
  {
    var draining := s.oldStream.value;
    var files := Append(s.files, Active, draining.buffer);
    var t := ShiftedAway(s, last);
    ShiftedContent(files, last, 1);
    RecentOf(s);
    RecentOf(t);
    SameBackups(s.files, files, last);
    ShiftKeeps(files, s.dropped, last);
    var newer := Content(s.files, Temp) + s.writer.buffer;
    assert Recent(t) == newer;
    assert Recent(s) == Content(files, Active) + newer;
    assert Content(s.files, Backup(last)) == Content(files, Backup(last));
    Regroup4(Flatten(s.dropped), BackupLines(files, last), Content(files, Active), newer);
    AppendLeft(Flatten(t.dropped), BackupLines(t.files, last), newer);
  }

  lemma {:induction false} Regroup4(a: seq<Line>, b: seq<Line>, c: seq<Line>, d: seq<Line>)
    ensures a + (b + (c + d)) == a + (b + c) + d
  {
  }

  lemma {:induction false} AppendLeft(a: seq<Line>, b: seq<Line>, c: seq<Line>)
    ensures a + (b + c) == a + b + c
  {
  }

  lemma {:induction false} RenameKeeps(s: State, last: nat)
    requires Valid(s) && s.stage.DrainingTemp?
    ensures Valid(Renamed(s)) && History(Renamed(s), last) == History(s, last)
  {
    RecentOf(s);
    RecentOf(Renamed(s));
    SameHistory(s, Renamed(s), last);
  }

  lemma {:induction false} ReopenKeeps(s: State, last: nat)
    requires Valid(s) && s.stage.OpeningFinal?
    ensures Valid(Reopened(s)) && History(Reopened(s), last) == History(s, last)
  {
    RecentOf(s);
    RecentOf(Reopened(s));
    SameHistory(s, Reopened(s), last);
  }

  lemma {:induction false} EndKeeps(s: State, last: nat)
    requires Valid(s) && s.stage.Idle?
    ensures Valid(Ended(s)) && History(Ended(s), last) == History(s, last)
  {
    RecentOf(s);
    RecentOf(Ended(s));
    SameHistory(s, Ended(s), last);
  }

  /** Every event keeps the history, but for the line it writes. */
  lemma {:induction false} StepKeeps(s: State, e: Event, last: nat)
    requires Valid(s) && last > 0
    ensures Valid(Step(s, e, last))
    ensures History(Step(s, e, last), last)
         == History(s, last) + (if e.Write? && !s.stage.Closed? then [e.line] else [])
  {
    match e
    case Write(line) => WriteKeeps(s, line, last);
    case FlushWriter(n) => FlushWriterKeeps(s, n, last);
    case FlushOld(n) => FlushOldKeeps(s, n, last);
    case RotateTimer =>
    case TempOpened => if s.stage.OpeningTemp? { SwapKeeps(s, last); }
    case TempFailed =>
    case OldDrained => if s.stage.DrainingOld? { DrainKeeps(s, last); }
    case TempDrained => if s.stage.DrainingTemp? { RenameKeeps(s, last); }
    case FinalOpened => if s.stage.OpeningFinal? { ReopenKeeps(s, last); }
    case CloseDrained => if s.stage.Idle? { EndKeeps(s, last); }
  }

  /** Conservation: over any interleaving of writes, flushes, rotations and a close, no line is
      lost, doubled or reordered; only whole backups past the last one are dropped. */
  lemma {:induction false} RunKeeps(s: State, es: seq<Event>, last: nat)
    requires Valid(s) && last > 0
    ensures Valid(Run(s, es, last))
    ensures History(Run(s, es, last), last) == History(s, last) + Accepted(s, es, last)
    decreases es
  {
    if es == [] {
      assert History(s, last) + [] == History(s, last);
    } else {
      StepKeeps(s, es[0], last);
      RunKeeps(Step(s, es[0], last), es[1..], last);
      var first := if es[0].Write? && !s.stage.Closed? then [es[0].line] else [];
      AppendLeft(History(s, last), first, Accepted(Step(s, es[0], last), es[1..], last));
    }
  }

  /** Startup keeps the previous log, but for its last backup and a stale temporary file. */
  lemma {:induction false} StartKeeps(files: Files, last: nat)
    requires last > 0
    ensures Valid(Start(files, last))
    ensures History(Start(files, last), last) == BackupLines(files, last) + Content(files, Active)
  {
    var kept := files - {Temp};
    var s := Start(files, last);
    SameBackups(files, kept, last);
    StartFiles(files, last);
    StartShift(kept, last);
    assert BackupLines(s.files, last) + [] == BackupLines(s.files, last);
  }

  lemma {:induction false} StartFiles(files: Files, last: nat)
    requires last > 0
    ensures var s := Start(files, last);
      Valid(s) && Recent(s) == [] && BackupLines(s.files, last) == BackupLines(Shifted(files - {Temp}, last), last)
  {
    var shifted := Shifted(files - {Temp}, last);
    ShiftedContent(files - {Temp}, last, 1);
    SameBackups(shifted, Start(files, last).files, last);
  }

  lemma {:induction false} StartShift(kept: Files, last: nat)
    requires last > 0
    ensures Flatten([Content(kept, Backup(last))]) + BackupLines(Shifted(kept, last), last)
         == BackupLines(kept, last) + Content(kept, Active)
  {
    ShiftKeeps(kept, [], last);
    assert [] + [Content(kept, Backup(last))] == [Content(kept, Backup(last))];
    assert Flatten([]) == [];
    var all := BackupLines(kept, last) + Content(kept, Active);
    assert [] + all == all;
  }

  /** The completions that close() waits for, in the order in which they come. */
  const COMPLETIONS: seq<Event> := [TempOpened, OldDrained, TempDrained, FinalOpened, CloseDrained]

  /** The stage after a completion. */
  function NextStage(stage: Stage, e: Event): Stage {
    match (stage, e)
    case (OpeningTemp, TempOpened) => DrainingOld
    case (DrainingOld, OldDrained) => DrainingTemp
    case (DrainingTemp, TempDrained) => OpeningFinal
    case (OpeningFinal, FinalOpened) => Idle
    case (Idle, CloseDrained) => Closed
    case _ => stage
  }

  lemma {:induction false} StageStep(s: State, e: Event, last: nat)
    requires Valid(s) && last > 0 && e in COMPLETIONS
    ensures Valid(Step(s, e, last)) && History(Step(s, e, last), last) == History(s, last)
    ensures Step(s, e, last).stage == NextStage(s.stage, e)
  {
    StepKeeps(s, e, last);
    assert History(s, last) + [] == History(s, last);
  }

  function LastStage(stage: Stage, es: seq<Event>): Stage
    decreases es
  {
    if es == [] then stage else LastStage(NextStage(stage, es[0]), es[1..])
  }

  lemma {:induction false} RunStages(s: State, es: seq<Event>, last: nat)
    requires Valid(s) && last > 0 && forall i | 0 <= i < |es| :: es[i] in COMPLETIONS
    ensures var t := Run(s, es, last);
      Valid(t) && t.stage == LastStage(s.stage, es) && History(t, last) == History(s, last)
    decreases es
  {
    if es != [] {
      assert es[0] in COMPLETIONS;
      StageStep(s, es[0], last);
      RunStages(Step(s, es[0], last), es[1..], last);
    }
  }

  lemma {:induction false} CompletionsEnd(stage: Stage)
    ensures LastStage(stage, COMPLETIONS) == Closed
  {
    var es := COMPLETIONS;
    assert es[1..][0] == OldDrained && es[1..][1..] == es[2..];
    assert es[2..][0] == TempDrained && es[2..][1..] == es[3..];
    assert es[3..][0] == FinalOpened && es[3..][1..] == es[4..];
    assert es[4..][0] == CloseDrained && es[4..][1..] == [];
  }

  /** Whatever the stage, the completions end with every line in a file. */
  lemma {:induction false} CloseDelivers(s: State, last: nat)
    requires Valid(s) && last > 0
    ensures var t := Run(s, COMPLETIONS, last);
      && t.stage.Closed?
      && Flatten(t.dropped) + (BackupLines(t.files, last) + Content(t.files, Active)) == History(s, last)
  {
    RunStages(s, COMPLETIONS, last);
    CompletionsEnd(s.stage);
    var t := Run(s, COMPLETIONS, last);
    RecentOf(t);
    assert Content(t.files, Active) + [] == Content(t.files, Active);
  }
}
