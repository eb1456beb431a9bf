/** The file logger itself: each method is one synchronous stretch of the program, proved to
    be the step of LogRotation it stands for. */
module FileLogger {
  import opened Wrappers
  import opened LogRotation

  function At(files: Files, path: Path): Option<seq<Line>> {
    if path in files then Some(files[path]) else None
  }

  /** What a path holds after the shift. */
  function SourceOf(files: Files, last: nat, path: Path): Option<seq<Line>> {
    match path
    case Active => None
    case Temp => At(files, Temp)
    case Backup(k) =>
      if k == 1 then At(files, Active) else if 2 <= k <= last then At(files, Backup(k - 1)) else At(files, path)
  }

  lemma {:induction false} ShiftedAt(files: Files, last: nat, path: Path)
    requires last > 0
    ensures At(Shifted(files, last), path) == SourceOf(files, last, path)
  {
    match path
    case Active =>
    case Temp => assert Target(Temp, last) == Some(Temp);
    case Backup(k) =>
      if k == 1 {
        assert Target(Active, last) == Some(path);
      } else if 2 <= k <= last {
        assert Target(Backup(k - 1), last) == Some(path);
      } else {
        assert Target(path, last) == Some(path);
      }
  }

  /** What a path holds when the backups above i have been moved. */
  function SourceAbove(files: Files, last: nat, i: nat, path: Path): Option<seq<Line>> {
    match path
    case Backup(k) => if k == i + 1 then None else if i + 1 < k <= last then At(files, Backup(k - 1)) else At(files, path)
    case _ => At(files, path)
  }

  ghost predicate MovedAbove(files: Files, before: Files, last: nat, i: nat) {
    forall p :: At(files, p) == SourceAbove(before, last, i, p)
  }

  /** Renaming replaces the target; a missing file is passed over. */
  function Renaming(files: Files, from: Path, to: Path): Files {
    if from in files then (files - {from})[to := files[from]] else files
  }

  lemma {:induction false} MoveOne(files: Files, before: Files, last: nat, i: nat)
    requires MovedAbove(files, before, last, i) && 1 <= i < last
    ensures MovedAbove(Renaming(files, Backup(i), Backup(i + 1)), before, last, i - 1)
  {
    assert At(files, Backup(i)) == SourceAbove(before, last, i, Backup(i)) == At(before, Backup(i));
    assert At(files, Backup(i + 1)) == None;
    var after, j := Renaming(files, Backup(i), Backup(i + 1)), i - 1;
    forall p ensures At(after, p) == SourceAbove(before, last, j, p) {
      assert At(files, p) == SourceAbove(before, last, i, p);
    }
  }

  lemma {:induction false} MoveActive(files: Files, before: Files, last: nat)
    requires MovedAbove(files, before, last, 0) && last > 0
    ensures Renaming(files, Active, Backup(1)) == Shifted(before, last)
  {
    assert At(files, Active) == At(before, Active) && At(files, Backup(1)) == None;
    var after, shifted := Renaming(files, Active, Backup(1)), Shifted(before, last);
    forall p ensures At(after, p) == At(shifted, p) {
      ShiftedAt(before, last, p);
      assert At(files, p) == SourceAbove(before, last, 0, p);
    }
    SameFiles(after, shifted);
  }

  class FileLogger {
    const last: nat
    var files: Files
    var writer: Stream
    var oldStream: Option<Stream>
    var pendingLines: Option<seq<Line>>
    var stage: Stage
    ghost var dropped: seq<seq<Line>>

    ghost function Now(): State
      reads this
    {
      State(files, writer, oldStream, pendingLines, stage, dropped)
    }

    ghost predicate Ready()
      reads this
    {
      last > 0 && Valid(Now())
    }

    /** Startup on the files of earlier runs. */
    constructor (before: Files, backups: nat)
      requires backups > 0
      ensures last == backups && Now() == Start(before, backups) && Ready()
    {
      last := backups;
      files := before - {Temp};
      writer := Stream(Active, [], false);
      oldStream := None;
      pendingLines := None;
      stage := Idle;
      dropped := [];
      new;
      ShiftBackupsSync();
      files := Append(files, Active, []);
      StartKeeps(before, backups);
      assert dropped == [Content(before, Backup(last))];
    }

    method Unlink(path: Path)
      modifies this`files
      ensures files == old(files) - {path}
    {
      files := files - {path};
    }

    method Rename(from: Path, to: Path)
      requires from != to
      modifies this`files
      ensures files == Renaming(old(files), from, to)
    {
      if from in files {
        var lines := files[from];
        files := files - {from};
        files := files[to := lines];
      }
    }

    method ShiftBackupsSync()
      requires last > 0
      modifies this`files, this`dropped
      ensures files == Shifted(old(files), last)
      ensures dropped == old(dropped) + [Content(old(files), Backup(last))]
    {
      ghost var before := files;
      dropped := dropped + [Content(files, Backup(last))];
      Unlink(Backup(last));
      var i := last - 1;
      while i >= 1
        invariant 0 <= i < last
        invariant MovedAbove(files, before, last, i)
        invariant dropped == old(dropped) + [Content(before, Backup(last))]
      {
        MoveOne(files, before, last, i);
        Rename(Backup(i), Backup(i + 1));
        i := i - 1;
      }
      MoveActive(files, before, last);
      Rename(Active, Backup(1));
    }

    method Write(line: Line)
      requires Ready()
      modifies this
      ensures Now() == Written(old(Now()), line) && Ready()
    {
      WriteKeeps(Now(), line, last);
      if pendingLines.Some? {
        pendingLines := Some(pendingLines.value + [line]);
      } else if !writer.ended {
        writer := writer.(buffer := writer.buffer + [line]);
      }
    }

    /** Some of the buffered lines reach the file. */
    method FlushWriter(count: nat)
      requires Ready()
      modifies this
      ensures Now() == Step(old(Now()), Event.FlushWriter(count), last) && Ready()
    {
      FlushWriterKeeps(Now(), count, last);
      var (after, flushed) := FlushStream(files, writer, count);
      files := after;
      writer := flushed;
    }

    method FlushOld(count: nat)
      requires Ready()
      modifies this
      ensures Now() == Step(old(Now()), Event.FlushOld(count), last) && Ready()
    {
      FlushOldKeeps(Now(), count, last);
      if oldStream.Some? {
        var (after, flushed) := FlushStream(files, oldStream.value, count);
        files := after;
        oldStream := Some(flushed);
      }
    }

    /** The timer: a rotation already in progress goes on alone. */
    method RotateLog()
      requires Ready()
      modifies this
      ensures Now() == Step(old(Now()), RotateTimer, last) && Ready()
      ensures Now() == old(Now()).(stage := if old(stage).Idle? then OpeningTemp else old(stage))
    {
      if stage.Idle? {
        stage := OpeningTemp;
      }
    }

    method TempFailed()
      requires Ready() && stage.OpeningTemp?
      modifies this
      ensures Now() == Step(old(Now()), Event.TempFailed, last) && Ready()
    {
      stage := Idle;
    }

    /** The temporary file is open, truncated: new lines go to it while the old stream drains. */
    method TempOpened()
      requires Ready() && stage.OpeningTemp?
      modifies this
      ensures Now() == Step(old(Now()), Event.TempOpened, last) && Ready()
    {
      SwapKeeps(Now(), last);
      files := files[Temp := []];
      oldStream := Some(writer.(ended := true));
      writer := Stream(Temp, [], false);
      stage := DrainingOld;
    }

    /** The old stream is drained: shift the backups, keep new lines in memory, and drain the
        temporary file. */
    method OldDrained()
      requires Ready() && stage.DrainingOld?
      modifies this
      ensures Now() == Step(old(Now()), Event.OldDrained, last) && Ready()
    {
      DrainKeeps(Now(), last);
      files := Append(files, oldStream.value.path, oldStream.value.buffer);
      oldStream := None;
      ghost var drained := files;
      ShiftBackupsSync();
      assert Content(drained, Backup(last)) == Content(old(files), Backup(last));
      pendingLines := Some([]);
      writer := writer.(ended := true);
      stage := DrainingTemp;
    }

    /** The temporary file is drained and takes the log's name. */
    method TempDrained()
      requires Ready() && stage.DrainingTemp?
      modifies this
      ensures Now() == Step(old(Now()), Event.TempDrained, last) && Ready()
    {
      RenameKeeps(Now(), last);
      files := Append(files, writer.path, writer.buffer);
      writer := writer.(buffer := []);
      Rename(Temp, Active);
      stage := OpeningFinal;
    }

    /** A fresh stream on the log, given the lines in order. */
    method WriteAll(lines: seq<Line>) returns (s: Stream)
      ensures s == Stream(Active, lines, false)
    {
      s := Stream(Active, [], false);
      for i := 0 to |lines|
        invariant s == Stream(Active, lines[..i], false)
      {
        s := s.(buffer := s.buffer + [lines[i]]);
        assert lines[..i] + [lines[i]] == lines[..i + 1];
      }
      assert lines[..|lines|] == lines;
    }

    /** The log is open again: the lines kept in memory are written to it, in order. */
    method FinalOpened()
      requires Ready() && stage.OpeningFinal?
      modifies this
      ensures Now() == Step(old(Now()), Event.FinalOpened, last) && Ready()
    {
      ReopenKeeps(Now(), last);
      files := Append(files, Active, []);
      var buffered := if pendingLines.Some? then pendingLines.value else [];
      pendingLines := None;
      var finalStream := WriteAll(buffered);
      writer := finalStream;
      stage := Idle;
    }

    /** close(): no rotation is in progress any more; the writer ends and drains. */
    method CloseDrained()
      requires Ready() && stage.Idle?
      modifies this
      ensures Now() == Step(old(Now()), Event.CloseDrained, last) && Ready()
    {
      EndKeeps(Now(), last);
      files := Append(files, writer.path, writer.buffer);
      writer := writer.(buffer := [], ended := true);
      stage := Closed;
    }
  }

  lemma {:induction false} SameFiles(a: Files, b: Files)
    requires forall p :: At(a, p) == At(b, p)
    ensures a == b
  {
    forall p ensures p in a <==> p in b {
      assert At(a, p) == At(b, p);
    }
    forall p | p in a ensures a[p] == b[p] {
      assert At(a, p) == At(b, p);
    }
  }
}
