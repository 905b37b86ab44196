// Log files and their rotation, and the queue in front of them (DkmRtpIpc/src/triad_log.cpp, lines
// 89-169). A file is the sequence of its lines.
module LogRotation {
  import opened Wrappers

  type Line = string

  datatype Name = Base | Backup(i: int)

  type Files = map<Name, seq<Line>>

  function Find(files: Files, name: Name): Option<seq<Line>> { if name in files then Some(files[name]) else None }

  function Get(files: Files, name: Name): seq<Line> { if name in files then files[name] else [] }

  function Size(lines: seq<Line>): nat {
    if lines == [] then 0 else Size(lines[..|lines| - 1]) + |lines[|lines| - 1]|
  }

  function Renamed(files: Files, src: Name, dst: Name): Files {
    if src in files then (files - {src})[dst := files[src]] else files
  }

  // Backups i, i - 1, ..., 1 each move up by one.
  function MovedUp(files: Files, i: int): (r: Files)
    ensures Find(r, Base) == Find(files, Base)
    decreases i
  {
    if i < 1 then files else MovedUp(Renamed(files, Backup(i), Backup(i + 1)), i - 1)
  }

  function Rotate(files: Files, n: int): Files {
    Renamed(MovedUp(files - {Backup(n)}, n - 1), Base, Backup(1))
  }

  predicate Full(files: Files, max: nat) { Base in files && Size(files[Base]) >= max }

  // One write: a rotation first if the log is full, then the line at the end of the log.
  function Write(files: Files, max: nat, n: int, line: Line): Files {
    var f := if Full(files, max) then Rotate(files, n) else files;
    f[Base := Get(f, Base) + [line]]
  }

  function WriteAll(files: Files, max: nat, n: int, lines: seq<Line>): Files {
    if lines == [] then files
    else Write(WriteAll(files, max, n, lines[..|lines| - 1]), max, n, lines[|lines| - 1])
  }

  // ---------- The queue ----------

  // The worker takes one line at a time and writes it without the lock, so pushes come in between.
  datatype Logger = Logger(running: bool, queue: seq<Line>, hand: Option<Line>, exited: bool, files: Files,
                           pushed: seq<Line>, written: seq<Line>)

  datatype Step = PushLine(line: Line) | PopLine | WriteHand | StopLogger | LeaveLoop

  predicate Enabled(s: Logger, e: Step) {
    match e
    case PushLine(_) => true
    case PopLine => !s.exited && s.hand.None? && s.queue != []
    case WriteHand => s.hand.Some?
    case StopLogger => true
    case LeaveLoop => !s.exited && s.hand.None? && !s.running && s.queue == []
  }

  function Next(s: Logger, max: nat, n: int, e: Step): Logger
    requires Enabled(s, e)
  {
    match e
    case PushLine(line) => s.(queue := s.queue + [line], pushed := s.pushed + [line])
    case PopLine => s.(hand := Some(s.queue[0]), queue := s.queue[1..])
    case WriteHand =>
      s.(hand := None, files := Write(s.files, max, n, s.hand.value), written := s.written + [s.hand.value])
    case StopLogger => s.(running := false)
    case LeaveLoop => s.(exited := true)
  }

  function Idle(): Logger { Logger(true, [], None, false, map[], [], []) }

  // Where some steps lead, if each can be taken.
  function AfterSteps(s: Logger, max: nat, n: int, steps: seq<Step>): Option<Logger> {
    if steps == [] then Some(s)
    else
      match AfterSteps(s, max, n, steps[..|steps| - 1])
      case None => None
      case Some(t) => if Enabled(t, steps[|steps| - 1]) then Some(Next(t, max, n, steps[|steps| - 1])) else None
  }

  lemma OneMore(s: Logger, max: nat, n: int, steps: seq<Step>, t: Logger, e: Step)
    requires AfterSteps(s, max, n, steps) == Some(t) && Enabled(t, e)
    ensures AfterSteps(s, max, n, steps + [e]) == Some(Next(t, max, n, e))
  {
    hide Next, Enabled;
    assert (steps + [e])[..|steps|] == steps;
  }

  predicate IsRun(max: nat, n: int, states: seq<Logger>, steps: seq<Step>) {
    && |states| == |steps| + 1 && states[0] == Idle()
    && forall i :: 0 <= i < |steps| ==>
         Enabled(states[i], steps[i]) && states[i + 1] == Next(states[i], max, n, steps[i])
  }

  // ---------- The logger ----------

  // What others do during one write: lines pushed, and perhaps a stop.
  datatype Others = Others(lines: seq<Line>, stop: bool)

  // The lines pushed during the first k writes.
  function Came(others: seq<Others>, k: nat): seq<Line> {
    if k == 0 then [] else Came(others, k - 1) + (if k <= |others| then others[k - 1].lines else [])
  }

  // How many are pushed after those.
  function Coming(others: seq<Others>, k: nat): nat
    decreases |others| - k
  {
    if k >= |others| then 0 else |others[k].lines| + Coming(others, k + 1)
  }

  class AsyncLogger {
    const maxFileSize: nat
    const maxBackups: int
    var running: bool
    var files: Files
    var queue: seq<Line>

    constructor (max: nat, n: int)
      ensures maxFileSize == max && maxBackups == n && Shows(Idle())
    {
      maxFileSize, maxBackups, running, files, queue := max, n, true, map[], [];
    }

    method Rename(src: Name, dst: Name)
      requires src in files
      modifies this`files
      ensures files == Renamed(old(files), src, dst)
    {
      files := (files - {src})[dst := files[src]];
    }

    // The last backup goes, the others move up from the back, and the log itself becomes the first.
    method RotateLogs()
      requires Base in files
      modifies this`files
      ensures files == Rotate(old(files), maxBackups)
    {
      hide Renamed;
      var n := maxBackups;
      assert Backup(n) !in files ==> files - {Backup(n)} == files;
      if Backup(n) in files { files := files - {Backup(n)}; }
      var i := n - 1;
      while i >= 1
        invariant MovedUp(files, i) == MovedUp(old(files) - {Backup(n)}, n - 1)
      {
        if Backup(i) in files {
          Rename(Backup(i), Backup(i + 1));
        } else {
          NotThere(files, Backup(i), Backup(i + 1));
        }
        i := i - 1;
      }
      assert Find(files, Base) == Find(old(files), Base);
      Rename(Base, Backup(1));
    }

    method WriteLog(line: Line)
      modifies this`files
      ensures files == Write(old(files), maxFileSize, maxBackups, line)
    {
      hide Rotate;
      if Base in files && Size(files[Base]) >= maxFileSize { RotateLogs(); }
      files := files[Base := Get(files, Base) + [line]];
    }

    // Its fields are those of the state; what the worker holds is a variable of its loop.
    predicate Shows(s: Logger)
      reads this
    {
      running == s.running && queue == s.queue && files == s.files
    }

    method Push(line: Line, ghost s: Logger)
      requires Shows(s)
      modifies this`queue
      ensures Shows(Next(s, maxFileSize, maxBackups, PushLine(line))) && queue == old(queue) + [line]
    {
      queue := queue + [line];
    }

    method Stop(ghost s: Logger)
      requires Shows(s)
      modifies this`running
      ensures Shows(Next(s, maxFileSize, maxBackups, StopLogger))
    {
      running := false;
    }

    // What others do while the worker writes.
    method Meanwhile(m: Others, ghost s: Logger, ghost taken: seq<Step>, ghost t: Logger)
      returns (ghost steps: seq<Step>, ghost u: Logger)
      requires AfterSteps(s, maxFileSize, maxBackups, taken) == Some(t) && Shows(t)
      modifies this`queue, this`running
      ensures AfterSteps(s, maxFileSize, maxBackups, steps) == Some(u) && Shows(u)
      ensures u.hand == t.hand && u.exited == t.exited
      ensures queue == old(queue) + m.lines
    {
      steps, u := taken, t;
      for i := 0 to |m.lines|
        invariant AfterSteps(s, maxFileSize, maxBackups, steps) == Some(u) && Shows(u)
        invariant u.hand == t.hand && u.exited == t.exited
        invariant queue == old(queue) + m.lines[..i] && files == old(files)
      {
        hide AfterSteps;
        assert m.lines[..i + 1] == m.lines[..i] + [m.lines[i]];
        Push(m.lines[i], u);
        OneMore(s, maxFileSize, maxBackups, steps, u, PushLine(m.lines[i]));
        steps, u := steps + [PushLine(m.lines[i])], Next(u, maxFileSize, maxBackups, PushLine(m.lines[i]));
      }
      assert m.lines[..|m.lines|] == m.lines;
      if m.stop {
        Stop(u);
        OneMore(s, maxFileSize, maxBackups, steps, u, StopLogger);
        steps, u := steps + [StopLogger], Next(u, maxFileSize, maxBackups, StopLogger);
      }
    }

    // One line: taken from the front, and written while others go on.
    method WriteNext(m: Others, ghost s: Logger, ghost taken: seq<Step>, ghost t: Logger)
      returns (ghost steps: seq<Step>, ghost u: Logger)
      requires AfterSteps(s, maxFileSize, maxBackups, taken) == Some(t) && Shows(t)
      requires queue != [] && t.hand == None && !t.exited
      modifies this
      ensures AfterSteps(s, maxFileSize, maxBackups, steps) == Some(u) && Shows(u) && u.hand == None && !u.exited
      ensures queue == old(queue)[1..] + m.lines && files == Write(old(files), maxFileSize, maxBackups, old(queue)[0])
    {
      hide AfterSteps, Write;
      var line := queue[0];
      queue := queue[1..];
      OneMore(s, maxFileSize, maxBackups, taken, t, PopLine);
      steps, u := Meanwhile(m, s, taken + [PopLine], Next(t, maxFileSize, maxBackups, PopLine));
      WriteLog(line);
      OneMore(s, maxFileSize, maxBackups, steps, u, WriteHand);
      steps, u := steps + [WriteHand], Next(u, maxFileSize, maxBackups, WriteHand);
    }

    // One turn of the worker once it is awake: it leaves, or writes lines until it finds the queue
    // empty. The lock is free during each write; others says what happens then.
    method ProcessQueue(others: seq<Others>, ghost s: Logger)
      returns (left: bool, k: nat, ghost steps: seq<Step>, ghost t: Logger)
      requires Shows(s) && s.hand == None && !s.exited && (queue != [] || !running)
      modifies this
      ensures AfterSteps(s, maxFileSize, maxBackups, steps) == Some(t) && Shows(t) && t.hand == None
      ensures left == (old(queue) == []) && (left ==> steps == [LeaveLoop])
      ensures queue == [] && files == WriteAll(old(files), maxFileSize, maxBackups, old(queue) + Came(others, k))
      ensures k == |old(queue) + Came(others, k)|
    {
      hide AfterSteps, Write, WriteAll, Came, Coming;
      AtFirst(others, queue, files, maxFileSize, maxBackups, s);
      k, steps, t := 0, [], s;
      if !running && queue == [] {
        OneMore(s, maxFileSize, maxBackups, [], s, LeaveLoop);
        assert [] + [LeaveLoop] == [LeaveLoop];
        return true, 0, [LeaveLoop], Next(s, maxFileSize, maxBackups, LeaveLoop);
      }
      left := false;
      ghost var done: seq<Line> := [];
      while queue != []
        invariant AfterSteps(s, maxFileSize, maxBackups, steps) == Some(t) && Shows(t) && t.hand == None && !t.exited
        invariant done + queue == old(queue) + Came(others, k) && |done| == k
        invariant files == WriteAll(old(files), maxFileSize, maxBackups, done)
        decreases Coming(others, k) + |queue|
      {
        var m := if k < |others| then others[k] else Others([], false);
        OneWritten(others, old(queue), k, done, queue, m.lines);
        WroteOneMore(old(files), maxFileSize, maxBackups, done, queue[0]);
        done := done + [queue[0]];
        steps, t := WriteNext(m, s, steps, t);
        k := k + 1;
      }
      assert done + [] == done;
    }
  }

  lemma AtFirst(others: seq<Others>, queue: seq<Line>, files: Files, max: nat, n: int, s: Logger)
    ensures Came(others, 0) == [] && queue + Came(others, 0) == queue && [] + queue == queue
    ensures WriteAll(files, max, n, []) == files && AfterSteps(s, max, n, []) == Some(s)
  {
  }

  lemma OneWritten(others: seq<Others>, first: seq<Line>, k: nat, done: seq<Line>, queue: seq<Line>, lines: seq<Line>)
    requires queue != [] && done + queue == first + Came(others, k)
    requires lines == if k < |others| then others[k].lines else []
    ensures (done + [queue[0]]) + (queue[1..] + lines) == first + Came(others, k + 1)
    ensures Coming(others, k + 1) + |queue[1..] + lines| < Coming(others, k) + |queue|
  {
    assert (done + [queue[0]]) + (queue[1..] + lines) == (done + ([queue[0]] + queue[1..])) + lines;
    assert [queue[0]] + queue[1..] == queue;
    assert first + (Came(others, k) + lines) == (first + Came(others, k)) + lines;
  }

  lemma WroteOneMore(files: Files, max: nat, n: int, done: seq<Line>, line: Line)
    ensures WriteAll(files, max, n, done + [line]) == Write(WriteAll(files, max, n, done), max, n, line)
  {
    hide Write;
    assert (done + [line])[..|done|] == done;
  }

  lemma NotThere(files: Files, src: Name, dst: Name)
    requires src !in files
    ensures Renamed(files, src, dst) == files
  {
  }

  // ---------- What a rotation does ----------

  // Where a file's new content comes from.
  datatype Origin = Gone | From(name: Name)

  function FindAt(files: Files, o: Origin): Option<seq<Line>> {
    match o case Gone => None case From(name) => Find(files, name)
  }

  function OriginOf(name: Name, n: int): Origin {
    match name
    case Base => Gone
    case Backup(i) =>
      if i == 1 then From(Base)
      else if 2 <= i <= n then From(Backup(i - 1))
      else if i == n then Gone
      else From(name)
  }

  lemma {:induction false} MovedUpAt(files: Files, i: nat, k: int)
    requires Backup(i + 1) !in files
    ensures Find(MovedUp(files, i), Backup(k)) ==
            if 2 <= k <= i + 1 then Find(files, Backup(k - 1))
            else if k == 1 then None
            else Find(files, Backup(k))
    decreases i
  {
    if i > 0 { MovedUpAt(Renamed(files, Backup(i), Backup(i + 1)), i - 1, k); }
  }

  // The renames, done from the back, lose no file but the last backup.
  lemma RotateAt(files: Files, n: int, name: Name)
    requires Base in files
    ensures Find(Rotate(files, n), name) == FindAt(files, OriginOf(name, n))
  {
    if n >= 1 && name.Backup? { MovedUpAt(files - {Backup(n)}, n - 1, name.i); }
  }

  // ---------- What a write does ----------

  // The size of a file is the length of all its lines.
  lemma {:induction false} SizeAdds(a: seq<Line>, b: seq<Line>)
    ensures Size(a + b) == Size(a) + Size(b)
    decreases |b|
  {
    if b == [] {
      assert a + b == a;
    } else {
      var n := |b| - 1;
      assert (a + b)[..|a + b| - 1] == a + b[..n] && (a + b)[|a + b| - 1] == b[n];
      SizeAdds(a, b[..n]);
    }
  }

  lemma SizeOne(line: Line)
    ensures Size([line]) == |line| && Size([]) == 0
  {
    assert [line][..0] == [];
  }

  // Each file after a write: rotated first when the log has reached the limit, and otherwise only the log
  // is another, by its new line.
  lemma WrittenAt(files: Files, max: nat, n: int, line: Line, name: Name)
    ensures Find(Write(files, max, n, line), name) ==
            if Base !in files || Size(files[Base]) < max then
              if name == Base then Some(Get(files, Base) + [line]) else Find(files, name)
            else if name == Base then Some([line])
            else FindAt(files, OriginOf(name, n))
  {
    hide Size, Rotate, OriginOf;
    if Base in files && Size(files[Base]) >= max {
      RotateAt(files, n, name);
      RotateAt(files, n, Base);
      BaseGone(n);
      assert [] + [line] == [line];
    }
  }

  lemma BaseGone(n: int)
    ensures OriginOf(Base, n) == Gone
  {
  }

  // ---------- Retention ----------

  // The contents of the backups from i down, and of the log, oldest first.
  function Kept(files: Files, i: nat): seq<Line> {
    if i == 0 then Get(files, Base) else Get(files, Backup(i)) + Kept(files, i - 1)
  }

  predicate EndsWith(lines: seq<Line>, end: seq<Line>) {
    |end| <= |lines| && lines[|lines| - |end|..] == end
  }

  lemma {:induction false} KeptRotated(files: Files, n: nat, i: nat)
    requires Base in files && i <= n
    ensures Kept(Rotate(files, n), i) == if i == 0 then [] else Kept(files, i - 1)
  {
    hide Rotate;
    if i == 0 {
      RotateAt(files, n, Base);
    } else {
      RotateAt(files, n, Backup(i));
      KeptRotated(files, n, i - 1);
      if i == 1 { assert Get(files, Base) + [] == Get(files, Base); }
    }
  }

  lemma {:induction false} KeptGrows(files: Files, i: nat, line: Line)
    ensures Kept(files[Base := Get(files, Base) + [line]], i) == Kept(files, i) + [line]
  {
    if i > 0 {
      KeptGrows(files, i - 1, line);
      assert Get(files, Backup(i)) + (Kept(files, i - 1) + [line]) ==
               Get(files, Backup(i)) + Kept(files, i - 1) + [line];
    }
  }

  // A write adds its line at the end; only a rotation drops something, and only the last backup.
  lemma KeptWritten(files: Files, max: nat, n: nat, line: Line)
    requires n >= 1
    ensures Kept(Write(files, max, n, line), n) ==
            (if Full(files, max) then Kept(files, n - 1) else Kept(files, n)) + [line]
  {
    hide Rotate, Kept, Full;
    if Full(files, max) {
      FullBase(files, max);
      KeptRotated(files, n, n);
      KeptGrows(Rotate(files, n), n, line);
    } else {
      KeptGrows(files, n, line);
    }
  }

  lemma FullBase(files: Files, max: nat)
    requires Full(files, max)
    ensures Base in files
  {
  }

  // How often a run of writes rotates.
  function Rotations(max: nat, n: int, lines: seq<Line>): nat {
    if lines == [] then 0
    else
      var before := lines[..|lines| - 1];
      Rotations(max, n, before) + (if Full(WriteAll(map[], max, n, before), max) then 1 else 0)
  }

  // The backups in use are the first ones, one for each rotation so far.
  ghost predicate Contiguous(files: Files, n: nat, r: nat) {
    forall i :: 1 <= i <= n ==> (Backup(i) in files <==> i <= r)
  }

  lemma ContiguousWritten(files: Files, max: nat, n: nat, line: Line, r: nat)
    requires Contiguous(files, n, r)
    ensures Contiguous(Write(files, max, n, line), n, if Full(files, max) then r + 1 else r)
  {
    var files' := Write(files, max, n, line);
    if Full(files, max) {
      forall i | 1 <= i <= n ensures Backup(i) in files' <==> i <= r + 1 { RotateAt(files, n, Backup(i)); }
    }
  }

  // A file only grows while it is below the limit.
  predicate Bounded(lines: seq<Line>, max: nat) {
    lines != [] && (|lines| == 1 || Size(lines[..|lines| - 1]) < max)
  }

  ghost predicate AllBounded(files: Files, max: nat) {
    forall name :: name in files ==> Bounded(files[name], max)
  }

  lemma BoundedWritten(files: Files, max: nat, n: int, line: Line)
    requires AllBounded(files, max)
    ensures AllBounded(Write(files, max, n, line), max)
  {
    var files' := Write(files, max, n, line);
    hide Bounded, Rotate;
    if Full(files, max) {
      var turned := Rotate(files, n);
      forall name | name in turned ensures Bounded(turned[name], max) { RotateAt(files, n, name); }
      RotateAt(files, n, Base);
      FirstLine(line, max);
    } else {
      NextLine(files, max, line);
    }
  }

  lemma FirstLine(line: Line, max: nat)
    ensures Bounded([] + [line], max)
  {
  }

  lemma NextLine(files: Files, max: nat, line: Line)
    requires !Full(files, max)
    ensures Bounded(Get(files, Base) + [line], max)
  {
    var f := Get(files, Base);
    assert (f + [line])[..|f|] == f;
  }

  // What is kept is the end of all lines in order, all of them as long as there have been no more
  // rotations than backups; the backups in use are the first ones; and every file was below the
  // limit before its last line.
  ghost predicate Retained(files: Files, max: nat, n: nat, lines: seq<Line>, r: nat) {
    && EndsWith(lines, Kept(files, n))
    && (r <= n ==> Kept(files, n) == lines)
    && Contiguous(files, n, r)
    && AllBounded(files, max)
  }

  lemma RetainedWritten(files: Files, max: nat, n: nat, before: seq<Line>, line: Line, r: nat)
    requires n >= 1 && Retained(files, max, n, before, r)
    ensures Retained(Write(files, max, n, line), max, n, before + [line], if Full(files, max) then r + 1 else r)
  {
    KeptWritten(files, max, n, line);
    ContiguousWritten(files, max, n, line, r);
    BoundedWritten(files, max, n, line);
    LessKept(files, n, before, line, r);
    hide Write, Full, Bounded, AllBounded, Contiguous, EndsWith, Kept;
  }

  // On every run of writes from no files.
  lemma {:induction false} Retention(max: nat, n: nat, lines: seq<Line>)
    requires n >= 1
    ensures Retained(WriteAll(map[], max, n, lines), max, n, lines, Rotations(max, n, lines))
    decreases |lines|
  {
    hide Write, Full, Retained;
    if lines == [] {
      RetainedNothing(max, n);
    } else {
      var before, line := lines[..|lines| - 1], lines[|lines| - 1];
      Retention(max, n, before);
      RetainedWritten(WriteAll(map[], max, n, before), max, n, before, line, Rotations(max, n, before));
      assert lines == before + [line];
    }
  }

  lemma RetainedNothing(max: nat, n: nat)
    ensures Retained(map[], max, n, [], 0)
  {
    NothingKept(n);
    hide Kept, Bounded;
  }

  lemma {:induction false} NothingKept(n: nat)
    ensures Kept(map[], n) == []
  {
    if n > 0 { NothingKept(n - 1); }
  }

  lemma LessKept(files: Files, n: nat, before: seq<Line>, line: Line, r: nat)
    requires n >= 1 && EndsWith(before, Kept(files, n)) && Contiguous(files, n, r)
             && (r <= n ==> Kept(files, n) == before)
    ensures EndsWith(before + [line], Kept(files, n) + [line]) && EndsWith(before + [line], Kept(files, n - 1) + [line])
    ensures r <= n ==> Kept(files, n) + [line] == before + [line]
    ensures r + 1 <= n ==> Kept(files, n - 1) + [line] == before + [line]
  {
    assert Kept(files, n) == Get(files, Backup(n)) + Kept(files, n - 1);
    if r < n { assert Backup(n) !in files; }
    hide Kept, Contiguous;
    EndsMore(before, Kept(files, n), line);
    var a, b := Kept(files, n - 1), |Get(files, Backup(n))|;
    assert Kept(files, n)[b..] == a;
    EndsMore(before, a, line);
  }

  lemma EndsMore(lines: seq<Line>, end: seq<Line>, line: Line)
    requires EndsWith(lines, end)
    ensures EndsWith(lines + [line], end + [line])
  {
    var m := lines + [line];
    assert m[|m| - |end| - 1..] == lines[|lines| - |end|..] + [line];
  }

  // So, with a limit above zero, no file is as long as the limit and its last line together; with a
  // limit of zero every file is a single line, and that long.
  lemma FileSize(max: nat, n: nat, lines: seq<Line>, name: Name)
    requires n >= 1 && name in WriteAll(map[], max, n, lines)
    ensures var file := WriteAll(map[], max, n, lines)[name];
            file != [] && (Size(file) < max + |file[|file| - 1]| <==> max > 0)
  {
    Retention(max, n, lines);
    hide WriteAll, Rotations, Kept, EndsWith;
    var file := WriteAll(map[], max, n, lines)[name];
    assert Bounded(file, max);
    if |file| == 1 { assert file[..0] == []; }
  }

  // ---------- Lines in order ----------

  function InHand(s: Logger): seq<Line> { match s.hand case None => [] case Some(line) => [line] }

  predicate LoggerInv(s: Logger, max: nat, n: int) {
    s.written + InHand(s) + s.queue == s.pushed && s.files == WriteAll(map[], max, n, s.written)
  }

  lemma LinesRegroup(a: seq<Line>, b: seq<Line>, c: seq<Line>, d: seq<Line>)
    ensures a + b + (c + d) == a + b + c + d && a + b + c == (a + b) + [] + c && a + (b + c) == a + b + c
  {
    assert (a + b) + [] == a + b;
  }

  lemma LoggerKeeps(s: Logger, max: nat, n: int, e: Step)
    requires LoggerInv(s, max, n) && Enabled(s, e)
    ensures LoggerInv(Next(s, max, n, e), max, n)
  {
    hide Write, WriteAll;
    match e {
      case PushLine(line) => LinesRegroup(s.written, InHand(s), s.queue, [line]);
      case PopLine =>
        assert s.queue == [s.queue[0]] + s.queue[1..] && s.written + [] == s.written;
        LinesRegroup(s.written, [s.queue[0]], s.queue[1..], []);
      case WriteHand =>
        LinesRegroup(s.written, [s.hand.value], s.queue, []);
        WroteOneMore(map[], max, n, s.written, s.hand.value);
      case _ =>
    }
  }

  lemma {:induction false} LoggerRun(max: nat, n: int, states: seq<Logger>, steps: seq<Step>, k: nat)
    requires IsRun(max, n, states, steps) && k < |states|
    ensures LoggerInv(states[k], max, n)
    decreases k
  {
    hide Enabled, Next;
    if k > 0 {
      hide LoggerInv;
      LoggerRun(max, n, states, steps, k - 1);
      LoggerKeeps(states[k - 1], max, n, steps[k - 1]);
    }
  }

  // However pushes and the worker interleave, the files hold the end of the pushed lines, in push
  // order, up to the ones still waiting; a worker about to leave has written every one of them.
  lemma LoggedInOrder(max: nat, n: nat, states: seq<Logger>, steps: seq<Step>, k: nat)
    requires IsRun(max, n, states, steps) && k < |states| && n >= 1
    ensures var s := states[k];
            && s.written + InHand(s) + s.queue == s.pushed
            && EndsWith(s.written, Kept(s.files, n))
            && (Enabled(s, LeaveLoop) ==> s.written == s.pushed)
  {
    hide WriteAll, Kept, EndsWith, Rotations, AllBounded, Contiguous;
    LoggerRun(max, n, states, steps, k);
    var s := states[k];
    hide IsRun;
    Retention(max, n, s.written);
    if Enabled(s, LeaveLoop) { assert s.written + [] + [] == s.written; }
  }

  // ---------- After a stop ----------

  predicate OwnStep(e: Step) { e == PopLine || e == WriteHand || e == LeaveLoop }

  predicate AllOwn(steps: seq<Step>) {
    forall i :: 0 <= i < |steps| ==> OwnStep(steps[i])
  }

  lemma {:induction false} FirstStep(s: Logger, max: nat, n: int, e: Step, rest: seq<Step>)
    requires Enabled(s, e)
    ensures AfterSteps(s, max, n, [e] + rest) == AfterSteps(Next(s, max, n, e), max, n, rest)
    decreases |rest|
  {
    hide Next, Enabled;
    if rest == [] {
      assert [e] + rest == [e] && [e][..0] == [];
      assert AfterSteps(s, max, n, []) == Some(s);
    } else {
      var k := |rest| - 1;
      assert ([e] + rest)[..k + 1] == [e] + rest[..k] && ([e] + rest)[k + 1] == rest[k];
      FirstStep(s, max, n, e, rest[..k]);
    }
  }

  lemma WritesOne(s: Logger, max: nat, n: int)
    requires !s.exited && s.hand.None? && s.queue != []
    ensures Enabled(s, PopLine) && Enabled(Next(s, max, n, PopLine), WriteHand)
    ensures var u := Next(Next(s, max, n, PopLine), max, n, WriteHand);
            && u.queue == s.queue[1..] && u.hand == None && u.written == s.written + [s.queue[0]]
            && u.pushed == s.pushed && u.running == s.running && !u.exited
  {
    hide Write;
  }

  lemma Leaves(s: Logger, max: nat, n: int)
    requires !s.exited && !s.running && s.hand.None? && s.queue == []
    ensures Enabled(s, LeaveLoop) && Next(s, max, n, LeaveLoop) == s.(exited := true)
  {
  }

  // What the worker comes to by its own steps once running is cleared: it has left, having written every
  // line that was in its hand or in the queue.
  predicate Drained(s: Logger, t: Logger) {
    t.exited && t.queue == [] && t.hand == None && t.written == s.written + InHand(s) + s.queue && t.pushed == s.pushed
  }

  lemma {:induction false} QueueDrains(s: Logger, max: nat, n: int) returns (steps: seq<Step>, t: Logger)
    requires !s.running && !s.exited && s.hand.None?
    ensures AllOwn(steps) && AfterSteps(s, max, n, steps) == Some(t) && Drained(s, t)
    decreases |s.queue|
  {
    hide Next, Enabled, AfterSteps;
    if s.queue == [] {
      Leaves(s, max, n);
      t := Next(s, max, n, LeaveLoop);
      FirstStep(s, max, n, LeaveLoop, []);
      NoSteps(t, max, n);
      steps := [LeaveLoop] + [];
      assert s.written + [] + [] == s.written;
    } else {
      WritesOne(s, max, n);
      var r := Next(s, max, n, PopLine);
      var u := Next(r, max, n, WriteHand);
      var rest;
      rest, t := QueueDrains(u, max, n);
      FirstStep(r, max, n, WriteHand, rest);
      FirstStep(s, max, n, PopLine, [WriteHand] + rest);
      steps := [PopLine] + ([WriteHand] + rest);
      assert s.queue == [s.queue[0]] + s.queue[1..];
      LinesRegroup(s.written, [s.queue[0]], s.queue[1..], []);
      assert u.written + [] + u.queue == s.written + [] + s.queue;
    }
  }

  lemma NoSteps(s: Logger, max: nat, n: int)
    ensures AfterSteps(s, max, n, []) == Some(s)
  {
  }

  lemma WritesHand(s: Logger, max: nat, n: int)
    requires s.hand.Some?
    ensures Enabled(s, WriteHand)
    ensures var u := Next(s, max, n, WriteHand);
            && u.queue == s.queue && u.hand == None && u.written == s.written + [s.hand.value]
            && u.pushed == s.pushed && u.running == s.running && u.exited == s.exited
  {
    hide Write;
  }

  // A stop lets the worker write whatever is there and leave, wherever it is.
  lemma StopDrains(s: Logger, max: nat, n: int)
    requires !s.exited
    ensures exists steps, t ::
              AllOwn(steps) && AfterSteps(s, max, n, [StopLogger] + steps) == Some(t) && Drained(s, t)
  {
    var r := Next(s, max, n, StopLogger);
    hide Next, Enabled, AfterSteps;
    Stopped(s, max, n);
    var steps, t;
    if s.hand.Some? {
      WritesHand(r, max, n);
      var u := Next(r, max, n, WriteHand);
      var rest;
      rest, t := QueueDrains(u, max, n);
      FirstStep(r, max, n, WriteHand, rest);
      steps := [WriteHand] + rest;
      assert u.written + [] + u.queue == s.written + InHand(s) + s.queue;
    } else {
      steps, t := QueueDrains(r, max, n);
    }
    FirstStep(s, max, n, StopLogger, steps);
    assert AllOwn(steps) && AfterSteps(s, max, n, [StopLogger] + steps) == Some(t) && Drained(s, t);
  }

  lemma Stopped(s: Logger, max: nat, n: int)
    ensures Enabled(s, StopLogger) && Next(s, max, n, StopLogger) == s.(running := false)
  {
  }
}
