/** The rotating log writer: one active file, closed files behind it, and pruning. */
module LogWriter {
  import opened Seqs

  /** One record, and the bytes it takes. */
  datatype Line = Line(text: string, size: nat)

  /** File names carry minutes: when the file was opened, and when it was closed. */
  datatype Name = Active(start: nat) | Closed(start: nat, end: nat)

  datatype File = File(name: Name, lines: seq<Line>)

  /** What a rotation meets: the minutes of its two clock reads, whether the file
    * could be renamed, and which files could not be deleted. */
  datatype Clock = Clock(end: nat, restart: nat, renames: bool, locked: set<Name>)

  /** `dir` holds the files by last write, oldest first. */
  datatype State = State(dir: seq<File>, start: nat, bytes: nat)

  datatype Limits = Limits(maxBytes: nat, maxFiles: int)

  // ------------------------------------------------------------- file operations

  predicate Absent(dir: seq<File>, name: Name) {
    dir == [] || (Absent(dir[..|dir| - 1], name) && dir[|dir| - 1].name != name)
  }

  function Without(dir: seq<File>, name: Name): seq<File> {
    if dir == [] then []
    else
      Without(dir[..|dir| - 1], name) + if dir[|dir| - 1].name == name then [] else [dir[|dir| - 1]]
  }

  function LinesOf(dir: seq<File>, name: Name): seq<Line> {
    if dir == [] then []
    else if dir[|dir| - 1].name == name then dir[|dir| - 1].lines
    else LinesOf(dir[..|dir| - 1], name)
  }

  function Relabelled(dir: seq<File>, from: Name, to: Name): seq<File> {
    if dir == [] then []
    else
      var f := dir[|dir| - 1];
      Relabelled(dir[..|dir| - 1], from, to) + [if f.name == from then f.(name := to) else f]
  }

  /** A rename takes the place of a file that already has the name. */
  function Renamed(dir: seq<File>, from: Name, to: Name): seq<File> {
    Relabelled(Without(dir, to), from, to)
  }

  /** Opened for appending: created at the end unless it is there. */
  function Opened(dir: seq<File>, name: Name): seq<File> {
    if Absent(dir, name) then dir + [File(name, [])] else dir
  }

  function Appended(dir: seq<File>, name: Name, line: Line): seq<File> {
    Without(dir, name) + [File(name, LinesOf(dir, name) + [line])]
  }

  /** The oldest `excess` files gone, those in `stuck` skipped. */
  function Dropped(files: seq<File>, stuck: set<Name>, excess: int): seq<File> {
    if files == [] || excess <= 0 then files
    else if files[0].name in stuck then [files[0]] + Dropped(files[1..], stuck, excess)
    else Dropped(files[1..], stuck, excess - 1)
  }

  function Pruned(dir: seq<File>, active: Name, maxFiles: int, locked: set<Name>): seq<File> {
    if maxFiles <= 0 then dir else Dropped(dir, {active} + locked, |dir| - maxFiles)
  }

  /** The directory when a rotation is done, but for pruning. */
  function Rolled(s: State, c: Clock): seq<File> {
    Opened(if c.renames then Renamed(s.dir, Active(s.start), Closed(s.start, c.end)) else s.dir, Active(c.restart))
  }

  predicate Full(s: State, l: Limits, line: Line) {
    l.maxBytes > 0 && s.bytes + line.size > l.maxBytes
  }

  /** `write`: rotate first when the line does not fit. */
  function Written(s: State, l: Limits, line: Line, c: Clock): State {
    if Full(s, l, line)
    then
      var kept := Pruned(Rolled(s, c), Active(c.restart), l.maxFiles, c.locked);
      State(Appended(kept, Active(c.restart), line), c.restart, line.size)
    else State(Appended(s.dir, Active(s.start), line), s.start, s.bytes + line.size)
  }

  // ------------------------------------------------------------------- contents

  function All(dir: seq<File>): seq<Line> {
    if dir == [] then [] else All(dir[..|dir| - 1]) + dir[|dir| - 1].lines
  }

  function Size(lines: seq<Line>): nat {
    if lines == [] then 0 else Size(lines[..|lines| - 1]) + lines[|lines| - 1].size
  }

  /** Within the limit, or one oversized record alone. */
  predicate Fits(l: Limits, lines: seq<Line>) {
    l.maxBytes == 0 || |lines| <= 1 || Size(lines) <= l.maxBytes
  }

  predicate AllFit(l: Limits, dir: seq<File>) {
    dir == [] || (AllFit(l, dir[..|dir| - 1]) && Fits(l, dir[|dir| - 1].lines))
  }

  function Stamp(name: Name): nat {
    match name
    case Active(start) => start
    case Closed(_, end) => end
  }

  /** Distinct names, none of them later than `last`. */
  predicate Settled(dir: seq<File>, last: nat) {
    dir == [] ||
    (var init, f := dir[..|dir| - 1], dir[|dir| - 1];
     Settled(init, last) && Absent(init, f.name) && Stamp(f.name) <= last)
  }

  /** The active file is the last one; the files behind it were left by minute `last`. */
  predicate Inv(s: State, l: Limits, last: nat) {
    && s.dir != [] && s.dir[|s.dir| - 1].name == Active(s.start)
    && var rest := s.dir[..|s.dir| - 1];
    && Settled(rest, last) && Absent(rest, Active(s.start))
    && AllFit(l, s.dir)
    && s.bytes == Size(s.dir[|s.dir| - 1].lines)
  }

  lemma {:induction false} Snoc(dir: seq<File>, f: File, name: Name, to: Name, l: Limits, last: nat)
    ensures Absent(dir + [f], name) <==> Absent(dir, name) && f.name != name
    ensures Without(dir + [f], name) == Without(dir, name) + if f.name == name then [] else [f]
    ensures LinesOf(dir + [f], name) == if f.name == name then f.lines else LinesOf(dir, name)
    ensures Relabelled(dir + [f], name, to) ==
            Relabelled(dir, name, to) + [if f.name == name then f.(name := to) else f]
    ensures All(dir + [f]) == All(dir) + f.lines
    ensures AllFit(l, dir + [f]) <==> AllFit(l, dir) && Fits(l, f.lines)
    ensures Settled(dir + [f], last) <==> Settled(dir, last) && Absent(dir, f.name) && Stamp(f.name) <= last
  {
    assert (dir + [f])[..|dir + [f]| - 1] == dir;
  }

  lemma {:induction false} SizeSnoc(lines: seq<Line>, line: Line)
    ensures Size(lines + [line]) == Size(lines) + line.size
  {
    assert (lines + [line])[..|lines + [line]| - 1] == lines;
  }

  lemma {:induction false} NoFiles(name: Name, to: Name, l: Limits, last: nat)
    ensures Absent([], name) && Without([], name) == [] && LinesOf([], name) == [] && Relabelled([], name, to) == []
    ensures All([]) == [] && AllFit(l, []) && Settled([], last)
  {
  }

  lemma {:induction false} LastFile(dir: seq<File>)
    requires dir != []
    ensures dir == dir[..|dir| - 1] + [dir[|dir| - 1]]
  {
  }

  lemma {:induction false} AbsentMeans(dir: seq<File>, name: Name, to: Name)
    requires Absent(dir, name)
    ensures Without(dir, name) == dir && LinesOf(dir, name) == [] && Relabelled(dir, name, to) == dir
  {
    hide *;
    if dir == [] {
      NoFiles(name, to, Limits(0, 0), 0);
    } else {
      LastFile(dir);
      Snoc(dir[..|dir| - 1], dir[|dir| - 1], name, to, Limits(0, 0), 0);
      AbsentMeans(dir[..|dir| - 1], name, to);
    }
  }

  lemma {:induction false} SettledLater(dir: seq<File>, last: nat, later: nat, name: Name)
    requires Settled(dir, last) && last <= later
    ensures Settled(dir, later)
    ensures Stamp(name) > last ==> Absent(dir, name)
  {
    if dir != [] {
      SettledLater(dir[..|dir| - 1], last, later, name);
    }
  }

  // ------------------------------------------------------------------ one rotation

  lemma {:induction false} AppendToLast(rest: seq<File>, act: File, line: Line)
    requires Absent(rest, act.name)
    ensures Appended(rest + [act], act.name, line) == rest + [File(act.name, act.lines + [line])]
  {
    hide Without, LinesOf, Absent;
    Snoc(rest, act, act.name, act.name, Limits(0, 0), 0);
    AbsentMeans(rest, act.name, act.name);
    assert rest + [] == rest;
  }

  /** The rotation falls into a minute of its own, the file that was active does
    * not stay under the name of the new one, and old files can be deleted. */
  predicate Orderly(s: State, c: Clock, last: nat) {
    last < c.end && s.start <= c.end <= c.restart && (c.renames || c.restart != s.start) && c.locked == {}
  }

  /** What the rotation leaves behind the new active file. */
  function Behind(s: State, c: Clock): seq<File>
    requires s.dir != []
  {
    var act := s.dir[|s.dir| - 1];
    s.dir[..|s.dir| - 1] + [File(if c.renames then Closed(s.start, c.end) else act.name, act.lines)]
  }

  lemma {:induction false} RotationRolls(s: State, l: Limits, c: Clock, last: nat)
    requires Inv(s, l, last) && Orderly(s, c, last)
    ensures Rolled(s, c) == Behind(s, c) + [File(Active(c.restart), [])]
    ensures Settled(Behind(s, c), c.end) && Absent(Behind(s, c), Active(c.restart))
    ensures All(Behind(s, c)) == All(s.dir) && AllFit(l, Behind(s, c))
  {
    hide Without, LinesOf, Absent, Settled, All, AllFit, Relabelled;
    var rest, act := s.dir[..|s.dir| - 1], s.dir[|s.dir| - 1];
    var closed := Closed(s.start, c.end);
    assert s.dir == rest + [act];
    SettledLater(rest, last, c.end, closed);
    SettledLater(rest, last, c.end, Active(c.restart));
    AbsentMeans(rest, closed, closed);
    AbsentMeans(rest, act.name, closed);
    Snoc(rest, act, closed, closed, l, last);
    Snoc(rest, act, act.name, closed, l, last);
    Snoc(rest, File(if c.renames then closed else act.name, act.lines), Active(c.restart), closed, l, c.end);
  }

  // ---------------------------------------------------------------------- pruning

  lemma {:induction false} AbsentTail(dir: seq<File>, name: Name, last: nat, l: Limits, k: nat)
    requires k <= |dir|
    ensures Absent(dir, name) ==> Absent(dir[k..], name)
    ensures Settled(dir, last) ==> Settled(dir[k..], last)
    ensures AllFit(l, dir) ==> AllFit(l, dir[k..])
    ensures All(dir) == All(dir[..k]) + All(dir[k..])
  {
    hide *;
    NoFiles(name, name, l, last);
    if k == |dir| {
      assert dir[k..] == [] && dir[..k] == dir;
    } else {
      var init, f := dir[..|dir| - 1], dir[|dir| - 1];
      AbsentTail(init, name, last, l, k);
      AbsentTail(init, f.name, last, l, k);
      TailSnoc(dir, k);
      Snoc(init, f, name, name, l, last);
      Snoc(init[k..], f, name, name, l, last);
    }
  }

  lemma {:induction false} TailSnoc(dir: seq<File>, k: nat)
    requires k < |dir|
    ensures var init, f := dir[..|dir| - 1], dir[|dir| - 1];
            dir == init + [f] && dir[k..] == init[k..] + [f] && dir[..k] == init[..k]
  {
  }

  lemma {:induction false} FirstAbsent(dir: seq<File>, name: Name)
    requires dir != [] && Absent(dir, name)
    ensures dir[0].name != name && Absent(dir[1..], name)
  {
    AbsentTail(dir, name, 0, Limits(0, 0), 1);
    if |dir| > 1 {
      FirstAbsent(dir[..|dir| - 1], name);
    }
  }

  /** The files pruning may delete, and those it may not. */
  function Free(files: seq<File>, stuck: set<Name>): seq<File> {
    if files == [] then []
    else (if files[0].name in stuck then [] else [files[0]]) + Free(files[1..], stuck)
  }

  function Stuck(files: seq<File>, stuck: set<Name>): seq<File> {
    if files == [] then []
    else (if files[0].name in stuck then [files[0]] else []) + Stuck(files[1..], stuck)
  }

  /** Whatever the directory holds: the active file and the undeletable ones stay,
    * and of the others exactly the oldest go, as many as are too many. */
  lemma {:induction false} OldestFreeGo(files: seq<File>, stuck: set<Name>, excess: int)
    ensures var kept, free := Dropped(files, stuck, excess), Free(files, stuck);
            && Stuck(kept, stuck) == Stuck(files, stuck)
            && Free(kept, stuck) == free[if excess <= 0 then 0 else if excess <= |free| then excess else |free|..]
            && |kept| == |files| - if excess <= 0 then 0 else if excess <= |free| then excess else |free|
  {
    hide *;
    if files == [] || excess <= 0 {
      DropNone(files, stuck, excess);
      assert Free(files, stuck)[0..] == Free(files, stuck);
      NoneFree(stuck);
    } else {
      DropFirst(files, stuck, excess);
      OldestFreeGo(files[1..], stuck, if files[0].name in stuck then excess else excess - 1);
      var rest := Dropped(files[1..], stuck, if files[0].name in stuck then excess else excess - 1);
      SplitFirst(files[0], files[1..], stuck);
      SplitFirst(files[0], rest, stuck);
      assert files == [files[0]] + files[1..];
      if files[0].name !in stuck && excess <= |Free(files, stuck)| {
        NextTail(files[0], Free(files[1..], stuck), excess);
      }
    }
  }

  lemma {:induction false} NextTail(f: File, rest: seq<File>, k: nat)
    requires 0 < k <= |rest| + 1
    ensures ([f] + rest)[k..] == rest[k - 1..]
  {
  }

  lemma {:induction false} NoneFree(stuck: set<Name>)
    ensures Free([], stuck) == []
  {
  }

  lemma {:induction false} SplitFirst(f: File, rest: seq<File>, stuck: set<Name>)
    ensures Free([f] + rest, stuck) == (if f.name in stuck then [] else [f]) + Free(rest, stuck)
    ensures Stuck([f] + rest, stuck) == (if f.name in stuck then [f] else []) + Stuck(rest, stuck)
  {
    assert ([f] + rest)[1..] == rest;
  }

  lemma {:induction false} DropNone(files: seq<File>, stuck: set<Name>, excess: int)
    requires files == [] || excess <= 0
    ensures Dropped(files, stuck, excess) == files
  {
  }

  lemma {:induction false} DropFirst(files: seq<File>, stuck: set<Name>, excess: int)
    requires files != [] && excess > 0
    ensures Dropped(files, stuck, excess) ==
            if files[0].name in stuck then [files[0]] + Dropped(files[1..], stuck, excess)
            else Dropped(files[1..], stuck, excess - 1)
  {
  }


  /** With the active file last, pruning removes exactly the oldest files. */
  lemma {:induction false} DroppedAreOldest(rest: seq<File>, act: File, excess: int)
    requires Absent(rest, act.name) && excess <= |rest|
    ensures Dropped(rest + [act], {act.name}, excess) == if excess <= 0 then rest + [act] else rest[excess..] + [act]
  {
    hide *;
    if excess <= 0 {
      DropNone(rest + [act], {act.name}, excess);
    } else {
      FirstAbsent(rest, act.name);
      FirstGoes(rest, act, excess);
      DroppedAreOldest(rest[1..], act, excess - 1);
      if excess == 1 {
        DropNone(rest[1..], {act.name}, 0);
      }
    }
  }

  /** The first file goes, and what then goes from the rest is the next ones. */
  lemma {:induction false} FirstGoes(rest: seq<File>, act: File, excess: int)
    requires rest != [] && rest[0].name != act.name && 0 < excess <= |rest|
    ensures Dropped(rest + [act], {act.name}, excess) == Dropped(rest[1..] + [act], {act.name}, excess - 1)
    ensures rest[1..][excess - 1..] == rest[excess..]
    ensures excess == 1 ==> rest[1..] == rest[excess..]
  {
    hide Dropped;
    DropFirst(rest + [act], {act.name}, excess);
    assert (rest + [act])[1..] == rest[1..] + [act];
  }

  function Excess(files: nat, l: Limits): nat {
    if l.maxFiles <= 0 || files <= l.maxFiles then 0 else files - l.maxFiles
  }

  lemma {:induction false} PruneKeepsNewest(rest: seq<File>, act: File, l: Limits)
    requires Absent(rest, act.name)
    ensures Pruned(rest + [act], act.name, l.maxFiles, {}) == rest[Excess(|rest| + 1, l)..] + [act]
  {
    hide Absent, Dropped;
    assert {act.name} + {} == {act.name};
    if l.maxFiles > 0 {
      DroppedAreOldest(rest, act, |rest| + 1 - l.maxFiles);
    }
    assert rest[0..] == rest;
  }

  // --------------------------------------------------------------------- one write

  lemma {:induction false} PlainWrite(s: State, l: Limits, line: Line, last: nat)
    requires Inv(s, l, last) && (l.maxBytes > 0 ==> s.bytes + line.size <= l.maxBytes)
    ensures var a := State(Appended(s.dir, Active(s.start), line), s.start, s.bytes + line.size);
            && Inv(a, l, last) && All(a.dir) == All(s.dir) + [line] && |a.dir| == |s.dir|
  {
    hide Absent, Settled, AllFit, All, Appended, Size;
    var rest, act := s.dir[..|s.dir| - 1], s.dir[|s.dir| - 1];
    assert s.dir == rest + [act];
    AppendToLast(rest, act, line);
    SizeSnoc(act.lines, line);
    Snoc(rest, act, act.name, act.name, l, last);
    Snoc(rest, File(act.name, act.lines + [line]), act.name, act.name, l, last);
    assert (rest + [File(act.name, act.lines + [line])])[..|rest|] == rest;
    assert All(rest) + act.lines + [line] == All(rest) + (act.lines + [line]);
  }

  lemma {:induction false} RotatingWrite(s: State, l: Limits, line: Line, c: Clock, last: nat)
    requires Inv(s, l, last) && Full(s, l, line) && Orderly(s, c, last)
    ensures var a, k := Written(s, l, line, c), Excess(|s.dir| + 1, l);
            && Inv(a, l, c.end) && a.dir == Behind(s, c)[k..] + [File(Active(c.restart), [line])]
            && All(s.dir) + [line] == All(Behind(s, c)[..k]) + All(a.dir)
  {
    hide Absent, Settled, AllFit, All, Appended, Size, Pruned, Rolled, Inv;
    InvHasActive(s, l, last);
    var behind, young := Behind(s, c), File(Active(c.restart), []);
    var k := Excess(|s.dir| + 1, l);
    RotationRolls(s, l, c, last);
    PruneKeepsNewest(behind, young, l);
    AbsentTail(behind, young.name, c.end, l, k);
    AppendToLast(behind[k..], young, line);
    Snoc(behind[k..], File(young.name, [line]), young.name, young.name, l, c.end);
    OneLine(l, line);
    var a := Written(s, l, line, c);
    assert a.dir[..|a.dir| - 1] == behind[k..];
    FreshInv(a, l, line, c.end);
    assert All(behind[..k]) + All(behind[k..]) + [line] == All(behind[..k]) + (All(behind[k..]) + [line]);
  }

  lemma {:induction false} InvHasActive(s: State, l: Limits, last: nat)
    requires Inv(s, l, last)
    ensures s.dir != []
  {
  }

  lemma {:induction false} OneLine(l: Limits, line: Line)
    ensures Fits(l, [line]) && Size([line]) == line.size
  {
    SizeSnoc([], line);
    assert [] + [line] == [line];
  }

  lemma {:induction false} FreshInv(a: State, l: Limits, line: Line, last: nat)
    requires a.dir != [] && a.dir[|a.dir| - 1] == File(Active(a.start), [line])
    requires Settled(a.dir[..|a.dir| - 1], last) && Absent(a.dir[..|a.dir| - 1], Active(a.start))
    requires AllFit(l, a.dir) && a.bytes == line.size
    ensures Inv(a, l, last)
  {
    hide Absent, Settled, AllFit;
    OneLine(l, line);
  }

  /** Every write keeps the invariant; nothing is lost but what pruning takes from
    * the old end; and after a rotation at most `maxFiles` files remain. */
  lemma {:induction false} WriteKeeps(s: State, l: Limits, line: Line, c: Clock, last: nat)
    requires Inv(s, l, last) && (Full(s, l, line) ==> Orderly(s, c, last))
    ensures var a := Written(s, l, line, c);
            && Inv(a, l, if Full(s, l, line) then c.end else last)
            && (exists gone :: All(s.dir) + [line] == gone + All(a.dir))
            && (l.maxFiles <= 0 ==> All(a.dir) == All(s.dir) + [line])
            && (l.maxFiles > 0 ==> |a.dir| <= if Full(s, l, line) || |s.dir| <= l.maxFiles then l.maxFiles else |s.dir|)
  {
    hide Inv, All, Appended, Pruned, Rolled, Orderly, Absent;
    InvHasActive(s, l, last);
    if Full(s, l, line) {
      RotatingWrite(s, l, line, c, last);
      if l.maxFiles <= 0 {
        assert Behind(s, c)[..0] == [];
        NoFilesNoLines();
        assert [] + All(Written(s, l, line, c).dir) == All(Written(s, l, line, c).dir);
      }
    } else {
      PlainWrite(s, l, line, last);
      assert All(s.dir) + [line] == [] + (All(s.dir) + [line]);
    }
  }

  lemma {:induction false} NoFilesNoLines()
    ensures All([]) == []
  {
  }

  // -------------------------------------------------------------------- whole runs

  datatype Event = Event(line: Line, clock: Clock)

  function After(s: State, l: Limits, events: seq<Event>): State
    decreases |events|
  {
    if events == [] then s else After(Written(s, l, events[0].line, events[0].clock), l, events[1..])
  }

  /** Rotations fall into distinct minutes. */
  predicate OrderlyRun(s: State, l: Limits, events: seq<Event>, last: nat)
    decreases |events|
  {
    events == [] ||
    (var e := events[0];
     var full := Full(s, l, e.line);
     (full ==> Orderly(s, e.clock, last)) &&
     OrderlyRun(Written(s, l, e.line, e.clock), l, events[1..], if full then e.clock.end else last))
  }

  function LinesIn(events: seq<Event>): seq<Line> {
    if events == [] then [] else [events[0].line] + LinesIn(events[1..])
  }

  /** Over a whole run the files, oldest first, hold exactly the newest of the
    * written records in order (all of them when pruning is off), no file exceeds
    * the limit unless it holds a single record, and the active file is there. */
  lemma {:induction false} RunsConserve(s: State, l: Limits, events: seq<Event>, last: nat)
    requires Inv(s, l, last) && OrderlyRun(s, l, events, last)
    ensures var a := After(s, l, events);
            && (forall f :: f in a.dir ==> l.maxBytes == 0 || |f.lines| <= 1 || Size(f.lines) <= l.maxBytes)
            && a.dir != [] && a.dir[|a.dir| - 1].name == Active(a.start)
            && (exists gone :: All(s.dir) + LinesIn(events) == gone + All(a.dir))
            && (l.maxFiles <= 0 ==> All(a.dir) == All(s.dir) + LinesIn(events))
            && (l.maxFiles > 0 && |s.dir| <= l.maxFiles ==> |a.dir| <= l.maxFiles)
    decreases |events|
  {
    hide All, Written, Orderly, Absent, AllFit, Settled, Size, Full;
    if events == [] {
      AllFitMeans(l, s.dir);
      assert All(s.dir) + [] == [] + All(s.dir);
      assert All(s.dir) + [] == All(s.dir);
    } else {
      var e := events[0];
      var b := Written(s, l, e.line, e.clock);
      var rest := LinesIn(events[1..]);
      WriteKeeps(s, l, e.line, e.clock, last);
      RunsConserve(b, l, events[1..], if Full(s, l, e.line) then e.clock.end else last);
      var a := After(b, l, events[1..]);
      var g :| All(s.dir) + [e.line] == g + All(b.dir);
      var h :| All(b.dir) + rest == h + All(a.dir);
      Chain(All(s.dir), e.line, rest, g, All(b.dir), h, All(a.dir));
    }
  }

  lemma {:induction false} AllFitMeans(l: Limits, dir: seq<File>)
    ensures AllFit(l, dir) <==>
            forall f :: f in dir ==> l.maxBytes == 0 || |f.lines| <= 1 || Size(f.lines) <= l.maxBytes
  {
    hide Size;
    if dir != [] {
      AllFitMeans(l, dir[..|dir| - 1]);
      assert dir == dir[..|dir| - 1] + [dir[|dir| - 1]];
    }
  }

  lemma {:induction false} Chain(x: seq<Line>, line: Line, rest: seq<Line>, g: seq<Line>, b: seq<Line>, h: seq<Line>,
                                 a: seq<Line>)
    requires x + [line] == g + b && b + rest == h + a
    ensures x + ([line] + rest) == (g + h) + a
    ensures x + [line] + rest == x + ([line] + rest)
  {
    assert x + ([line] + rest) == (x + [line]) + rest;
    assert (g + b) + rest == g + (b + rest);
    assert g + (h + a) == (g + h) + a;
  }

  // -------------------------------------------------------- a write, file by file

  /** A record that fits goes to the end of the active file. One that does not starts a
    * new file: the active one is closed, under its end minute if it could be renamed,
    * and of the files then there the newest `maxFiles` stay. */
  ghost predicate Stores(s: State, l: Limits, line: Line, c: Clock, a: State)
    requires s.dir != []
  {
    var rest, act := s.dir[..|s.dir| - 1], s.dir[|s.dir| - 1];
    if l.maxBytes == 0 || s.bytes + line.size <= l.maxBytes
    then
      a == State(rest + [File(Active(s.start), act.lines + [line])], s.start, s.bytes + line.size)
    else
      var closed := File(if c.renames then Closed(s.start, c.end) else Active(s.start), act.lines);
      var all := rest + [closed] + [File(Active(c.restart), [line])];
      && a.start == c.restart && a.bytes == line.size
      && a.dir == if l.maxFiles <= 0 || |all| <= l.maxFiles then all else all[|all| - l.maxFiles..]
  }

  lemma {:induction false} WriteStores(s: State, l: Limits, line: Line, c: Clock, last: nat)
    requires Inv(s, l, last)
    requires l.maxBytes > 0 && s.bytes + line.size > l.maxBytes ==>
               last < c.end && s.start <= c.end <= c.restart && (c.renames || c.restart != s.start) && c.locked == {}
    ensures Stores(s, l, line, c, Written(s, l, line, c))
  {
    hide Absent, Settled, AllFit, All, Appended, Size, Pruned, Rolled;
    if l.maxBytes == 0 || s.bytes + line.size <= l.maxBytes {
      var rest, act := s.dir[..|s.dir| - 1], s.dir[|s.dir| - 1];
      assert s.dir == rest + [act];
      AppendToLast(rest, act, line);
    } else {
      RotatingWrite(s, l, line, c, last);
      KeptEnd(Behind(s, c), File(Active(c.restart), [line]), Excess(|s.dir| + 1, l));
    }
  }

  lemma {:induction false} KeptEnd(rest: seq<File>, f: File, k: nat)
    requires k <= |rest|
    ensures (rest + [f])[k..] == rest[k..] + [f] && rest[0..] == rest
  {
  }

  /** No file has the name; and the records under a name are those of the newest file
    * that has it. */
  lemma {:induction false} NamesMean(dir: seq<File>, name: Name)
    ensures Absent(dir, name) <==> forall f :: f in dir ==> f.name != name
    ensures forall i :: 0 <= i < |dir| && dir[i].name == name && (forall j :: i < j < |dir| ==> dir[j].name != name) ==>
                          LinesOf(dir, name) == dir[i].lines
  {
    if dir != [] {
      var init, f := dir[..|dir| - 1], dir[|dir| - 1];
      NamesMean(init, name);
      assert dir == init + [f];
      forall i | 0 <= i < |dir| && dir[i].name == name && (forall j :: i < j < |dir| ==> dir[j].name != name)
        ensures LinesOf(dir, name) == dir[i].lines
      {
        if i < |init| {
          assert init[i] == dir[i];
          forall j | i < j < |init| ensures init[j].name != name {
            assert init[j] == dir[j];
          }
          assert dir[|init|].name != name;
        }
      }
    }
  }

  /** A rename: the new name has what the old one had, the old one is gone, and no other
    * name is touched. */
  lemma {:induction false} RenameMeans(dir: seq<File>, from: Name, to: Name, name: Name)
    requires from != to
    ensures var after := Renamed(dir, from, to);
            && Absent(after, from)
            && (Absent(after, to) <==> Absent(dir, from)) && LinesOf(after, to) == LinesOf(dir, from)
            && (name != from && name != to ==>
                  (Absent(after, name) <==> Absent(dir, name)) && LinesOf(after, name) == LinesOf(dir, name))
  {
    hide *;
    if dir == [] {
      RenamedEmpty(from, to, name);
    } else {
      var init, f := dir[..|dir| - 1], dir[|dir| - 1];
      LastFile(dir);
      RenameMeans(init, from, to, name);
      RenameSnoc(init, f, from, to);
      assert Renamed(init, from, to) + [] == Renamed(init, from, to);
      RenameStep(init, f, from, to, from);
      RenameStep(init, f, from, to, to);
      RenameStep(init, f, from, to, name);
    }
  }

  lemma {:induction false} RenameStep(init: seq<File>, f: File, from: Name, to: Name, name: Name)
    ensures var g := if f.name == from then f.(name := to) else f;
            var r := Renamed(init, from, to);
            && (Absent(init + [f], name) <==> Absent(init, name) && f.name != name)
            && LinesOf(init + [f], name) == (if f.name == name then f.lines else LinesOf(init, name))
            && (Absent(r + [g], name) <==> Absent(r, name) && g.name != name)
            && LinesOf(r + [g], name) == if g.name == name then g.lines else LinesOf(r, name)
  {
    hide *;
    var g := if f.name == from then f.(name := to) else f;
    Snoc(init, f, name, name, Limits(0, 0), 0);
    Snoc(Renamed(init, from, to), g, name, name, Limits(0, 0), 0);
  }

  lemma {:induction false} RenameSnoc(init: seq<File>, f: File, from: Name, to: Name)
    requires from != to
    ensures Renamed(init + [f], from, to) ==
            Renamed(init, from, to) + if f.name == to then [] else [if f.name == from then f.(name := to) else f]
  {
    hide Without, Relabelled;
    Snoc(init, f, to, to, Limits(0, 0), 0);
    Snoc(Without(init, to), f, from, to, Limits(0, 0), 0);
    assert Without(init, to) + [] == Without(init, to);
    assert Renamed(init, from, to) + [] == Renamed(init, from, to);
  }

  lemma {:induction false} RenamedEmpty(from: Name, to: Name, name: Name)
    ensures Renamed([], from, to) == [] && Absent([], name) && Absent([], from) && Absent([], to)
    ensures LinesOf([], name) == [] && LinesOf([], from) == [] && LinesOf([], to) == []
  {
  }

  // ------------------------------------------------------------------- a collision

  lemma {:induction false} RemovedLines(dir: seq<File>, name: Name, last: nat)
    requires Settled(dir, last)
    ensures |All(Without(dir, name))| == |All(dir)| - |LinesOf(dir, name)|
    ensures LinesOf(dir, name) == [] ==> All(Without(dir, name)) == All(dir)
  {
    hide *;
    NoFiles(name, name, Limits(0, 0), last);
    if dir != [] {
      var init, f := dir[..|dir| - 1], dir[|dir| - 1];
      LastFile(dir);
      Snoc(init, f, name, name, Limits(0, 0), last);
      RemovedLines(init, name, last);
      Snoc(Without(init, name), f, name, name, Limits(0, 0), last);
      if f.name == name {
        AbsentMeans(init, name, name);
        assert init + [] == init;
      }
    }
  }

  /** Two rotations of files opened in the same minute, in the same minute: the
    * rename replaces the earlier file, and records are lost exactly when it held any. */
  lemma {:induction false} RotationLosesIff(s: State, l: Limits, c: Clock, last: nat)
    requires Inv(s, l, last) && c.renames && Absent(s.dir[..|s.dir| - 1], Active(c.restart))
    ensures All(Rolled(s, c)) == All(s.dir) <==> LinesOf(s.dir[..|s.dir| - 1], Closed(s.start, c.end)) == []
  {
    hide Without, LinesOf, Absent, Settled, All, AllFit, Relabelled, Size;
    var rest, act, closed := s.dir[..|s.dir| - 1], s.dir[|s.dir| - 1], Closed(s.start, c.end);
    assert s.dir == rest + [act];
    var kept := Without(rest, closed);
    Snoc(rest, act, closed, closed, l, last);
    StillAbsent(rest, closed, act.name);
    StillAbsent(rest, closed, Active(c.restart));
    Snoc(kept, act, act.name, closed, l, last);
    AbsentMeans(kept, act.name, closed);
    var moved := kept + [File(closed, act.lines)];
    Snoc(kept, File(closed, act.lines), Active(c.restart), closed, l, last);
    Snoc(moved, File(Active(c.restart), []), closed, closed, l, last);
    RemovedLines(rest, closed, last);
    assert All(kept) + act.lines + [] == All(kept) + act.lines;
    if LinesOf(rest, closed) != [] {
      assert |All(kept) + act.lines| < |All(rest) + act.lines|;
    }
  }

  lemma {:induction false} StillAbsent(dir: seq<File>, gone: Name, name: Name)
    requires Absent(dir, name)
    ensures Absent(Without(dir, gone), name)
  {
    hide *;
    NoFiles(gone, gone, Limits(0, 0), 0);
    NoFiles(name, name, Limits(0, 0), 0);
    if dir != [] {
      var init, f := dir[..|dir| - 1], dir[|dir| - 1];
      LastFile(dir);
      Snoc(init, f, gone, gone, Limits(0, 0), 0);
      Snoc(init, f, name, name, Limits(0, 0), 0);
      StillAbsent(init, gone, name);
      Snoc(Without(init, gone), f, name, name, Limits(0, 0), 0);
      assert Without(init, gone) + [] == Without(init, gone);
    }
  }

  // -------------------------------------------------------------------- the writer

  /** The file is active, or it cannot be deleted. */
  function Stays(active: Name, locked: set<Name>): File -> bool {
    (f: File) => f.name == active || f.name in locked
  }

  /** Files go from the old end, those that must stay skipped, until no more than
    * `maxFiles` are left or none is left that may go. */
  ghost predicate Prunes(dir: seq<File>, active: Name, maxFiles: int, locked: set<Name>, after: seq<File>) {
    if maxFiles <= 0 || |dir| <= maxFiles then after == dir
    else
      exists cut: nat, early ::
        && cut <= |dir| && after == early + dir[cut..]
        && Keeps(Stays(active, locked), dir[..cut], early)
        && |after| >= maxFiles && (cut < |dir| ==> |after| == maxFiles)
  }

  class RotatingWriter {
    var dir: seq<File>
    var start: nat
    var current: Name
    var bytes: nat
    const limits: Limits

    ghost function View(): State
      reads this
    {
      State(dir, start, bytes)
    }

    ghost predicate Valid()
      reads this
    {
      current == Active(start)
    }

    /** The active file is opened for appending, and its bytes are counted from zero. */
    constructor (before: seq<File>, limits: Limits, now: nat)
      ensures Valid() && this.limits == limits
      ensures View() == State(Opened(before, Active(now)), now, 0)
    {
      this.limits, start, current, bytes := limits, now, Active(now), 0;
      dir := Opened(before, Active(now));
    }

    /** `_prune_old_files`. */
    method PruneOldFiles(locked: set<Name>)
      requires Valid()
      modifies this`dir
      ensures dir == Pruned(old(dir), current, limits.maxFiles, locked)
      ensures Prunes(old(dir), current, limits.maxFiles, locked, dir)
    {
      hide Keeps;
      if limits.maxFiles <= 0 {
        return;
      }
      var files := dir;
      var excess := |files| - limits.maxFiles;
      if excess <= 0 {
        DropNone(files, {current} + locked, excess);
        return;
      }
      ghost var stuck := {current} + locked;
      ghost var stays := Stays(current, locked);
      var kept: seq<File> := [];
      var i := 0;
      KeepsNone(stays);
      while i < |files| && excess > 0
        invariant i <= |files| && excess >= 0 && |kept| + |files| - i == limits.maxFiles + excess
        invariant Keeps(stays, files[..i], kept)
        invariant kept + Dropped(files[i..], stuck, excess) == Dropped(files, stuck, |files| - limits.maxFiles)
      {
        PruneStep(kept, files, i, stuck, excess);
        TakeNext(files, i);
        KeepsNext(stays, files[..i], kept, files[i]);
        if files[i].name == current || files[i].name in locked {
          kept := kept + [files[i]];
        } else {
          excess := excess - 1;
        }
        i := i + 1;
      }
      DropNone(files[i..], stuck, excess);
      dir := kept + files[i..];
    }

    /** `_rotate`. */
    method Rotate(c: Clock)
      requires Valid()
      modifies this
      ensures Valid() && start == c.restart && bytes == 0
      ensures dir == Pruned(Rolled(old(View()), c), Active(c.restart), limits.maxFiles, c.locked)
    {
      if c.renames {
        dir := Renamed(dir, current, Closed(start, c.end));
      }
      start := c.restart;
      current := Active(start);
      dir := Opened(dir, current);
      bytes := 0;
      PruneOldFiles(c.locked);
    }

    method Write(line: Line, c: Clock)
      requires Valid()
      modifies this
      ensures Valid() && View() == Written(old(View()), limits, line, c)
      ensures forall last: nat ::
                && Inv(old(View()), limits, last)
                && (limits.maxBytes > 0 && old(bytes) + line.size > limits.maxBytes ==>
                      && last < c.end && old(start) <= c.end <= c.restart
                      && (c.renames || c.restart != old(start)) && c.locked == {}) ==>
                  Stores(old(View()), limits, line, c, View())
    {
      hide Appended, Renamed, Opened, Pruned, Stores, Inv;
      ghost var before := View();
      forall last: nat
        | && Inv(before, limits, last)
          && (limits.maxBytes > 0 && before.bytes + line.size > limits.maxBytes ==>
                && last < c.end && before.start <= c.end <= c.restart
                && (c.renames || c.restart != before.start) && c.locked == {})
        ensures before.dir != [] && Stores(before, limits, line, c, Written(before, limits, line, c))
      {
        InvHasActive(before, limits, last);
        WriteStores(before, limits, line, c, last);
      }
      if limits.maxBytes > 0 && bytes + line.size > limits.maxBytes {
        Rotate(c);
      }
      dir := Appended(dir, current, line);
      bytes := bytes + line.size;
    }

    /** `close`: the active file gets its end minute. */
    method Close(c: Clock)
      requires Valid()
      modifies this`dir
      ensures dir == if c.renames then Renamed(old(dir), Active(start), Closed(start, c.end)) else old(dir)
    {
      if c.renames {
        dir := Renamed(dir, current, Closed(start, c.end));
      }
    }
  }

  lemma {:induction false} PruneStep(kept: seq<File>, files: seq<File>, i: nat, stuck: set<Name>, excess: int)
    requires i < |files| && excess > 0
    ensures kept + Dropped(files[i..], stuck, excess) ==
            if files[i].name in stuck then kept + [files[i]] + Dropped(files[i + 1..], stuck, excess)
            else kept + Dropped(files[i + 1..], stuck, excess - 1)
  {
    assert files[i..][0] == files[i] && files[i..][1..] == files[i + 1..];
    assert kept + ([files[i]] + Dropped(files[i + 1..], stuck, excess)) ==
           kept + [files[i]] + Dropped(files[i + 1..], stuck, excess);
  }

  /** A new session starts in order when no file is named for its minute or later. */
  lemma {:induction false} NewSessionInv(before: seq<File>, l: Limits, now: nat, last: nat)
    requires Settled(before, last) && AllFit(l, before) && last < now
    ensures Inv(State(Opened(before, Active(now)), now, 0), l, last)
  {
    hide Settled, AllFit, Absent;
    SettledLater(before, last, last, Active(now));
    Snoc(before, File(Active(now), []), Active(now), Active(now), l, last);
    assert (before + [File(Active(now), [])])[..|before|] == before;
  }
}
