/**
Recovery over whole runs: whatever sequence of requests a file system served, failed ones included,
replaying its log rebuilds its tree.
*/
module Replay {
  import opened Bytes
  import opened Options
  import opened Text
  import opened LogCodec
  import opened Inodes
  import opened FileOps
  import opened MemFs

  /** One request: the operation, the handle it comes with, and what the allocator leaves in fresh bytes. */
  datatype Request = Request(op: Op, handle: Handle, heap: nat -> Byte)

  ghost function Next(t: Table, r: Request): (u: Table)
    requires WellFormed(t)
    ensures WellFormed(u)
  {
    TreeClosed(t);
    ExecKeeps(t, r.op, r.handle, r.heap);
    Exec(t, r.op, r.handle, r.heap).0
  }

  ghost predicate Succeeds(t: Table, r: Request)
    requires WellFormed(t)
  {
    TreeClosed(t);
    Exec(t, r.op, r.handle, r.heap).1 >= 0
  }

  /** The tree after a run of requests. */
  ghost function After(t: Table, rs: seq<Request>): (u: Table)
    requires WellFormed(t)
    ensures WellFormed(u)
    decreases |rs|
  {
    if rs == [] then t else After(Next(t, rs[0]), rs[1..])
  }

  /** The operations of a run that succeed. */
  ghost function Succeeded(t: Table, rs: seq<Request>): seq<Op>
    requires WellFormed(t)
    decreases |rs|
  {
    if rs == [] then []
    else (if Succeeds(t, rs[0]) then [rs[0].op] else []) + Succeeded(Next(t, rs[0]), rs[1..])
  }

  function Records(ops: seq<Op>): (rs: seq<string>)
    ensures |rs| == |ops|
  {
    if ops == [] then [] else [Print(ops[0])] + Records(ops[1..])
  }

  /** The record of the operation is read back, and it leaves no gap behind the end of its file. */
  ghost predicate Kept(t: Table, op: Op)
    requires Closed(t)
  {
    Representable(op) && Readable(op) && GapFree(t, op)
  }

  /** Every operation that succeeds is kept by the log. */
  ghost predicate Recoverable(t: Table, rs: seq<Request>)
    requires WellFormed(t)
    decreases |rs|
  {
    TreeClosed(t);
    rs != [] ==> (Succeeds(t, rs[0]) ==> Kept(t, rs[0].op)) && Recoverable(Next(t, rs[0]), rs[1..])
  }

  /** The replay carries out the operations that the lines stand for. */
  lemma {:induction false} OpsReplay(t: Table, lines: seq<string>, op: Op, heap: nat -> Byte)
    requires WellFormed(t) && Closed(t)
    ensures Ops(lines) == Some([]) ==> ReplayLines(t, lines, heap) == Some(t)
    ensures Ops(lines) == Some([op]) ==> ReplayLines(t, lines, heap) == Some(Exec(t, op, NoHandle, heap).0)
    decreases |lines|
  {
    if lines != [] {
      hide WellFormed, Closed, Exec, Parse;
      match Parse(lines[0]) {
        case Skip => OpsReplay(t, lines[1..], op, heap);
        case Wild(_) => {}
        case Do(o) =>
          ExecKeeps(t, o, NoHandle, heap);
          if Ops(lines) == Some([op]) {
            assert [op][0] == o && [op][1..] == [];
            OpsReplay(Exec(t, o, NoHandle, heap).0, lines[1..], op, heap);
          }
      }
    }
  }

  lemma {:induction false} ReplaySplit(t: Table, a: seq<string>, b: seq<string>, heap: nat -> Byte)
    requires WellFormed(t)
    ensures ReplayLines(t, a + b, heap) ==
      match ReplayLines(t, a, heap) case None => None case Some(u) => ReplayLines(u, b, heap)
    decreases |a|
  {
    if a == [] {
      assert a + b == b;
    } else {
      assert (a + b)[0] == a[0] && (a + b)[1..] == a[1..] + b;
      TreeClosed(t);
      hide WellFormed, Closed, Exec, Parse;
      match Parse(a[0]) {
        case Skip => ReplaySplit(t, a[1..], b, heap);
        case Wild(_) => {}
        case Do(op) =>
          ExecKeeps(t, op, NoHandle, heap);
          ReplaySplit(Exec(t, op, NoHandle, heap).0, a[1..], b, heap);
      }
    }
  }

  /** Replaying the record of a successful operation does again what the operation did. */
  lemma RecordReplays(t: Table, r: Request, heap: nat -> Byte)
    requires WellFormed(t) && Closed(t) && Succeeds(t, r) && Kept(t, r.op)
    ensures ReplayLines(t, Lines(Print(r.op), LINE_SIZE), heap) == Some(Next(t, r))
  {
    hide WellFormed, Closed, Exec, Ops, Lines, Print, Readable, Representable, GapFree, ReplayLines;
    OpsReplay(t, Lines(Print(r.op), LINE_SIZE), r.op, heap);
    if r.op.Write? && r.op.data == [] {
      ReadableWords(r.op);
      EmptyRecord(r.op);
      EmptyWrite(t, r.op, r.handle, r.heap);
    } else {
      ReadBackExactly(r.op);
      SameAgain(t, r.op, r.handle, r.heap, heap);
    }
  }

  lemma ReadableWords(op: Op)
    requires Readable(op)
    ensures Wordy(op) && |op.path| < PATH_SIZE
  {
  }

  /** The text of the log after a run. */
  ghost function LogText(t: Table, rs: seq<Request>): string
    requires WellFormed(t)
  {
    Concat(Records(Succeeded(t, rs)))
  }

  lemma LogFirst(t: Table, rs: seq<Request>)
    requires WellFormed(t) && rs != []
    ensures LogText(t, rs) == (if Succeeds(t, rs[0]) then Print(rs[0].op) else "") + LogText(Next(t, rs[0]), rs[1..])
  {
    var ops, later := Succeeded(t, rs), Succeeded(Next(t, rs[0]), rs[1..]);
    hide WellFormed, Next, Succeeds, Print;
    if Succeeds(t, rs[0]) {
      assert ops[0] == rs[0].op && ops[1..] == later;
    } else {
      assert ops == later;
    }
  }

  lemma RecordNewline(op: Op)
    requires Readable(op) && Representable(op)
    ensures Print(op) != "" && Print(op)[|Print(op)| - 1] == '\n'
  {
    RecordEnds(op);
  }

  /** Recovery from the log of any run gives the tree in which the run ended. */
  lemma {:induction false} Recovery(t: Table, rs: seq<Request>, heap: nat -> Byte)
    requires WellFormed(t) && Recoverable(t, rs)
    ensures ReplayLines(t, Lines(LogText(t, rs), LINE_SIZE), heap) == Some(After(t, rs))
    decreases |rs|
  {
    if rs == [] {
      assert LogText(t, rs) == "" && Lines("", LINE_SIZE) == [];
    } else {
      TreeClosed(t);
      Unrolled(t, rs);
      var u := Next(t, rs[0]);
      hide WellFormed, Closed, Next, Succeeds, After, Succeeded, Recoverable, Kept, Print, Lines, LogText, ReplayLines;
      Recovery(u, rs[1..], heap);
      LogFirst(t, rs);
      if Succeeds(t, rs[0]) {
        KeptNewline(t, rs[0].op);
        LinesApart(Print(rs[0].op), LogText(u, rs[1..]), LINE_SIZE);
        RecordReplays(t, rs[0], heap);
        ReplaySplit(t, Lines(Print(rs[0].op), LINE_SIZE), Lines(LogText(u, rs[1..]), LINE_SIZE), heap);
      } else {
        assert "" + LogText(u, rs[1..]) == LogText(u, rs[1..]);
        NoChange(t, rs[0]);
      }
    }
  }

  lemma KeptNewline(t: Table, op: Op)
    requires Closed(t) && Kept(t, op)
    ensures Print(op) != "" && Print(op)[|Print(op)| - 1] == '\n'
  {
    hide Readable, Representable, Print, GapFree;
    RecordNewline(op);
  }

  lemma NoChange(t: Table, r: Request)
    requires WellFormed(t) && !Succeeds(t, r)
    ensures Next(t, r) == t
  {
    TreeClosed(t);
    hide Exec;
    FailureChangesNothing(t, r.op, r.handle, r.heap);
  }

  /** The first `m` records of a log are the log of a first part of the run. */
  lemma {:induction false} PrefixOfRun(t: Table, rs: seq<Request>, m: nat) returns (n: nat)
    requires WellFormed(t) && Recoverable(t, rs) && m <= |Succeeded(t, rs)|
    ensures n <= |rs| && Recoverable(t, rs[..n]) && Succeeded(t, rs[..n]) == Succeeded(t, rs)[..m]
    decreases |rs|
  {
    hide Next, Succeeds, After, Succeeded, Recoverable, WellFormed;
    if m == 0 {
      NothingYet(t, rs);
      return 0;
    }
    SomeLeft(t, rs);
    var u := Next(t, rs[0]);
    Unrolled(t, rs);
    n := PrefixOfRun(u, rs[1..], if Succeeds(t, rs[0]) then m - 1 else m);
    n := n + 1;
    assert rs[..n][0] == rs[0] && rs[..n][1..] == rs[1..][..n - 1];
    Unrolled(t, rs[..n]);
  }

  lemma SomeLeft(t: Table, rs: seq<Request>)
    requires WellFormed(t) && Succeeded(t, rs) != []
    ensures rs != []
  {
  }

  lemma NothingYet(t: Table, rs: seq<Request>)
    requires WellFormed(t)
    ensures Recoverable(t, rs[..0]) && After(t, rs[..0]) == t && Succeeded(t, rs[..0]) == []
  {
  }

  lemma Unrolled(t: Table, rs: seq<Request>)
    requires WellFormed(t) && rs != []
    ensures WellFormed(Next(t, rs[0]))
    ensures After(t, rs) == After(Next(t, rs[0]), rs[1..])
    ensures Succeeded(t, rs) == (if Succeeds(t, rs[0]) then [rs[0].op] else []) + Succeeded(Next(t, rs[0]), rs[1..])
    ensures Closed(t)
    ensures Recoverable(t, rs) <==>
      (Succeeds(t, rs[0]) ==> Kept(t, rs[0].op)) && Recoverable(Next(t, rs[0]), rs[1..])
  {
    TreeClosed(t);
    hide Next, Succeeds, Kept, Closed;
  }

  /** Whatever whole records of the log survive from its start, recovery gives the tree as it was after
      the requests they stand for. */
  lemma PrefixRecovery(t: Table, rs: seq<Request>, m: nat, heap: nat -> Byte) returns (n: nat)
    requires WellFormed(t) && Recoverable(t, rs) && m <= |Succeeded(t, rs)|
    ensures n <= |rs| && Succeeded(t, rs[..n]) == Succeeded(t, rs)[..m]
    ensures ReplayLines(t, Lines(Concat(Records(Succeeded(t, rs)[..m])), LINE_SIZE), heap) == Some(After(t, rs[..n]))
  {
    n := PrefixOfRun(t, rs, m);
    Recovery(t, rs[..n], heap);
  }

  // ---- The same for the file system as it runs ----

  lemma {:induction false} AfterSnoc(t: Table, rs: seq<Request>, r: Request)
    requires WellFormed(t)
    ensures After(t, rs + [r]) == Next(After(t, rs), r)
    ensures Succeeded(t, rs + [r]) == Succeeded(t, rs) + if Succeeds(After(t, rs), r) then [r.op] else []
    decreases |rs|
  {
    hide Next, Succeeds, After, Succeeded, Recoverable, WellFormed;
    Unrolled(t, rs + [r]);
    if rs == [] {
      NothingYet(t, rs);
      NothingYet(Next(t, r), rs);
      assert rs[..0] == rs && rs + [r] == [r] && [r][1..] == rs;
    } else {
      Unrolled(t, rs);
      assert (rs + [r])[0] == rs[0] && (rs + [r])[1..] == rs[1..] + [r];
      AfterSnoc(Next(t, rs[0]), rs[1..], r);
    }
  }

  lemma {:induction false} RecordsSnoc(ops: seq<Op>, op: Op)
    ensures Records(ops + [op]) == Records(ops) + [Print(op)]
  {
    if ops == [] {
      assert ops + [op] == [op] && [op][1..] == [];
    } else {
      assert (ops + [op])[1..] == ops[1..] + [op];
      RecordsSnoc(ops[1..], op);
    }
  }

  lemma LogSnoc(t: Table, rs: seq<Request>, r: Request)
    requires WellFormed(t)
    ensures LogText(t, rs + [r]) == LogText(t, rs) + if Succeeds(After(t, rs), r) then Print(r.op) else ""
  {
    AfterSnoc(t, rs, r);
    var ops := Succeeded(t, rs);
    if Succeeds(After(t, rs), r) {
      RecordsSnoc(ops, r.op);
      ConcatSnoc(Records(ops), Print(r.op));
    } else {
      assert ops + [] == ops;
      assert LogText(t, rs) + "" == LogText(t, rs);
    }
  }

  /** The tree with nothing but its root. */
  ghost function Empty(): (t: Table)
    ensures WellFormed(t) && t == [Root()]
  {
    RootWellFormed();
    [Root()]
  }

  method ServeOne(fs: FileSystem, r: Request)
    requires fs.Valid() && !fs.isReplaying
    modifies fs`inodes, fs`log
    ensures fs.Valid() && fs.inodes == Next(old(fs.inodes), r)
    ensures fs.log == old(fs.log) + if old(Succeeds(fs.inodes, r)) then Print(r.op) else ""
  {
    var e;
    TreeClosed(fs.inodes);
    hide WellFormed, Closed, Print, FileOps.Make, FileOps.Store, Or;
    match r.op {
      case Mkdir(path, mode) => e := fs.Mkdir(path, mode);
      case Mknod(path, mode) => e := fs.Mknod(path, mode);
      case Write(path, offset, data) => e := fs.Write(path, data, offset, r.handle, r.heap);
      case Symlink(path, target) => e := fs.Symlink(target, path);
    }
  }

  /** A file system that serves requests, and one that is mounted afterwards on the log it left: both hold
      the same tree, and the log is the same. */
  method ServeAndRemount(rs: seq<Request>, heap: nat -> Byte) returns (served: FileSystem, remounted: FileSystem)
    requires Recoverable(Empty(), rs)
    ensures served.Valid() && remounted.Valid()
    ensures remounted.inodes == served.inodes && remounted.log == served.log
    ensures served.inodes == After(Empty(), rs)
  {
    ghost var t := Empty();
    hide WellFormed, Closed, After, Next, Recoverable, ReplayLines, Succeeds;
    NothingYet(t, rs);
    served := new FileSystem("");
    for i := 0 to |rs|
      invariant fresh(served) && served.Valid() && !served.isReplaying
      invariant served.inodes == After(t, rs[..i]) && served.log == LogText(t, rs[..i])
    {
      LogSnoc(t, rs[..i], rs[i]);
      AfterSnoc(t, rs[..i], rs[i]);
      assert rs[..i + 1] == rs[..i] + [rs[i]];
      ServeOne(served, rs[i]);
    }
    assert rs[..|rs|] == rs;
    remounted := new FileSystem(served.log);
    Recovery(t, rs, heap);
    var defined := remounted.Mount(heap);
  }
}
