/**
What each file system request does to the inode tree, and what it answers.
*/
module FileOps {
  import opened Bytes
  import opened Options
  import opened Inodes
  import opened LogCodec

  const ENOENT: int := 2
  const ENOMEM: int := 12
  const EACCES: int := 13
  const EEXIST: int := 17
  const ENOTDIR: int := 20
  const EISDIR: int := 21
  const EINVAL: int := 22

  /** The access mode of the open file a request comes with, if it comes with one. */
  datatype Handle = NoHandle | ReadOnly | WriteOnly | ReadWrite

  const DIR_BITS: nat := 0x4000
  const REG_BITS: nat := 0x8000
  const LNK_MODE: nat := 0xA1FF

  /** Create an inode at a path: the parent must be there and be a directory, the name must be new, and the
      directory must have room. */
  function Make(t: Table, path: string, mode: nat, target: Option<string>): (r: (Table, int))
    requires Closed(t)
    ensures r.1 <= 0 && (r.1 < 0 ==> r.0 == t)
  {
    match ParseParent(t, path)
    case None => (t, -ENOENT)
    case Some((p, name)) =>
      if !IsDir(t[p].mode) then (t, -ENOTDIR)
      else if FindChild(t, p, name).Some? then (t, -EEXIST)
      else if |t[p].children| >= MAX_CHILDREN then (t, -ENOMEM)
      else (Added(t, p, NewNode(p, name, mode, target)), 0)
  }

  /** `data` after `buf` is written at `offset`.  Bytes between the old end and the offset are never set:
      they are what `heap` says the allocator left there. */
  function Splice(data: seq<Byte>, offset: nat, buf: seq<Byte>, heap: nat -> Byte): (d: seq<Byte>)
    ensures |d| == if offset + |buf| > |data| then offset + |buf| else |data|
  {
    seq(if offset + |buf| > |data| then offset + |buf| else |data|,
        x requires x >= 0 => if offset <= x < offset + |buf| then buf[x - offset] else if x < |data| then data[x] else heap(x))
  }

  function Store(t: Table, path: string, offset: int, buf: seq<Byte>, handle: Handle, heap: nat -> Byte): (Table, int)
    requires Closed(t)
  {
    match FindByPath(t, path)
    case None => (t, -ENOENT)
    case Some(i) =>
      if !IsReg(t[i].mode) then (t, -EISDIR)
      else if handle.ReadOnly? then (t, -EACCES)
      else if offset < 0 then (t, -EINVAL)
      else (t[i := t[i].(data := Splice(t[i].data, offset, buf, heap))], |buf|)
  }

  /** The tree after an operation, and its answer: an error code below zero, or success. */
  function Exec(t: Table, op: Op, handle: Handle, heap: nat -> Byte): (Table, int)
    requires Closed(t)
  {
    match op
    case Mkdir(path, mode) => Make(t, path, Or(DIR_BITS, mode), None)
    case Mknod(path, mode) => Make(t, path, Or(REG_BITS, mode), None)
    case Symlink(path, target) => Make(t, path, LNK_MODE, Some(target))
    case Write(path, offset, data) => Store(t, path, offset, data, handle, heap)
  }

  // ---- What every operation keeps ----

  lemma MakeKeeps(t: Table, path: string, mode: nat, target: Option<string>)
    requires WellFormed(t) && Closed(t)
    ensures WellFormed(Make(t, path, mode, target).0)
  {
    hide WellFormed, Closed, FindChild, GoodName, Added;
    var r := ParseParent(t, path);
    if r.Some? {
      var (p, name) := r.value;
      if IsDir(t[p].mode) && FindChild(t, p, name).None? && |t[p].children| < MAX_CHILDREN {
        SearchedName(t, p, name);
        ShortName(name);
        AddedWellFormed(t, p, NewNode(p, name, mode, target));
      }
    }
  }

  lemma ShortName(name: string)
    requires GoodName(name)
    ensures Truncate(name, MAX_NAME + 1) == name
  {
  }

  /** Every operation, successful or not, keeps the tree well formed. */
  lemma ExecKeeps(t: Table, op: Op, handle: Handle, heap: nat -> Byte)
    requires WellFormed(t) && Closed(t)
    ensures WellFormed(Exec(t, op, handle, heap).0) && Closed(Exec(t, op, handle, heap).0)
  {
    hide WellFormed, Closed, Make, Splice, Or;
    match op {
      case Mkdir(path, mode) => MakeKeeps(t, path, Or(DIR_BITS, mode), None);
      case Mknod(path, mode) => MakeKeeps(t, path, Or(REG_BITS, mode), None);
      case Symlink(path, target) => MakeKeeps(t, path, LNK_MODE, Some(target));
      case Write(path, offset, data) => StoreKeeps(t, path, offset, data, handle, heap);
    }
    ClosedToo(Exec(t, op, handle, heap).0);
  }

  lemma StoreKeeps(t: Table, path: string, offset: int, buf: seq<Byte>, handle: Handle, heap: nat -> Byte)
    requires WellFormed(t) && Closed(t)
    ensures WellFormed(Store(t, path, offset, buf, handle, heap).0)
  {
    hide WellFormed, Closed, Splice;
    SameWellFormed(t, Store(t, path, offset, buf, handle, heap).0);
  }

  lemma ClosedToo(t: Table)
    requires WellFormed(t)
    ensures Closed(t)
  {
    TreeClosed(t);
  }

  /** An operation that fails changes nothing. */
  lemma FailureChangesNothing(t: Table, op: Op, handle: Handle, heap: nat -> Byte)
    requires Closed(t) && Exec(t, op, handle, heap).1 < 0
    ensures Exec(t, op, handle, heap).0 == t
  {
  }

  // ---- What a new inode is ----

  /** The last component of a path, as far as the buffer holds it. */
  function LastPart(path: string): string {
    var buf := Truncate(path, PATH_BUFFER);
    buf[LastSlash(buf) + 1..]
  }

  /** After a successful creation the path that was asked for leads to the new inode, unless its last part
      is longer than a name can be: then the inode has a name that was cut, and the path leads nowhere. */
  lemma MadeIsFound(t: Table, path: string, mode: nat, target: Option<string>)
    requires WellFormed(t) && Closed(t) && Make(t, path, mode, target).1 == 0
    ensures var u := Make(t, path, mode, target).0;
      && |u| == |t| + 1 && u[|t|].mode == mode && u[|t|].target == target && u[|t|].data == []
      && u[|t|].name == Truncate(LastPart(path), MAX_NAME + 1)
      && WellFormed(u) && Closed(u)
      && FindByPath(u, path) == (if |LastPart(path)| <= MAX_NAME then Some(|t|) else None)
  {
    MakeKeeps(t, path, mode, target);
    var u := Make(t, path, mode, target).0;
    var (p, name) := ParseParent(t, path).value;
    MadeShape(t, path, mode, target);
    ParentsToo(t);
    ParentsToo(u);
    hide *;
    ClosedToo(u);
    var front := AskedParts(t, path);
    SameNames(t, u, p);
    if |LastPart(path)| <= MAX_NAME {
      NewNames(u, |t|, p);
      FindExactly(u, path, |t|);
    } else {
      LongNotFound(u, path, front, LastPart(path));
    }
  }

  /** The parts of the path: those that lead to the parent, and the last. */
  lemma AskedParts(t: Table, path: string) returns (front: seq<string>)
    requires WellFormed(t) && Closed(t) && Parents(t) && ParseParent(t, path).Some?
    ensures Tokens(Truncate(path, PATH_BUFFER)) == front + [LastPart(path)]
    ensures var (p, name) := ParseParent(t, path).value;
      front == NamesTo(t, p) && name == Truncate(LastPart(path), MAX_NAME + 1)
  {
    hide WellFormed, Closed, Walk, Tokens;
    var buf, p := Truncate(path, PATH_BUFFER), ParseParent(t, path).value.0;
    var k := LastSlash(buf);
    front := Tokens(buf[..k]);
    assert buf == buf[..k] + "/" + buf[k + 1..];
    LastComponent(buf, k);
    TokensSnoc(buf[..k], buf[k + 1..]);
    assert Truncate(buf[..k], PATH_BUFFER) == buf[..k];
    if k == 0 { RootAsked(t); }
    FindExactly(t, buf[..k], p);
  }

  lemma LastComponent(s: string, k: nat)
    requires k == LastSlash(s) && k + 1 < |s|
    ensures Component(s[k + 1..])
  {
    hide LastSlash;
    var w := s[k + 1..];
    forall i | 0 <= i < |w| ensures w[i] != '/' { assert w[i] == s[k + 1 + i]; }
  }

  lemma RootAsked(t: Table)
    requires Closed(t)
    ensures FindByPath(t, "") == Some(0)
  {
    assert Tokens("") == [];
  }

  lemma NewNames(u: Table, i: nat, p: nat)
    requires Parents(u) && 1 <= i < |u| && u[i].parent == p
    ensures NamesTo(u, i) == NamesTo(u, p) + [u[i].name]
  {
  }

  lemma ParentsToo(t: Table)
    requires WellFormed(t)
    ensures Parents(t)
  {
  }

  lemma MadeShape(t: Table, path: string, mode: nat, target: Option<string>)
    requires Closed(t) && Make(t, path, mode, target).1 == 0
    ensures ParseParent(t, path).Some?
    ensures var (p, name), u := ParseParent(t, path).value, Make(t, path, mode, target).0;
      && p < |t| && |u| == |t| + 1
      && u[|t|] == NewNode(p, name, mode, target)
      && forall j :: 0 <= j < |t| ==> u[j].parent == t[j].parent && u[j].name == t[j].name
  {
    hide FindByPath, FindChild;
  }

  lemma {:induction false} SameNames(t: Table, u: Table, i: nat)
    requires Parents(t) && Parents(u) && i < |t| <= |u|
    requires forall j :: 1 <= j < |t| ==> u[j].parent == t[j].parent && u[j].name == t[j].name
    ensures NamesTo(u, i) == NamesTo(t, i)
  {
    if i > 0 { SameNames(t, u, t[i].parent); }
  }

  // ---- Reading ----

  /** The bytes that a read delivers, clamped at the end of the file. */
  function Fetch(data: seq<Byte>, offset: nat, size: nat): seq<Byte> {
    if offset >= |data| then [] else data[offset..if offset + size > |data| then |data| else offset + size]
  }

  /** The answer to a read: an error code, or the number of bytes delivered, and these bytes. */
  function ReadAt(t: Table, path: string, size: nat, offset: int, handle: Handle): (int, seq<Byte>)
    requires Closed(t)
  {
    match FindByPath(t, path)
    case None => (-ENOENT, [])
    case Some(i) =>
      if !IsReg(t[i].mode) then (-EISDIR, [])
      else if handle.WriteOnly? then (-EACCES, [])
      else if offset < 0 then (-EINVAL, [])
      else (|Fetch(t[i].data, offset, size)|, Fetch(t[i].data, offset, size))
  }

  lemma SpliceFetch(data: seq<Byte>, offset: nat, buf: seq<Byte>, heap: nat -> Byte)
    ensures Fetch(Splice(data, offset, buf, heap), offset, |buf|) == buf
  {
  }

  /** Paths lead where they led before a change of contents. */
  lemma {:induction false} WalkSame(t: Table, u: Table, cur: nat, names: seq<string>)
    requires Closed(t) && Closed(u) && SameTree(t, u) && cur < |t|
    ensures Walk(t, cur, names) == Walk(u, cur, names)
    decreases |names|
  {
    if names != [] {
      FirstSame(t, u, t[cur].children, names[0]);
      assert u[cur].children == t[cur].children && u[cur].mode == t[cur].mode;
      var c := FindChild(t, cur, names[0]);
      if c.Some? { WalkSame(t, u, c.value, names[1..]); }
    }
  }

  lemma {:induction false} FirstSame(t: Table, u: Table, cs: seq<nat>, name: string)
    requires SameTree(t, u) && Below(cs, |t|)
    ensures FirstNamed(t, cs, name) == FirstNamed(u, cs, name)
  {
    if cs != [] {
      assert u[cs[0]].name == t[cs[0]].name;
      FirstSame(t, u, cs[1..], name);
    }
  }

  /** What was written is what is read back at the same place. */
  lemma ReadBack(t: Table, path: string, offset: int, buf: seq<Byte>, handle: Handle, heap: nat -> Byte, reader: Handle)
    requires WellFormed(t) && Closed(t) && Exec(t, Write(path, offset, buf), handle, heap).1 >= 0 && !reader.WriteOnly?
    ensures var u := Exec(t, Write(path, offset, buf), handle, heap).0;
      Closed(u) && ReadAt(u, path, |buf|, offset, reader) == (|buf|, buf)
  {
    ExecKeeps(t, Write(path, offset, buf), handle, heap);
    Stored(t, path, offset, buf, handle, heap);
    var u, i := Exec(t, Write(path, offset, buf), handle, heap).0, FindByPath(t, path).value;
    hide WellFormed, Closed, Splice, Fetch, Exec, FindByPath, SameTree;
    FoundSame(t, u, path);
    SpliceFetch(t[i].data, offset, buf, heap);
  }

  lemma Stored(t: Table, path: string, offset: int, buf: seq<Byte>, handle: Handle, heap: nat -> Byte)
    requires Closed(t) && Exec(t, Write(path, offset, buf), handle, heap).1 >= 0
    ensures var u, r := Exec(t, Write(path, offset, buf), handle, heap).0, FindByPath(t, path);
      && r.Some? && r.value < |t| == |u| && offset >= 0 && IsReg(u[r.value].mode)
      && u[r.value].data == Splice(t[r.value].data, offset, buf, heap) && SameTree(t, u)
  {
    hide FindByPath, Closed, Splice;
  }

  lemma FoundSame(t: Table, u: Table, path: string)
    requires Closed(t) && Closed(u) && SameTree(t, u)
    ensures FindByPath(u, path) == FindByPath(t, path)
  {
    WalkSame(t, u, 0, Tokens(Truncate(path, PATH_BUFFER)));
  }

  /** Outside the range written, and in every other file, nothing changes. */
  lemma WriteKeepsRest(t: Table, path: string, offset: int, buf: seq<Byte>, handle: Handle, heap: nat -> Byte, j: nat, x: nat)
    requires Closed(t) && j < |t| && x < |t[j].data|
    requires FindByPath(t, path) == Some(j) ==> x < offset || offset + |buf| <= x
    ensures var u := Exec(t, Write(path, offset, buf), handle, heap).0; j < |u| && x < |u[j].data| && u[j].data[x] == t[j].data[x]
  {
    hide FindByPath, Closed;
  }

  // ---- Writes past the end ----

  ghost predicate Determined(data: seq<Byte>, offset: nat, buf: seq<Byte>) {
    forall h: nat -> Byte, g: nat -> Byte :: Splice(data, offset, buf, h) == Splice(data, offset, buf, g)
  }

  /** The contents after a write are determined by the request if and only if it starts at or before the
      end of the file. */
  lemma DeterminedExactly(data: seq<Byte>, offset: nat, buf: seq<Byte>)
    ensures Determined(data, offset, buf) <==> offset <= |data|
  {
    if offset > |data| {
      var h, g := (x: nat) => 0 as Byte, (x: nat) => 1 as Byte;
      assert Splice(data, offset, buf, h)[|data|] == 0 && Splice(data, offset, buf, g)[|data|] == 1;
    }
  }

  /** A write starts at or before the end of the file it goes to. */
  predicate GapFree(t: Table, op: Op)
    requires Closed(t)
  {
    op.Write? && FindByPath(t, op.path).Some? ==> op.offset <= |t[FindByPath(t, op.path).value].data|
  }

  /** What succeeded once without a gap does the same without a handle and on any heap. */
  lemma SameAgain(t: Table, op: Op, handle: Handle, heap: nat -> Byte, other: nat -> Byte)
    requires Closed(t) && Exec(t, op, handle, heap).1 >= 0 && GapFree(t, op)
    ensures Exec(t, op, NoHandle, other) == Exec(t, op, handle, heap)
  {
    hide Make, FindByPath, Closed;
    if op.Write? {
      var i := FindByPath(t, op.path).value;
      DeterminedExactly(t[i].data, op.offset, op.data);
      assert Determined(t[i].data, op.offset, op.data);
    }
  }

  /** A write of nothing that starts within the file changes nothing. */
  lemma EmptyWrite(t: Table, op: Op, handle: Handle, heap: nat -> Byte)
    requires Closed(t) && op.Write? && op.data == [] && GapFree(t, op)
    ensures Exec(t, op, handle, heap).0 == t
  {
    hide FindByPath, Closed;
    var r := FindByPath(t, op.path);
    if r.Some? && op.offset >= 0 {
      assert Splice(t[r.value].data, op.offset, [], heap) == t[r.value].data;
    }
  }
}
