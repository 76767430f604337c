/**
What each request answers, and what it makes, said of the inodes and their names: which error code when,
what kind of inode a creation leaves, and which bytes a read delivers.
*/
module FileAnswers {
  import opened Bytes
  import opened Options
  import opened LogCodec
  import opened Inodes
  import opened FileOps

  // ---- Bits of a mode ----

  /** What is left of a number when its last `k` bits are taken off. */
  function High(x: nat, k: nat): nat {
    if k == 0 then x else High(x / 2, k - 1)
  }

  /** Its last `k` bits. */
  function Low(x: nat, k: nat): nat {
    if k == 0 then 0 else x % 2 + 2 * Low(x / 2, k - 1)
  }

  /** High bits and low bits are combined separately. */
  lemma {:induction false} OrSplit(a: nat, b: nat, k: nat)
    ensures High(Or(a, b), k) == Or(High(a, k), High(b, k)) && Low(Or(a, b), k) == Or(Low(a, k), Low(b, k))
  {
    hide Or, Low, High;
    if k == 0 {
      LowNone(a);
      LowNone(b);
      LowNone(Or(a, b));
      OrZero(0);
    } else {
      OrHalf(a, b);
      OrSplit(a / 2, b / 2, k - 1);
      LowOne(a, k - 1);
      LowOne(b, k - 1);
      LowOne(Or(a, b), k - 1);
      OrHalf(Low(a, k), Low(b, k));
    }
  }

  lemma OrHalf(a: nat, b: nat)
    ensures Or(a, b) / 2 == Or(a / 2, b / 2)
    ensures Or(a, b) % 2 == if a % 2 == 1 || b % 2 == 1 then 1 else 0
  {
  }

  lemma LowFour(x: nat, j: nat)
    ensures Low(x, 4 + j) == Low(x, 4) + 16 * Low(x / 16, j) && High(x, 4 + j) == High(x / 16, j)
  {
    LowOne(x, 3);
    LowOne(x, 3 + j);
    LowOne(x / 2, 2);
    LowOne(x / 2, 2 + j);
    LowOne(x / 2 / 2, 1);
    LowOne(x / 2 / 2, 1 + j);
    LowOne(x / 2 / 2 / 2, 0);
    LowOne(x / 2 / 2 / 2, j);
    LowNone(x / 2 / 2 / 2 / 2);
    hide Low, High;
    assert x / 2 / 2 / 2 / 2 == x / 16;
  }

  lemma LowOne(x: nat, k: nat)
    ensures Low(x, k + 1) == x % 2 + 2 * Low(x / 2, k) && High(x, k + 1) == High(x / 2, k)
  {
  }

  lemma LowNone(x: nat)
    ensures Low(x, 0) == 0 && High(x, 0) == x
  {
  }

  lemma Four(x: nat)
    ensures High(x, 4) == x / 16 && Low(x, 4) == x % 16
  {
    LowOne(x, 3);
    LowOne(x / 2, 2);
    LowOne(x / 2 / 2, 1);
    LowOne(x / 2 / 2 / 2, 0);
    LowNone(x / 2 / 2 / 2 / 2);
    hide Low, High;
  }

  lemma Twelve(x: nat)
    ensures High(x, 12) == x / 0x1000 && Low(x, 12) == x % 0x1000
  {
    hide Low, High;
    LowFour(x, 8);
    LowFour(x / 16, 4);
    Four(x);
    Four(x / 16);
    Four(x / 16 / 16);
  }

  lemma OrZero(b: nat)
    ensures Or(0, b) == b
  {
  }

  /** The permissions and the kind of a combined mode. */
  lemma ModeOr(kind: nat, mode: nat)
    requires kind < 16
    ensures Or(kind * 0x1000, mode) % 0x1000 == mode % 0x1000
    ensures TypeBits(Or(kind * 0x1000, mode)) == Or(kind, TypeBits(mode))
  {
    hide *;
    var a, m := kind * 0x1000, mode / 0x1000;
    KindShift(kind);
    TypeIs(mode);
    TypeIs(Or(a, mode));
    Twelve(a);
    Twelve(mode);
    Twelve(Or(a, mode));
    OrSplit(a, mode, 12);
    OrZero(mode % 0x1000);
    OrSplit(kind, m, 4);
    Four(kind);
    Four(m);
    Four(Or(kind, m));
  }

  lemma KindShift(kind: nat)
    requires kind < 16
    ensures kind * 0x1000 / 0x1000 == kind && kind * 0x1000 % 0x1000 == 0 && kind % 16 == kind
  {
  }

  lemma TypeIs(mode: nat)
    ensures TypeBits(mode) == mode / 0x1000 % 16
  {
  }

  /** A kind that is added to another is the kind itself exactly if it covers it. */
  lemma KindOr(v: nat)
    requires v < 16
    ensures Or(4, v) == 4 <==> v == 0 || v == 4
    ensures Or(8, v) == 8 <==> v == 0 || v == 8
  {
    hide Or;
    OrHalf(4, v);
    OrHalf(2, v / 2);
    OrHalf(1, v / 2 / 2);
    OrHalf(8, v);
    OrHalf(4, v / 2);
    OrHalf(2, v / 2 / 2);
    OrHalf(1, v / 2 / 2 / 2);
    OrZero(v / 2 / 2 / 2);
    OrZero(v / 2 / 2 / 2 / 2);
  }

  // ---- Creating ----

  /** The path, cut off at 1023 characters, ends with the component `last`, and what comes before leads to
      inode `p`. */
  ghost predicate Asked(t: Table, path: string, p: nat, last: string)
    requires Parents(t) && p < |t|
  {
    && Component(last)
    && exists front :: Truncate(path, 1024) == front + "/" + last && Tokens(front) == NamesTo(t, p)
  }

  /** Some child of directory `p` has the name. */
  ghost predicate Taken(t: Table, p: nat, name: string) {
    exists c :: 1 <= c < |t| && t[c].parent == p && t[c].name == name
  }

  /** The parent and the name are those that the path asks for. */
  lemma ParentAsked(t: Table, path: string)
    requires WellFormed(t) && Closed(t) && ParseParent(t, path).Some?
    ensures var (p, name) := ParseParent(t, path).value;
      Asked(t, path, p, LastPart(path)) && name == Truncate(LastPart(path), MAX_NAME + 1)
  {
    var buf, p := Truncate(path, PATH_BUFFER), ParseParent(t, path).value.0;
    var k := LastSlash(buf);
    assert buf == buf[..k] + "/" + buf[k + 1..];
    LastComponent(buf, k);
    hide WellFormed, Closed, Walk, Tokens, Component;
    ParentsToo(t);
    assert Truncate(buf[..k], PATH_BUFFER) == buf[..k];
    if k == 0 { RootAsked(t); }
    FindExactly(t, buf[..k], p);
  }

  /** What is asked for is found. */
  lemma AskedParent(t: Table, path: string, p: nat, last: string)
    requires WellFormed(t) && Closed(t) && p < |t| && Asked(t, path, p, last)
    ensures last == LastPart(path) && ParseParent(t, path) == Some((p, Truncate(last, MAX_NAME + 1)))
  {
    var buf := Truncate(path, PATH_BUFFER);
    var front :| buf == front + "/" + last && Tokens(front) == NamesTo(t, p);
    LastAt(front, last);
    var k := LastSlash(buf);
    assert buf[..k] == front && buf[k + 1..] == last;
    hide WellFormed, Closed, Walk, Tokens, Component;
    ParentsToo(t);
    assert Truncate(front, PATH_BUFFER) == front;
    FindExactly(t, front, p);
    if k == 0 { RootAsked(t); }
  }

  lemma LastAt(front: string, last: string)
    requires Component(last)
    ensures LastSlash(front + "/" + last) == |front|
  {
    hide LastSlash;
    var tail := "/" + last;
    var s := front + tail;
    assert front + "/" + last == s;
    forall i | 0 < i < |tail| ensures tail[i] != '/' { assert tail[i] == last[i - 1]; }
    assert tail[0] == '/';
    hide Component;
    forall i | |front| < i < |s| ensures s[i] != '/' { assert s[i] == tail[i - |front|]; }
    assert s[|front|] == tail[0];
    LastIs(s, |front|);
  }

  lemma LastIs(s: string, k: nat)
    requires k < |s| && s[k] == '/' && forall i :: k < i < |s| ==> s[i] != '/'
    ensures LastSlash(s) == k
  {
    hide LastSlash;
  }

  /** When a creation fails, and why. */
  lemma MakeAnswers(t: Table, path: string, mode: nat, target: Option<string>, p: nat, last: string)
    requires WellFormed(t) && Closed(t) && p < |t|
    ensures var r := Make(t, path, mode, target).1;
      && (Asked(t, path, p, last) ==>
            r == if TypeBits(t[p].mode) != 4 then -20
                 else if Taken(t, p, Truncate(last, 256)) then -17
                 else if |t[p].children| >= 1024 then -12 else 0)
      && (r == -2 <==> forall q, w :: 0 <= q < |t| ==> !Asked(t, path, q, w))
  {
    hide *;
    ParentsToo(t);
    MakeCases(t, path, mode, target);
    if ParseParent(t, path).Some? {
      ParentAsked(t, path);
      var (q, name) := ParseParent(t, path).value;
      TakenExactly(t, q, name);
    }
    if Asked(t, path, p, last) { AskedParent(t, path, p, last); }
    Names(last);
    if q, w :| 0 <= q < |t| && Asked(t, path, q, w) { AskedParent(t, path, q, w); }
  }

  lemma Names(name: string)
    ensures Truncate(name, MAX_NAME + 1) == Truncate(name, 256)
  {
  }

  lemma MakeCases(t: Table, path: string, mode: nat, target: Option<string>)
    requires Closed(t)
    ensures var r := Make(t, path, mode, target).1;
      match ParseParent(t, path)
      case None => r == -2
      case Some((p, name)) =>
        && p < |t|
        && r == if TypeBits(t[p].mode) != 4 then -20
                else if FindChild(t, p, name).Some? then -17
                else if |t[p].children| >= 1024 then -12 else 0
  {
    hide ParseParent, FindChild;
  }

  lemma TakenExactly(t: Table, p: nat, name: string)
    requires WellFormed(t) && Closed(t) && p < |t|
    ensures TypeBits(t[p].mode) == 4 ==> (FindChild(t, p, name).Some? <==> Taken(t, p, name))
  {
    if TypeBits(t[p].mode) == 4 {
      if FindChild(t, p, name).None? {
        SearchedName(t, p, name);
      } else {
        FoundChild(t, p, name);
      }
    }
  }

  lemma FoundChild(t: Table, p: nat, name: string)
    requires WellFormed(t) && Closed(t) && p < |t| && FindChild(t, p, name).Some?
    ensures Taken(t, p, name)
  {
    hide Named, Unique, Narrow;
    var c := FindChild(t, p, name).value;
    KidsMember(t, p, |t|, c);
  }

  /** The table has one inode more, at the place that the path asks for: an empty one, which its parent lists
      last, and which the path leads to if its last part fits a name. */
  ghost predicate NewAt(t: Table, u: Table, path: string)
    requires Parents(t)
  {
    && |u| == |t| + 1 && WellFormed(u) && Closed(u)
    && var n, p := u[|t|], u[|t|].parent;
    && p < |t| && Asked(t, path, p, LastPart(path)) && n.name == Truncate(LastPart(path), 256)
    && n.children == [] && n.data == []
    && (forall j :: 0 <= j < |t| && j != p ==> u[j] == t[j])
    && u[p] == t[p].(children := t[p].children + [|t|])
    && FindByPath(u, path) == (if |LastPart(path)| <= 255 then Some(|t|) else None)
  }

  lemma MadeAt(t: Table, path: string, mode: nat, target: Option<string>)
    requires WellFormed(t) && Closed(t) && Parents(t) && Make(t, path, mode, target).1 == 0
    ensures var u := Make(t, path, mode, target).0;
      NewAt(t, u, path) && u[|t|].mode == mode && u[|t|].target == target && u[|t|].nlink == if TypeBits(mode) == 4 then 2 else 1
  {
    hide *;
    MadeIsFound(t, path, mode, target);
    MakeCases(t, path, mode, target);
    ParentAsked(t, path);
    MadeTable(t, path, mode, target);
    Names(LastPart(path));
    NewAtIntro(t, Make(t, path, mode, target).0, path);
  }

  lemma NewAtIntro(t: Table, u: Table, path: string)
    requires Parents(t) && |u| == |t| + 1 && WellFormed(u) && Closed(u) && u[|t|].parent < |t|
    requires Asked(t, path, u[|t|].parent, LastPart(path)) && u[|t|].name == Truncate(LastPart(path), 256)
    requires u[|t|].children == [] && u[|t|].data == [] && forall j :: 0 <= j < |t| && j != u[|t|].parent ==> u[j] == t[j]
    requires u[u[|t|].parent] == t[u[|t|].parent].(children := t[u[|t|].parent].children + [|t|])
    requires FindByPath(u, path) == if |LastPart(path)| <= MAX_NAME then Some(|t|) else None
    ensures NewAt(t, u, path)
  {
    hide WellFormed, Closed, Asked, FindByPath, LastPart, Truncate, Parents;
  }

  lemma MadeTable(t: Table, path: string, mode: nat, target: Option<string>)
    requires Closed(t) && Make(t, path, mode, target).1 == 0
    ensures ParseParent(t, path).Some?
    ensures var (p, name), u := ParseParent(t, path).value, Make(t, path, mode, target).0;
      && p < |t| && |u| == |t| + 1 && u[|t|].parent == p && u[|t|].children == [] && u[|t|].nlink == (if TypeBits(mode) == 4 then 2 else 1)
      && (forall j :: 0 <= j < |t| && j != p ==> u[j] == t[j]) && u[p] == t[p].(children := t[p].children + [|t|])
  {
    hide ParseParent, FindChild, Truncate;
  }

  /** When mkdir, mknod and symlink fail, and why. */
  lemma CreateAnswers(t: Table, op: Op, handle: Handle, heap: nat -> Byte, p: nat, last: string)
    requires WellFormed(t) && Closed(t) && p < |t| && !op.Write?
    ensures var r := Exec(t, op, handle, heap).1;
      && (Asked(t, op.path, p, last) ==>
            r == if TypeBits(t[p].mode) != 4 then -20
                 else if Taken(t, p, Truncate(last, 256)) then -17
                 else if |t[p].children| >= 1024 then -12 else 0)
      && (r == -2 <==> forall q, w :: 0 <= q < |t| ==> !Asked(t, op.path, q, w))
  {
    hide WellFormed, Closed, Make, Asked, Taken, Truncate, TypeBits, Or;
    match op
    case Mkdir(path, mode) => MakeAnswers(t, path, Or(DIR_BITS, mode), None, p, last);
    case Mknod(path, mode) => MakeAnswers(t, path, Or(REG_BITS, mode), None, p, last);
    case Symlink(path, target) => MakeAnswers(t, path, LNK_MODE, Some(target), p, last);
    case Write(_, _, _) =>
  }

  /** What mkdir, mknod and symlink make: a directory, a regular file, or a link to the target, with the
      permissions asked for.  A mode that brings other bits of kind along makes something else: exactly those
      of the kind itself do not. */
  lemma CreateMakes(t: Table, op: Op, handle: Handle, heap: nat -> Byte)
    requires WellFormed(t) && Closed(t) && Parents(t) && !op.Write? && Exec(t, op, handle, heap).1 == 0
    ensures var u := Exec(t, op, handle, heap).0;
      && NewAt(t, u, op.path)
      && var n := u[|t|];
      && n.nlink == (if TypeBits(n.mode) == 4 then 2 else 1)
      && match op
         case Mkdir(_, mode) =>
           n.target == None && n.mode % 0x1000 == mode % 0x1000 && (TypeBits(n.mode) == 4 <==> TypeBits(mode) == 0 || TypeBits(mode) == 4)
         case Mknod(_, mode) =>
           n.target == None && n.mode % 0x1000 == mode % 0x1000 && (TypeBits(n.mode) == 8 <==> TypeBits(mode) == 0 || TypeBits(mode) == 8)
         case Symlink(_, target) => n.target == Some(target) && n.mode % 0x1000 == 0x1FF && TypeBits(n.mode) == 10
         case Write(_, _, _) => true
  {
    hide WellFormed, Closed, Parents, Make, NewAt, Or, TypeBits;
    NewSize(t, Exec(t, op, handle, heap).0, op.path);
    match op
    case Mkdir(path, mode) => {
      MadeAt(t, path, Or(DIR_BITS, mode), None);
      ModeOr(4, mode);
      KindBits(mode);
    }
    case Mknod(path, mode) => {
      MadeAt(t, path, Or(REG_BITS, mode), None);
      ModeOr(8, mode);
      KindBits(mode);
    }
    case Symlink(path, target) => {
      MadeAt(t, path, LNK_MODE, Some(target));
      LinkBits();
    }
    case Write(_, _, _) =>
  }

  lemma NewSize(t: Table, u: Table, path: string)
    requires Parents(t)
    ensures NewAt(t, u, path) ==> |u| == |t| + 1
  {
    hide WellFormed, Closed, Asked, FindByPath, LastPart, Truncate, Parents;
  }

  lemma KindBits(mode: nat)
    ensures var v := TypeBits(mode); v < 16 && (Or(4, v) == 4 <==> v == 0 || v == 4) && (Or(8, v) == 8 <==> v == 0 || v == 8)
  {
    KindOr(TypeBits(mode));
  }

  lemma LinkBits()
    ensures LNK_MODE % 0x1000 == 0x1FF && TypeBits(LNK_MODE) == 10
  {
  }

  // ---- Writing and reading ----

  /** The path, cut off at 1023 characters, names the way to inode `i`. */
  ghost predicate LeadsTo(t: Table, path: string, i: nat)
    requires Parents(t) && i < |t|
  {
    Tokens(Truncate(path, 1024)) == NamesTo(t, i)
  }

  lemma LeadsExactly(t: Table, path: string, i: nat)
    requires WellFormed(t) && Closed(t) && i < |t|
    ensures Parents(t) && (FindByPath(t, path) == Some(i) <==> LeadsTo(t, path, i))
  {
    ParentsToo(t);
    FindExactly(t, path, i);
    hide WellFormed, Closed, FindByPath, Parents, Tokens;
  }

  lemma LeadsNowhere(t: Table, path: string)
    requires WellFormed(t) && Closed(t) && Parents(t)
    ensures FindByPath(t, path) == None <==> forall q :: 0 <= q < |t| ==> !LeadsTo(t, path, q)
  {
    hide WellFormed, Closed, Parents, FindByPath, LeadsTo;
    var f := FindByPath(t, path);
    if f.Some? { LeadsExactly(t, path, f.value); }
    if q :| 0 <= q < |t| && LeadsTo(t, path, q) { LeadsExactly(t, path, q); }
  }

  lemma StoreCases(t: Table, path: string, offset: int, buf: seq<Byte>, handle: Handle, heap: nat -> Byte)
    requires Closed(t)
    ensures var (u, r) := Exec(t, Write(path, offset, buf), handle, heap);
      match FindByPath(t, path)
      case None => r == -2
      case Some(i) =>
        && r == (if TypeBits(t[i].mode) != 8 then -21 else if handle.ReadOnly? then -13 else if offset < 0 then -22 else |buf|)
        && (r >= 0 ==> |u| == |t| && Written(t[i].data, u[i].data, offset, buf, heap) && u == t[i := t[i].(data := u[i].data)])
  {
    hide FindByPath, Closed;
  }

  lemma ReadCases(t: Table, path: string, size: nat, offset: int, handle: Handle)
    requires Closed(t)
    ensures var (r, b) := ReadAt(t, path, size, offset, handle);
      && (r < 0 ==> b == [])
      && match FindByPath(t, path)
         case None => r == -2
         case Some(i) =>
           if TypeBits(t[i].mode) != 8 then r == -21
           else if handle.WriteOnly? then r == -13
           else if offset < 0 then r == -22
           else
             var data := t[i].data;
             && r == |b| == (if offset >= |data| then 0 else if |data| - offset < size then |data| - offset else size)
             && forall x :: 0 <= x < |b| ==> b[x] == data[offset + x]
  {
    hide FindByPath, Closed;
  }

  /** What a write answers, and what it leaves in the file. */
  lemma WriteAnswers(t: Table, path: string, offset: int, buf: seq<Byte>, handle: Handle, heap: nat -> Byte, i: nat)
    requires WellFormed(t) && Closed(t) && Parents(t) && i < |t|
    ensures var (u, r) := Exec(t, Write(path, offset, buf), handle, heap);
      && (r == -2 <==> forall q :: 0 <= q < |t| ==> !LeadsTo(t, path, q))
      && (LeadsTo(t, path, i) ==>
            && r == (if TypeBits(t[i].mode) != 8 then -21 else if handle.ReadOnly? then -13 else if offset < 0 then -22 else |buf|)
            && (r >= 0 ==> |u| == |t| && Written(t[i].data, u[i].data, offset, buf, heap) && u == t[i := t[i].(data := u[i].data)]))
  {
    hide *;
    LeadsExactly(t, path, i);
    LeadsNowhere(t, path);
    StoreCases(t, path, offset, buf, handle, heap);
  }

  /** The bytes of a file after a write. */
  ghost predicate Written(data: seq<Byte>, d: seq<Byte>, offset: int, buf: seq<Byte>, heap: nat -> Byte) {
    && |d| == (if offset + |buf| > |data| then offset + |buf| else |data|)
    && forall x :: 0 <= x < |d| ==> d[x] == if offset <= x < offset + |buf| then buf[x - offset] else if x < |data| then data[x] else heap(x)
  }

  /** What a read answers, and which bytes it delivers. */
  lemma ReadAnswers(t: Table, path: string, size: nat, offset: int, handle: Handle, i: nat)
    requires WellFormed(t) && Closed(t) && Parents(t) && i < |t|
    ensures var (r, b) := ReadAt(t, path, size, offset, handle);
      && (r == -2 <==> forall q :: 0 <= q < |t| ==> !LeadsTo(t, path, q))
      && (r < 0 ==> b == [])
      && (LeadsTo(t, path, i) ==>
            if TypeBits(t[i].mode) != 8 then r == -21
            else if handle.WriteOnly? then r == -13
            else if offset < 0 then r == -22
            else
              var data := t[i].data;
              && r == |b| == (if offset >= |data| then 0 else if |data| - offset < size then |data| - offset else size)
              && forall x :: 0 <= x < |b| ==> b[x] == data[offset + x])
  {
    hide *;
    LeadsExactly(t, path, i);
    LeadsNowhere(t, path);
    ReadCases(t, path, size, offset, handle);
  }

  /** A file that has just been made takes any write at its start, and gives it back. */
  lemma FreshFile(t: Table, path: string, mode: nat, h: Handle, heap: nat -> Byte, buf: seq<Byte>, writer: Handle, reader: Handle)
    requires WellFormed(t) && Closed(t) && Exec(t, Mknod(path, mode), h, heap).1 == 0 && |LastPart(path)| <= 255
    requires (TypeBits(mode) == 0 || TypeBits(mode) == 8) && !writer.ReadOnly? && !reader.WriteOnly?
    ensures var u := Exec(t, Mknod(path, mode), h, heap).0;
      && Closed(u) && Exec(u, Write(path, 0, buf), writer, heap).1 == |buf|
      && var v := Exec(u, Write(path, 0, buf), writer, heap).0;
      Closed(v) && ReadAt(v, path, |buf|, 0, reader) == (|buf|, buf)
  {
    hide *;
    ParentsToo(t);
    CreateMakes(t, Mknod(path, mode), h, heap);
    var u := Exec(t, Mknod(path, mode), h, heap).0;
    NewParts(t, u, path);
    ParentsToo(u);
    LeadsExactly(u, path, |t|);
    WriteAnswers(u, path, 0, buf, writer, heap, |t|);
    ReadBack(u, path, 0, buf, writer, heap, reader);
  }

  lemma NewParts(t: Table, u: Table, path: string)
    requires Parents(t) && NewAt(t, u, path) && |LastPart(path)| <= 255
    ensures |u| == |t| + 1 && WellFormed(u) && Closed(u) && FindByPath(u, path) == Some(|t|)
  {
    hide WellFormed, Closed, Asked, FindByPath, LastPart, Truncate, Parents;
  }
}
