/**
The in-memory file system: the inode table and the log as they are updated in place by each request, and
the recovery that replays the log.
*/
module MemFs {
  import opened Bytes
  import opened Options
  import opened Text
  import opened LogCodec
  import opened Inodes
  import opened FileOps
  import opened Statistics

  /** The tree after the lines of a log are replayed; none if the replay runs into a line that leaves its
      behaviour undefined. */
  ghost function ReplayLines(t: Table, lines: seq<string>, heap: nat -> Byte): (u: Option<Table>)
    requires WellFormed(t)
    ensures u.Some? ==> WellFormed(u.value)
    decreases |lines|
  {
    TreeClosed(t);
    if lines == [] then Some(t)
    else match Parse(lines[0])
      case Skip => ReplayLines(t, lines[1..], heap)
      case Wild(_) => None
      case Do(op) =>
        ExecKeeps(t, op, NoHandle, heap);
        ReplayLines(Exec(t, op, NoHandle, heap).0, lines[1..], heap)
  }

  class FileSystem {
    var inodes: Table
    var log: string
    var isReplaying: bool

    ghost predicate Valid()
      reads this
    {
      WellFormed(inodes) && Closed(inodes)
    }

    /** A file system with an empty root, and the log that is found on disk. */
    constructor (text: string)
      ensures Valid() && inodes == [Root()] && log == text && !isReplaying
    {
      inodes, log, isReplaying := [Root()], text, false;
      new;
      RootWellFormed();
    }

    // ---- The tree ----

    method FindChild(dir: nat, name: string) returns (r: Option<nat>)
      requires Closed(inodes) && dir < |inodes|
      ensures r == Inodes.FindChild(inodes, dir, name)
    {
      if !IsDir(inodes[dir].mode) {
        return None;
      }
      var cs := inodes[dir].children;
      for i := 0 to |cs|
        invariant FirstNamed(inodes, cs, name) == FirstNamed(inodes, cs[i..], name)
      {
        assert Below(cs, |inodes|) && cs[i..][0] == cs[i];
        if inodes[cs[i]].name == name {
          return Some(cs[i]);
        }
        assert cs[i..][1..] == cs[i + 1..];
      }
      return None;
    }

    method FindByPath(path: string) returns (r: Option<nat>)
      requires Closed(inodes)
      ensures r == Inodes.FindByPath(inodes, path)
    {
      var rest := SkipSlashes(Truncate(path, PATH_BUFFER));
      var cur: nat := 0;
      SkipTwice(Truncate(path, PATH_BUFFER));
      while rest != ""
        invariant cur < |inodes| && SkipSlashes(rest) == rest
        invariant Walk(inodes, cur, Tokens(rest)) == Inodes.FindByPath(inodes, path)
        decreases |rest|
      {
        var n := TokenLength(rest);
        assert Tokens(rest) == [rest[..n]] + Tokens(rest[n..]);
        var child := FindChild(cur, rest[..n]);
        if child.None? {
          return None;
        }
        cur := child.value;
        SkipTwice(rest[n..]);
        rest := SkipSlashes(rest[n..]);
      }
      return Some(cur);
    }

    method ParseParent(path: string) returns (r: Option<(nat, string)>)
      requires Closed(inodes)
      ensures r == Inodes.ParseParent(inodes, path)
    {
      var buf := Truncate(path, PATH_BUFFER);
      var p := LastSlash(buf);
      if p < 0 || p + 1 == |buf| {
        return None;
      }
      var name := Truncate(buf[p + 1..], MAX_NAME + 1);
      if p == 0 {
        return Some((0, name));
      }
      var parent := FindByPath(buf[..p]);
      r := match parent case None => None case Some(i) => Some((i, name));
    }

    method CreateInode(parent: nat, name: string, mode: nat) returns (r: Option<nat>)
      requires parent < |inodes|
      modifies this`inodes
      ensures r == if IsDir(old(inodes[parent].mode)) && |old(inodes[parent].children)| < MAX_CHILDREN then Some(|old(inodes)|) else None
      ensures r.None? ==> inodes == old(inodes)
      ensures r.Some? ==> inodes == Added(old(inodes), parent, NewNode(parent, name, mode, None))
    {
      if !IsDir(inodes[parent].mode) || |inodes[parent].children| >= MAX_CHILDREN {
        return None;
      }
      var node := INode(parent, [], Truncate(name, MAX_NAME + 1), mode, if IsDir(mode) then 2 else 1, [], None);
      r := Some(|inodes|);
      inodes := inodes + [node];
      inodes := inodes[parent := inodes[parent].(children := inodes[parent].children + [r.value])];
    }

    // ---- The log ----

    /** One record is appended, unless the log is being replayed. */
    method AppendLog(op: Op)
      modifies this`log
      ensures log == old(log) + if isReplaying then "" else Print(op)
    {
      if isReplaying {
        return;
      }
      var text := "";
      match op {
        case Mkdir(path, mode) => text := "M" + Field(path, Field(Digits(mode, 8), "\n"));
        case Mknod(path, mode) => text := "C" + Field(path, Field(Digits(mode, 8), "\n"));
        case Write(path, offset, data) =>
          var hex := "";
          for i := 0 to |data|
            invariant hex == Hex(data[..i])
          {
            assert data[..i + 1][..i] == data[..i];
            hex := hex + HexPair(data[i]);
          }
          assert data[..|data|] == data;
          text := "W" + Field(path, Field(Signed(offset), Field(Digits(|data|, 10), Field(hex, "\n"))));
        case Symlink(path, target) => text := "S" + Field(path, Field(target, "\n"));
      }
      log := log + text;
    }

    // ---- Requests ----

    /** The part that mkdir, mknod and symlink share: all checks, then the new inode. */
    method Make(path: string, mode: nat, target: Option<string>) returns (r: int)
      requires Valid()
      modifies this`inodes
      ensures Valid() && (inodes, r) == FileOps.Make(old(inodes), path, mode, target)
    {
      MakeKeeps(inodes, path, mode, target);
      TreeClosed(FileOps.Make(inodes, path, mode, target).0);
      hide WellFormed, Closed, Added, NewNode, Inodes.ParseParent, Inodes.FindChild;
      var at := ParseParent(path);
      if at.None? {
        return -ENOENT;
      }
      var (parent, name) := at.value;
      if !IsDir(inodes[parent].mode) {
        return -ENOTDIR;
      }
      var there := FindChild(parent, name);
      if there.Some? {
        return -EEXIST;
      }
      var made := CreateInode(parent, name, mode);
      if made.None? {
        return -ENOMEM;
      }
      if target.Some? {
        TargetSet(old(inodes), parent, name, mode, target.value);
        inodes := inodes[made.value := inodes[made.value].(target := target)];
      }
      return 0;
    }

    method Mkdir(path: string, mode: nat) returns (r: int)
      requires Valid()
      modifies this`inodes, this`log
      ensures Valid() && (inodes, r) == Exec(old(inodes), Op.Mkdir(path, mode), NoHandle, Nothing)
      ensures log == old(log) + if r < 0 || isReplaying then "" else Print(Op.Mkdir(path, mode))
    {
      hide WellFormed, Closed, FileOps.Make, Print, Or;
      r := Make(path, Or(DIR_BITS, mode), None);
      if r == 0 {
        AppendLog(Op.Mkdir(path, mode));
      }
    }

    method Mknod(path: string, mode: nat) returns (r: int)
      requires Valid()
      modifies this`inodes, this`log
      ensures Valid() && (inodes, r) == Exec(old(inodes), Op.Mknod(path, mode), NoHandle, Nothing)
      ensures log == old(log) + if r < 0 || isReplaying then "" else Print(Op.Mknod(path, mode))
    {
      hide WellFormed, Closed, FileOps.Make, Print, Or;
      r := Make(path, Or(REG_BITS, mode), None);
      if r == 0 {
        AppendLog(Op.Mknod(path, mode));
      }
    }

    method Symlink(target: string, linkPath: string) returns (r: int)
      requires Valid()
      modifies this`inodes, this`log
      ensures Valid() && (inodes, r) == Exec(old(inodes), Op.Symlink(linkPath, target), NoHandle, Nothing)
      ensures log == old(log) + if r < 0 || isReplaying then "" else Print(Op.Symlink(linkPath, target))
    {
      hide WellFormed, Closed, FileOps.Make, Print, Or;
      r := Make(linkPath, LNK_MODE, Some(target));
      if r == 0 {
        AppendLog(Op.Symlink(linkPath, target));
      }
    }

    method Write(path: string, buf: seq<Byte>, offset: int, handle: Handle, heap: nat -> Byte) returns (r: int)
      requires Valid()
      modifies this`inodes, this`log
      ensures Valid() && (inodes, r) == Exec(old(inodes), Op.Write(path, offset, buf), handle, heap)
      ensures log == old(log) + if r < 0 || isReplaying then "" else Print(Op.Write(path, offset, buf))
    {
      ExecKeeps(inodes, Op.Write(path, offset, buf), handle, heap);
      hide WellFormed, Closed, Print, Splice;
      var file := FindByPath(path);
      if file.None? {
        return -ENOENT;
      }
      var node := inodes[file.value];
      if !IsReg(node.mode) {
        return -EISDIR;
      }
      if handle.ReadOnly? {
        return -EACCES;
      }
      if offset < 0 {
        return -EINVAL;
      }
      var data := CopyInto(node.data, buf, offset, heap);
      inodes := inodes[file.value := node.(data := data)];
      AppendLog(Op.Write(path, offset, buf));
      return |buf|;
    }

    /** Grow the buffer if the write ends past it, then copy. */
    method CopyInto(data: seq<Byte>, buf: seq<Byte>, offset: nat, heap: nat -> Byte) returns (d: seq<Byte>)
      ensures d == Splice(data, offset, buf, heap)
    {
      var newSize := offset + |buf|;
      d := data;
      if newSize > |data| {
        d := data + seq(newSize - |data|, i requires i >= 0 => heap(|data| + i));
      }
      for i := 0 to |buf|
        invariant |d| == if newSize > |data| then newSize else |data|
        invariant forall x :: 0 <= x < |d| ==> d[x] == if offset <= x < offset + i then buf[x - offset] else if x < |data| then data[x] else heap(x)
      {
        d := d[offset + i := buf[i]];
      }
    }

    method Read(path: string, size: nat, offset: int, handle: Handle) returns (r: int, buf: seq<Byte>)
      requires Valid()
      ensures (r, buf) == ReadAt(inodes, path, size, offset, handle)
    {
      hide WellFormed, Closed, Inodes.FindByPath;
      var file := FindByPath(path);
      if file.None? {
        return -ENOENT, [];
      }
      var node := inodes[file.value];
      if !IsReg(node.mode) {
        return -EISDIR, [];
      }
      if handle.WriteOnly? {
        return -EACCES, [];
      }
      if offset < 0 {
        return -EINVAL, [];
      }
      if offset >= |node.data| {
        return 0, [];
      }
      var n := size;
      if offset + n > |node.data| {
        n := |node.data| - offset;
      }
      return n, node.data[offset..offset + n];
    }

    // ---- Statistics ----

    method CollectStatfs(i: nat, files0: nat, blocks0: nat) returns (files: nat, blocks: nat)
      requires Downward(inodes) && i < |inodes|
      ensures files == files0 + Collect(inodes, i, Files) && blocks == blocks0 + Collect(inodes, i, Figure.Bytes)
      decreases |inodes| - i
    {
      files, blocks := files0, blocks0;
      var node := inodes[i];
      if IsReg(node.mode) {
        files := files + 1;
        blocks := blocks + |node.data|;
      }
      if IsDir(node.mode) {
        for j := 0 to |node.children|
          invariant files == files0 + Own(node, Files) + CollectFirst(inodes, i, j, Files)
          invariant blocks == blocks0 + Own(node, Figure.Bytes) + CollectFirst(inodes, i, j, Figure.Bytes)
        {
          files, blocks := CollectStatfs(node.children[j], files, blocks);
        }
      }
    }

    /** The figures are the number of regular files in the whole table, and the sum of their sizes. */
    method Statfs() returns (files: nat, blocks: nat)
      requires Valid()
      ensures files == TableFigure(inodes, |inodes|, Files) && blocks == TableFigure(inodes, |inodes|, Figure.Bytes)
    {
      TreeDownward(inodes);
      WalkIsTable(inodes, Files);
      WalkIsTable(inodes, Figure.Bytes);
      files, blocks := CollectStatfs(0, 0, 0);
    }

    // ---- Recovery ----

    /** Decode two characters for each byte announced into the data buffer, which must hold them. */
    method DecodeHex(hex: string, size: nat) returns (r: Option<seq<Byte>>)
      requires size <= DATA_SIZE
      ensures r == Decode(hex, size)
    {
      var buf := new Byte[DATA_SIZE];
      hide HexAt;
      for i := 0 to size
        invariant Decode(hex, i) == Some(buf[..i])
      {
        var x := HexAt(hex, i);
        if x.None? {
          Unset(hex, i + 1, size);
          return None;
        }
        buf[i] := x.value;
        assert buf[..i + 1] == buf[..i] + [x.value];
      }
      return Some(buf[..size]);
    }

    /** Scan the fields of a write record, and decode its data. */
    method ScanWrite(s: string) returns (r: Outcome)
      ensures r == ParseWrite(s)
    {
      hide ScanWord, ScanInt, ScanUnsigned, Decode;
      var path := ScanWord(s);
      if path.None? {
        return Skip;
      }
      if |path.value.value| >= PATH_SIZE {
        return Wild(LongPath);
      }
      var offset := ScanInt(path.value.rest);
      if offset.None? {
        return Skip;
      }
      var size := ScanUnsigned(offset.value.rest, 10, WORD);
      if size.None? {
        return Skip;
      }
      var hex := ScanWord(size.value.rest);
      if hex.None? {
        return Skip;
      }
      if size.value.value > DATA_SIZE {
        return Wild(LongData);
      }
      var data := DecodeHex(hex.value.value, size.value.value);
      if data.None? {
        return Wild(NoDigit);
      }
      return Do(Op.Write(path.value.value, offset.value.value, data.value));
    }

    method ScanLine(line: string) returns (r: Outcome)
      ensures r == Parse(line)
    {
      if line != "" && line[0] == 'W' {
        r := ScanWrite(line[1..]);
      } else {
        r := Parse(line);
      }
    }

    method ReplayOne(op: Op, heap: nat -> Byte)
      requires Valid() && isReplaying
      modifies this`inodes, this`log
      ensures Valid() && inodes == Exec(old(inodes), op, NoHandle, heap).0 && log == old(log)
    {
      var r;
      match op {
        case Mkdir(path, mode) => r := Mkdir(path, mode);
        case Mknod(path, mode) => r := Mknod(path, mode);
        case Write(path, offset, data) => r := Write(path, data, offset, NoHandle, heap);
        case Symlink(path, target) => r := Symlink(target, path);
      }
      assert log == old(log) + "" == old(log);
    }

    /** Replay all lines of the log, as long as the source's behaviour is defined; nothing is appended to
        the log meanwhile. */
    method LoadLog(heap: nat -> Byte) returns (defined: bool)
      requires Valid() && isReplaying
      modifies this`inodes, this`log
      ensures Valid() && log == old(log)
      ensures ReplayLines(old(inodes), Lines(log, LINE_SIZE), heap) == if defined then Some(inodes) else None
    {
      hide WellFormed, Closed, Exec, Parse, LineLength;
      var rest := log;
      while rest != ""
        invariant Valid() && log == old(log)
        invariant ReplayLines(inodes, Lines(rest, LINE_SIZE), heap) == ReplayLines(old(inodes), Lines(log, LINE_SIZE), heap)
        decreases |rest|
      {
        var n := LineLength(rest, LINE_SIZE);
        var line := rest[..n];
        assert Lines(rest, LINE_SIZE)[0] == line && Lines(rest, LINE_SIZE)[1..] == Lines(rest[n..], LINE_SIZE);
        var op := ScanLine(line);
        match op {
          case Skip => {}
          case Wild(_) => return false;
          case Do(o) => ReplayOne(o, heap);
        }
        rest := rest[n..];
      }
      return true;
    }

    /** Mounting: recovery runs with logging off, and leaves the log as it was. */
    method Mount(heap: nat -> Byte) returns (defined: bool)
      requires Valid()
      modifies this
      ensures Valid() && log == old(log) && !isReplaying
      ensures ReplayLines(old(inodes), Lines(log, LINE_SIZE), heap) == if defined then Some(inodes) else None
    {
      isReplaying := true;
      defined := LoadLog(heap);
      isReplaying := false;
    }
  }

  /** Once a byte has no digit, none after it helps. */
  lemma {:induction false} Unset(hex: string, n: nat, size: nat)
    requires n <= size && Decode(hex, n) == None
    ensures Decode(hex, size) == None
  {
    if n < size { Unset(hex, n, size - 1); }
  }

  const Nothing: nat -> Byte := (x: nat) => 0 as Byte

  /** Setting the target of a new symbolic link. */
  lemma TargetSet(t: Table, parent: nat, name: string, mode: nat, target: string)
    requires parent < |t|
    ensures var u, n := Added(t, parent, NewNode(parent, name, mode, None)), |t|;
      n < |u| && u[n := u[n].(target := Some(target))] == Added(t, parent, NewNode(parent, name, mode, Some(target)))
  {
  }

  lemma {:induction false} SkipTwice(s: string)
    ensures SkipSlashes(SkipSlashes(s)) == SkipSlashes(s) && Tokens(SkipSlashes(s)) == Tokens(s)
  {
    if s != "" && s[0] == '/' { SkipTwice(s[1..]); }
  }
}
