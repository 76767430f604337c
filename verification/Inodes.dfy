/**
The inode tree as a table: an inode is known by its index, the root is 0, and inodes are only ever added.
How names and paths are resolved, how an inode is created, and what stays true of the tree.
*/
module Inodes {
  import opened Bytes
  import opened Options

  const MAX_NAME: nat := 255
  const MAX_CHILDREN: nat := 1024
  const PATH_BUFFER: nat := 1024

  datatype INode = INode(parent: nat, children: seq<nat>, name: string, mode: nat, nlink: nat,
                         data: seq<Byte>, target: Option<string>)

  type Table = seq<INode>

  // ---- Modes ----

  function TypeBits(mode: nat): nat {
    mode / 0x1000 % 16
  }

  predicate IsDir(mode: nat) { TypeBits(mode) == 4 }

  predicate IsReg(mode: nat) { TypeBits(mode) == 8 }

  /** Bitwise or. */
  function Or(a: nat, b: nat): nat
    decreases a + b
  {
    if a == 0 then b else if b == 0 then a
    else (if a % 2 == 1 || b % 2 == 1 then 1 else 0) + 2 * Or(a / 2, b / 2)
  }

  function Root(): INode {
    INode(0, [], "", 0x41ED, 2, [], None)
  }

  // ---- Names and paths ----

  predicate Below(cs: seq<nat>, n: nat) {
    forall j :: 0 <= j < |cs| ==> cs[j] < n
  }

  /** Child indices lie inside the table. */
  predicate Closed(t: Table) {
    |t| >= 1 && forall i :: 0 <= i < |t| ==> Below(t[i].children, |t|)
  }

  function FirstNamed(t: Table, cs: seq<nat>, name: string): (r: Option<nat>)
    requires Below(cs, |t|)
    ensures r.Some? ==> r.value < |t| && r.value in cs && t[r.value].name == name
    ensures r.None? ==> forall j :: 0 <= j < |cs| ==> t[cs[j]].name != name
  {
    if cs == [] then None else if t[cs[0]].name == name then Some(cs[0]) else FirstNamed(t, cs[1..], name)
  }

  function FindChild(t: Table, dir: nat, name: string): (r: Option<nat>)
    requires Closed(t) && dir < |t|
    ensures r.Some? ==> r.value < |t|
  {
    if IsDir(t[dir].mode) then FirstNamed(t, t[dir].children, name) else None
  }

  function SkipSlashes(s: string): (t: string)
    ensures |t| <= |s| && (t != "" ==> t[0] != '/')
  {
    if s != "" && s[0] == '/' then SkipSlashes(s[1..]) else s
  }

  function TokenLength(s: string): (n: nat)
    ensures n <= |s| && (n < |s| ==> s[n] == '/') && forall i :: 0 <= i < n ==> s[i] != '/'
  {
    if s == "" || s[0] == '/' then 0 else 1 + TokenLength(s[1..])
  }

  /** The tokens that `strtok` delivers with the delimiter '/'. */
  function Tokens(s: string): seq<string>
    decreases |s|
  {
    var t := SkipSlashes(s);
    if t == "" then [] else [t[..TokenLength(t)]] + Tokens(t[TokenLength(t)..])
  }

  function Walk(t: Table, cur: nat, names: seq<string>): (r: Option<nat>)
    requires Closed(t) && cur < |t|
    ensures r.Some? ==> r.value < |t|
    decreases |names|
  {
    if names == [] then Some(cur)
    else match FindChild(t, cur, names[0])
      case None => None
      case Some(c) => Walk(t, c, names[1..])
  }

  /** What `snprintf` leaves in a buffer of `cap` bytes. */
  function Truncate(s: string, cap: nat): string
    requires cap > 0
  {
    if |s| < cap then s else s[..cap - 1]
  }

  function FindByPath(t: Table, path: string): (r: Option<nat>)
    requires Closed(t)
    ensures r.Some? ==> r.value < |t|
  {
    Walk(t, 0, Tokens(Truncate(path, PATH_BUFFER)))
  }

  function LastSlash(s: string): (p: int)
    ensures -1 <= p < |s| && (p >= 0 ==> s[p] == '/') && forall i :: p < i < |s| ==> s[i] != '/'
  {
    if s == "" then -1 else if s[|s| - 1] == '/' then |s| - 1 else LastSlash(s[..|s| - 1])
  }

  function ParseParent(t: Table, path: string): (r: Option<(nat, string)>)
    requires Closed(t)
    ensures r.Some? ==> r.value.0 < |t| && GoodName(r.value.1)
  {
    var buf := Truncate(path, PATH_BUFFER);
    var p := LastSlash(buf);
    if p < 0 || p + 1 == |buf| then None
    else
      var name := Truncate(buf[p + 1..], MAX_NAME + 1);
      assert forall i :: 0 <= i < |name| ==> name[i] == buf[p + 1 + i];
      if p == 0 then Some((0, name))
      else match FindByPath(t, buf[..p])
        case None => None
        case Some(i) => Some((i, name))
  }

  // ---- Creating an inode ----

  function NewNode(parent: nat, name: string, mode: nat, target: Option<string>): INode {
    INode(parent, [], Truncate(name, MAX_NAME + 1), mode, if IsDir(mode) then 2 else 1, [], target)
  }

  function Added(t: Table, parent: nat, node: INode): Table
    requires parent < |t|
  {
    t[parent := t[parent].(children := t[parent].children + [|t|])] + [node]
  }

  // ---- The invariant ----

  /** A component of a path, of any length. */
  predicate Component(s: string) {
    s != "" && forall i :: 0 <= i < |s| ==> s[i] != '/'
  }

  predicate GoodName(name: string) {
    Component(name) && |name| <= MAX_NAME
  }

  /** The inodes below `n` whose parent is `k`, in the order of their creation. */
  function Kids(t: Table, k: nat, n: nat): (cs: seq<nat>)
    requires n <= |t|
  {
    if n <= 1 then [] else Kids(t, k, n - 1) + (if t[n - 1].parent == k then [n - 1] else [])
  }

  lemma {:induction false} KidsMember(t: Table, k: nat, n: nat, c: nat)
    requires n <= |t|
    ensures c in Kids(t, k, n) <==> 1 <= c < n && t[c].parent == k
  {
    if n > 1 { KidsMember(t, k, n - 1, c); }
  }

  /** Parent pointers lead towards the root, which is a directory. */
  ghost predicate Parents(t: Table) {
    |t| >= 1 && IsDir(t[0].mode) && forall i :: 1 <= i < |t| ==> t[i].parent < i
  }

  /** The list of children of every inode holds exactly the inodes that name it as parent, each once. */
  ghost predicate Linked(t: Table) {
    forall k :: 0 <= k < |t| ==> t[k].children == Kids(t, k, |t|)
  }

  /** Names are good, and only directories have children. */
  ghost predicate Named(t: Table)
    requires Parents(t)
  {
    forall i :: 1 <= i < |t| ==> GoodName(t[i].name) && IsDir(t[t[i].parent].mode)
  }

  /** Names are unique among siblings. */
  ghost predicate Unique(t: Table) {
    forall i, j :: 1 <= i < j < |t| && t[i].parent == t[j].parent ==> t[i].name != t[j].name
  }

  ghost predicate Narrow(t: Table) {
    forall k :: 0 <= k < |t| ==> |t[k].children| <= MAX_CHILDREN
  }

  ghost predicate WellFormed(t: Table) {
    Parents(t) && Linked(t) && Named(t) && Unique(t) && Narrow(t)
  }

  lemma {:induction false} KidsBelow(t: Table, k: nat, n: nat)
    requires n <= |t|
    ensures Below(Kids(t, k, n), |t|)
  {
    if n > 1 { KidsBelow(t, k, n - 1); }
  }

  lemma TreeClosed(t: Table)
    requires Parents(t) && Linked(t)
    ensures Closed(t)
  {
    forall i | 0 <= i < |t| ensures Below(t[i].children, |t|) { KidsBelow(t, i, |t|); }
  }

  lemma RootWellFormed()
    ensures WellFormed([Root()])
  {
  }

  /** The list of children depends on parent pointers alone. */
  lemma {:induction false} KidsSame(t: Table, u: Table, k: nat, n: nat)
    requires n <= |t| && n <= |u| && forall i :: 1 <= i < n ==> t[i].parent == u[i].parent
    ensures Kids(t, k, n) == Kids(u, k, n)
  {
    if n > 1 { KidsSame(t, u, k, n - 1); }
  }

  lemma {:induction false} NoKids(t: Table, k: nat, n: nat)
    requires n <= |t| && n <= k + 1 && forall i :: 1 <= i < |t| ==> t[i].parent < i
    ensures Kids(t, k, n) == []
  {
    if n > 1 { NoKids(t, k, n - 1); }
  }

  lemma AddedLinked(t: Table, p: nat, node: INode)
    requires Parents(t) && Linked(t) && p < |t| && node.parent == p && node.children == []
    ensures Parents(Added(t, p, node)) && Linked(Added(t, p, node))
  {
    var u := Added(t, p, node);
    forall k | 0 <= k < |u| ensures u[k].children == Kids(u, k, |u|) { AddedKids(t, p, node, k); }
  }

  lemma AddedKids(t: Table, p: nat, node: INode, k: nat)
    requires Parents(t) && Linked(t) && p < |t| && node.parent == p && node.children == [] && k <= |t|
    ensures Added(t, p, node)[k].children == Kids(Added(t, p, node), k, |t| + 1)
  {
    var u := Added(t, p, node);
    KidsSame(t, u, k, |t|);
    if k == |t| { NoKids(t, k, |t|); }
  }

  /** No child of `p` has the name. */
  ghost predicate NewName(t: Table, p: nat, name: string) {
    forall c :: 1 <= c < |t| && t[c].parent == p ==> t[c].name != name
  }

  /** A failed search means that the name is new. */
  lemma SearchedName(t: Table, p: nat, name: string)
    requires WellFormed(t) && Closed(t) && p < |t| && IsDir(t[p].mode) && FindChild(t, p, name) == None
    ensures NewName(t, p, name)
  {
    hide Named, Unique, Narrow;
    var cs := t[p].children;
    forall c | 1 <= c < |t| && t[c].parent == p ensures t[c].name != name {
      KidsMember(t, p, |t|, c);
      var j :| 0 <= j < |cs| && cs[j] == c;
      assert t[cs[j]].name != name;
    }
  }

  lemma AddedUnique(t: Table, p: nat, node: INode)
    requires Unique(t) && p < |t| && node.parent == p
    requires NewName(t, p, node.name)
    ensures Unique(Added(t, p, node))
  {
    var u := Added(t, p, node);
    forall i, j | 1 <= i < j < |u| && u[i].parent == u[j].parent ensures u[i].name != u[j].name {
      if j == |t| { assert t[i].parent == p; }
    }
  }

  /** Adding a child whose name is good and new to a directory with room keeps the invariant. */
  lemma AddedWellFormed(t: Table, p: nat, node: INode)
    requires WellFormed(t) && p < |t| && node.parent == p && node.children == [] && IsDir(t[p].mode)
    requires |t[p].children| < MAX_CHILDREN && GoodName(node.name)
    requires NewName(t, p, node.name)
    ensures WellFormed(Added(t, p, node))
  {
    AddedLinked(t, p, node);
    AddedUnique(t, p, node);
    AddedNamed(t, p, node);
  }

  lemma AddedNamed(t: Table, p: nat, node: INode)
    requires Parents(t) && Named(t) && Narrow(t) && p < |t| && node.parent == p && node.children == [] && IsDir(t[p].mode)
    requires |t[p].children| < MAX_CHILDREN && GoodName(node.name) && Parents(Added(t, p, node))
    ensures Named(Added(t, p, node)) && Narrow(Added(t, p, node))
  {
    hide GoodName;
  }

  /** All but contents is the same. */
  ghost predicate SameTree(t: Table, u: Table) {
    |u| == |t| && forall k :: 0 <= k < |t| ==> u[k].(data := t[k].data) == t[k]
  }

  lemma SameLinked(t: Table, u: Table)
    requires SameTree(t, u) && Linked(t)
    ensures Linked(u)
  {
    forall k | 0 <= k < |u| ensures u[k].children == Kids(u, k, |u|) { KidsSame(t, u, k, |t|); }
  }

  lemma SameNamed(t: Table, u: Table)
    requires SameTree(t, u) && Parents(t) && Named(t) && Narrow(t)
    ensures Parents(u) && Named(u) && Narrow(u)
  {
    hide GoodName, TypeBits;
    assert forall k :: 0 <= k < |t| ==> u[k].parent == t[k].parent && u[k].name == t[k].name && u[k].mode == t[k].mode && u[k].children == t[k].children;
  }

  lemma SameUnique(t: Table, u: Table)
    requires SameTree(t, u) && Unique(t)
    ensures Unique(u)
  {
    assert forall k :: 0 <= k < |t| ==> u[k].parent == t[k].parent && u[k].name == t[k].name;
  }

  /** Changing contents keeps the tree. */
  lemma SameWellFormed(t: Table, u: Table)
    requires SameTree(t, u) && WellFormed(t)
    ensures WellFormed(u)
  {
    hide SameTree, Parents, Linked, Named, Unique, Narrow;
    SameLinked(t, u);
    SameNamed(t, u);
    SameUnique(t, u);
  }

  // ---- Finding an inode by its path ----

  function NamesTo(t: Table, i: nat): seq<string>
    requires i < |t| && forall j :: 1 <= j < |t| ==> t[j].parent < j
  {
    if i == 0 then [] else NamesTo(t, t[i].parent) + [t[i].name]
  }

  function PathOf(t: Table, i: nat): string
    requires i < |t| && forall j :: 1 <= j < |t| ==> t[j].parent < j
  {
    if i == 0 then "" else PathOf(t, t[i].parent) + "/" + t[i].name
  }

  lemma TokensStep(s: string)
    requires SkipSlashes(s) != ""
    ensures var t := SkipSlashes(s); Tokens(s) == [t[..TokenLength(t)]] + Tokens(t[TokenLength(t)..]) && TokenLength(t) > 0
  {
  }

  lemma {:induction false} TokensSnoc(s: string, name: string)
    requires Component(name)
    ensures Tokens(s + "/" + name) == Tokens(s) + [name]
    decreases |s|
  {
    hide *;
    var x := "/" + name;
    assert s + "/" + name == s + x;
    var t := SkipSlashes(s);
    if t == "" {
      SkipOver(s, x);
      OneToken(name);
    } else {
      var n := TokenLength(t);
      TokensStep(s);
      SkipWithin(s, x);
      TokensStep(s + x);
      TokenWithin(t, x);
      assert (t + x)[..n] == t[..n] && (t + x)[n..] == t[n..] + x;
      TokensSnoc(t[n..], name);
      assert t[n..] + "/" + name == t[n..] + x;
    }
  }

  lemma OneToken(name: string)
    requires Component(name)
    ensures Tokens("/" + name) == [name] == Tokens(name)
  {
    assert ("/" + name)[1..] == name;
    assert TokenLength(name) == |name|;
    assert name[..|name|] == name && name[|name|..] == "";
    assert SkipSlashes("/" + name) == SkipSlashes(name) == name;
    assert Tokens("") == [];
  }

  lemma {:induction false} SkipOver(s: string, x: string)
    requires SkipSlashes(s) == ""
    ensures Tokens(s + x) == Tokens(x) && Tokens(s) == []
  {
    if s == "" {
      assert s + x == x;
    } else {
      assert (s + x)[1..] == s[1..] + x;
      SkipOver(s[1..], x);
    }
  }

  lemma {:induction false} SkipWithin(s: string, x: string)
    requires SkipSlashes(s) != ""
    ensures SkipSlashes(s + x) == SkipSlashes(s) + x
  {
    if s[0] == '/' {
      assert (s + x)[1..] == s[1..] + x;
      SkipWithin(s[1..], x);
    }
  }

  lemma {:induction false} TokenWithin(s: string, x: string)
    requires x != "" && x[0] == '/'
    ensures TokenLength(s + x) == TokenLength(s)
  {
    if s == "" {
      assert s + x == x;
    } else if s[0] != '/' {
      assert (s + x)[1..] == s[1..] + x;
      TokenWithin(s[1..], x);
    }
  }

  lemma {:induction false} PathTokens(t: Table, i: nat)
    requires WellFormed(t) && i < |t|
    ensures Tokens(PathOf(t, i)) == NamesTo(t, i)
  {
    if i > 0 {
      PathTokens(t, t[i].parent);
      TokensSnoc(PathOf(t, t[i].parent), t[i].name);
    }
  }

  lemma {:induction false} WalkSnoc(t: Table, cur: nat, names: seq<string>, name: string)
    requires Closed(t) && cur < |t|
    ensures Walk(t, cur, names + [name]) ==
      match Walk(t, cur, names) case None => None case Some(d) => FindChild(t, d, name)
    decreases |names|
  {
    if names == [] {
      assert names + [name] == [name] && [name][1..] == [];
    } else {
      assert (names + [name])[1..] == names[1..] + [name];
      match FindChild(t, cur, names[0])
      case None =>
      case Some(c) => WalkSnoc(t, c, names[1..], name);
    }
  }

  lemma {:induction false} FirstIsOnly(t: Table, cs: seq<nat>, name: string, j: nat)
    requires Below(cs, |t|) && j < |cs| && t[cs[j]].name == name
    requires forall l :: 0 <= l < |cs| && cs[l] != cs[j] ==> t[cs[l]].name != name
    ensures FirstNamed(t, cs, name) == Some(cs[j])
  {
    if t[cs[0]].name != name { FirstIsOnly(t, cs[1..], name, j - 1); }
  }

  lemma ChildFound(t: Table, d: nat, name: string, i: nat)
    requires WellFormed(t) && Closed(t) && d < |t| && 1 <= i < |t|
    ensures FindChild(t, d, name) == Some(i) <==> t[i].parent == d && t[i].name == name
  {
    KidsMember(t, d, |t|, i);
    if t[i].parent == d && t[i].name == name {
      assert IsDir(t[d].mode);
      var cs := t[d].children;
      var j :| 0 <= j < |cs| && cs[j] == i;
      OthersNamed(t, d, i);
      FirstIsOnly(t, cs, name, j);
    }
  }

  lemma OthersNamed(t: Table, d: nat, i: nat)
    requires WellFormed(t) && d < |t| && 1 <= i < |t| && t[i].parent == d && Below(t[d].children, |t|)
    ensures forall l :: 0 <= l < |t[d].children| && t[d].children[l] != i ==> t[t[d].children[l]].name != t[i].name
  {
    hide Named, Narrow;
    var cs := t[d].children;
    forall l | 0 <= l < |cs| && cs[l] != i ensures t[cs[l]].name != t[i].name { KidsMember(t, d, |t|, cs[l]); }
  }

  lemma RootNotFound(t: Table, d: nat, name: string)
    requires Linked(t) && Closed(t) && d < |t|
    ensures FindChild(t, d, name) != Some(0)
  {
    KidsMember(t, d, |t|, 0);
  }

  /** The last step of a walk leads to inode `i` if and only if it starts at its parent and has its name. */
  lemma LastStep(t: Table, w: Option<nat>, last: string, i: nat)
    requires WellFormed(t) && Closed(t) && i < |t| && (w.Some? ==> w.value < |t|)
    ensures (w.Some? && FindChild(t, w.value, last) == Some(i)) <==> (i > 0 && w == Some(t[i].parent) && t[i].name == last)
  {
    hide WellFormed, Closed, FindChild;
    if w.Some? {
      RootNotFound(t, w.value, last) by { LinkedToo(t); }
      if i > 0 { ChildFound(t, w.value, last, i); }
    }
  }

  lemma LinkedToo(t: Table)
    requires WellFormed(t)
    ensures Linked(t) && forall j :: 1 <= j < |t| ==> t[j].parent < j
  {
  }

  lemma NoNames(t: Table, i: nat)
    requires Closed(t) && i < |t| && forall j :: 1 <= j < |t| ==> t[j].parent < j
    ensures Walk(t, 0, []) == Some(i) <==> NamesTo(t, i) == []
  {
  }

  /** Walking from the root leads to an inode if and only if the names are those on the way to it. */
  lemma {:induction false} WalkExactly(t: Table, names: seq<string>, i: nat)
    requires WellFormed(t) && Closed(t) && i < |t| && forall j :: 1 <= j < |t| ==> t[j].parent < j
    ensures Walk(t, 0, names) == Some(i) <==> names == NamesTo(t, i)
    decreases |names|
  {
    hide *;
    if names == [] {
      NoNames(t, i);
    } else {
      var front, last := names[..|names| - 1], names[|names| - 1];
      assert names == front + [last];
      NotEmpty(t);
      WalkSnoc(t, 0, front, last);
      NamesStep(t, i, front, last);
      LastStep(t, Walk(t, 0, front), last, i);
      if i > 0 { WalkExactly(t, front, t[i].parent); }
    }
  }

  lemma NotEmpty(t: Table)
    requires Closed(t)
    ensures |t| > 0
  {
  }

  lemma NamesStep(t: Table, i: nat, front: seq<string>, last: string)
    requires i < |t| && forall j :: 1 <= j < |t| ==> t[j].parent < j
    ensures front + [last] == NamesTo(t, i) <==> i > 0 && front == NamesTo(t, t[i].parent) && last == t[i].name
  {
    if front + [last] == NamesTo(t, i) {
      assert (front + [last])[..|front|] == front;
      var ns := NamesTo(t, i);
      assert i > 0;
      assert ns[..|ns| - 1] == NamesTo(t, t[i].parent);
    }
  }

  /** A path leads to an inode if and only if its components are the names on the way to it. */
  lemma FindExactly(t: Table, path: string, i: nat)
    requires WellFormed(t) && Closed(t) && i < |t|
    ensures FindByPath(t, path) == Some(i) <==> Tokens(Truncate(path, PATH_BUFFER)) == NamesTo(t, i)
  {
    LinkedToo(t);
    WalkExactly(t, Tokens(Truncate(path, PATH_BUFFER)), i);
  }

  /** No inode has a name longer than the longest good one. */
  lemma LongNotFound(t: Table, path: string, front: seq<string>, last: string)
    requires WellFormed(t) && Closed(t) && Tokens(Truncate(path, PATH_BUFFER)) == front + [last] && |last| > MAX_NAME
    ensures FindByPath(t, path) == None
  {
    var r := FindByPath(t, path);
    LinkedToo(t);
    if r.Some? {
      var i := r.value;
      FindExactly(t, path, i);
      NamesStep(t, i, front, last);
      GoodNames(t, i);
    }
  }

  lemma GoodNames(t: Table, i: nat)
    requires WellFormed(t) && 1 <= i < |t|
    ensures GoodName(t[i].name)
  {
  }

  /** Every inode whose path fits the buffer is found by its path. */
  lemma PathFound(t: Table, i: nat)
    requires WellFormed(t) && Closed(t) && i < |t| && |PathOf(t, i)| < PATH_BUFFER
    ensures FindByPath(t, PathOf(t, i)) == Some(i)
  {
    PathTokens(t, i);
    FindExactly(t, PathOf(t, i), i);
  }
}
