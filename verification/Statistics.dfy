/**
The figures of `statfs`: a recursive walk over the tree counts regular files and their bytes, and finds
exactly those of the whole table.
*/
module Statistics {
  import opened Inodes

  datatype Figure = Files | Bytes

  /** What one inode adds to a figure. */
  function Own(n: INode, f: Figure): nat {
    if !IsReg(n.mode) then 0 else if f.Files? then 1 else |n.data|
  }

  /** Children have higher indices than their parent. */
  ghost predicate Downward(t: Table) {
    forall i, j :: 0 <= i < |t| && 0 <= j < |t[i].children| ==> i < t[i].children[j] < |t|
  }

  /** The walk below inode `i`. */
  ghost function Collect(t: Table, i: nat, f: Figure): nat
    requires Downward(t) && i < |t|
    decreases |t| - i, 0
  {
    Own(t[i], f) + if IsDir(t[i].mode) then CollectFirst(t, i, |t[i].children|, f) else 0
  }

  /** The walks below the first `n` children of inode `i`. */
  ghost function CollectFirst(t: Table, i: nat, n: nat, f: Figure): nat
    requires Downward(t) && i < |t| && n <= |t[i].children|
    decreases |t| - i - 1, n + 1
  {
    if n == 0 then 0 else CollectFirst(t, i, n - 1, f) + Collect(t, t[i].children[n - 1], f)
  }

  /** The figure of the first `n` inodes of the table. */
  function TableFigure(t: Table, n: nat, f: Figure): nat
    requires n <= |t|
  {
    if n == 0 then 0 else TableFigure(t, n - 1, f) + Own(t[n - 1], f)
  }

  lemma {:induction false} KidsAbove(t: Table, k: nat, n: nat)
    requires Parents(t) && n <= |t|
    ensures forall j :: 0 <= j < |Kids(t, k, n)| ==> k < Kids(t, k, n)[j] < |t|
  {
    if n > 1 { KidsAbove(t, k, n - 1); }
  }

  lemma TreeDownward(t: Table)
    requires Parents(t) && Linked(t)
    ensures Downward(t)
  {
    forall i | 0 <= i < |t| ensures forall j :: 0 <= j < |t[i].children| ==> i < t[i].children[j] < |t| {
      KidsAbove(t, i, |t|);
    }
  }

  /** The walks below the inodes from `k` on and before `n` whose parents come before `k`. */
  ghost function Front(t: Table, k: nat, n: nat, f: Figure): nat
    requires Downward(t) && n <= |t|
  {
    if n <= k then 0 else Front(t, k, n - 1, f) + if t[n - 1].parent < k then Collect(t, n - 1, f) else 0
  }

  /** The walks below the children of `k` that come before `n`. */
  ghost function Under(t: Table, k: nat, n: nat, f: Figure): nat
    requires Downward(t) && n <= |t|
  {
    if n <= 1 then 0 else Under(t, k, n - 1, f) + if t[n - 1].parent == k then Collect(t, n - 1, f) else 0
  }

  lemma {:induction false} NoneUnder(t: Table, k: nat, n: nat, f: Figure)
    requires Parents(t) && Downward(t) && n <= |t| && n <= k + 1
    ensures Under(t, k, n, f) == 0
  {
    if n > 1 { NoneUnder(t, k, n - 1, f); }
  }

  /** Moving the cut past `k` replaces the walk below `k` by the walks below its children. */
  lemma {:induction false} FrontStep(t: Table, k: nat, n: nat, f: Figure)
    requires Parents(t) && Downward(t) && 1 <= k < n <= |t|
    ensures Front(t, k + 1, n, f) + Collect(t, k, f) == Front(t, k, n, f) + Under(t, k, n, f)
    decreases n
  {
    hide Collect, CollectFirst, Downward;
    if n == k + 1 { NoneUnder(t, k, n, f); } else { FrontStep(t, k, n - 1, f); }
  }

  lemma {:induction false} FrontOfRoot(t: Table, n: nat, f: Figure)
    requires Parents(t) && Downward(t) && n <= |t|
    ensures Front(t, 1, n, f) == Under(t, 0, n, f)
  {
    if n > 1 { FrontOfRoot(t, n - 1, f); }
  }

  /** The children listed are the children found in the table. */
  lemma {:induction false} ChildrenUnder(t: Table, k: nat, n: nat, f: Figure)
    requires Parents(t) && Downward(t) && k < |t| && n <= |t|
    requires Kids(t, k, n) <= t[k].children
    ensures CollectFirst(t, k, |Kids(t, k, n)|, f) == Under(t, k, n, f)
  {
    if n > 1 {
      assert Kids(t, k, n - 1) <= Kids(t, k, n);
      ChildrenUnder(t, k, n - 1, f);
    }
  }

  /** An inode that is no directory has no children to walk. */
  lemma CollectStep(t: Table, k: nat, f: Figure)
    requires Parents(t) && Linked(t) && Named(t) && Downward(t) && k < |t|
    ensures Collect(t, k, f) == Own(t[k], f) + Under(t, k, |t|, f)
  {
    ChildrenUnder(t, k, |t|, f);
    if !IsDir(t[k].mode) { NoChildren(t, k); }
  }

  lemma NoChildren(t: Table, k: nat)
    requires Parents(t) && Linked(t) && Named(t) && k < |t| && !IsDir(t[k].mode)
    ensures t[k].children == []
  {
    var cs := t[k].children;
    if |cs| > 0 {
      KidsMember(t, k, |t|, cs[0]);
      assert false;
    }
  }

  /** At every cut, what is counted before it and the walks that cross it add up to the whole walk. */
  lemma {:induction false} CutAt(t: Table, k: nat, f: Figure)
    requires Parents(t) && Linked(t) && Named(t) && Downward(t) && 1 <= k <= |t|
    ensures TableFigure(t, k, f) + Front(t, k, |t|, f) == Collect(t, 0, f)
  {
    hide Collect, Front, Under, Own, Downward, Linked, Named, Parents;
    if k == 1 {
      FrontOfRoot(t, |t|, f);
      CollectStep(t, 0, f);
      assert TableFigure(t, 1, f) == TableFigure(t, 0, f) + Own(t[0], f);
    } else {
      CutAt(t, k - 1, f);
      FrontStep(t, k - 1, |t|, f);
      CollectStep(t, k - 1, f);
    }
  }

  /** The walk from the root counts every regular file of the tree once, and all its bytes. */
  lemma WalkIsTable(t: Table, f: Figure)
    requires WellFormed(t) && Downward(t)
    ensures Collect(t, 0, f) == TableFigure(t, |t|, f)
  {
    CutAt(t, |t|, f);
  }
}
