/**
Every step of the lock-based map keeps its invariant.
*/
module LockMapSteps {
  import opened Buckets
  import opened Options
  import opened LockMap

  // ---- Locks ----

  /** The lock bit after a step that leads a thread of bucket `b` from `l` to `l'`. */
  predicate LockMoves(locked: bool, l: Local, l': Local, locked': bool) {
    && (Inside(l') && !Inside(l) ==> !locked)
    && locked' == (Inside(l') || (locked && !Inside(l)))
  }

  lemma ExclusiveStep(buckets: seq<Bucket>, threads: seq<Local>, t: nat, b: nat, bk: Bucket, l': Local)
    requires Exclusive(buckets, threads) && t < |threads| && Working(threads[t]) && b == Index(threads[t].val, |buckets|)
    requires Working(l') ==> l'.val == threads[t].val
    requires LockMoves(buckets[b].locked, threads[t], l', bk.locked)
    ensures Exclusive(buckets[b := bk], threads[t := l'])
  {
    var n, ts := |buckets|, threads[t := l'];
    forall c | 0 <= c < n ensures buckets[b := bk][c].locked <==> Held(n, ts, c) {
      HeldStep(buckets, threads, t, b, bk, l', c);
    }
    forall u, w | 0 <= u < w < |ts| && Inside(ts[u]) && Inside(ts[w]) ensures Index(ts[u].val, n) != Index(ts[w].val, n) {
      if u == t && !Inside(threads[t]) { InsideLocks(buckets, threads, w); }
      if w == t && !Inside(threads[t]) { InsideLocks(buckets, threads, u); }
    }
  }

  lemma InsideLocks(buckets: seq<Bucket>, threads: seq<Local>, u: nat)
    requires Exclusive(buckets, threads) && u < |threads| && Inside(threads[u])
    ensures buckets[Index(threads[u].val, |buckets|)].locked
  {
    assert Held(|buckets|, threads, Index(threads[u].val, |buckets|));
  }

  lemma HeldStep(buckets: seq<Bucket>, threads: seq<Local>, t: nat, b: nat, bk: Bucket, l': Local, c: nat)
    requires Exclusive(buckets, threads) && t < |threads| && Working(threads[t]) && b == Index(threads[t].val, |buckets|)
    requires Working(l') ==> l'.val == threads[t].val
    requires LockMoves(buckets[b].locked, threads[t], l', bk.locked) && c < |buckets|
    ensures buckets[b := bk][c].locked <==> Held(|buckets|, threads[t := l'], c)
  {
    var n, ts := |buckets|, threads[t := l'];
    if c == b && Inside(l') { assert Inside(ts[t]) && Index(ts[t].val, n) == c; }
    if Held(n, threads, c) {
      var u :| 0 <= u < |threads| && Inside(threads[u]) && Index(threads[u].val, n) == c;
      if u != t { assert ts[u] == threads[u]; }
    }
    if Held(n, ts, c) {
      var u :| 0 <= u < |ts| && Inside(ts[u]) && Index(ts[u].val, n) == c;
      if u != t { assert ts[u] == threads[u]; assert Held(n, threads, c); }
    }
  }

  // ---- Owners ----

  lemma OwnersStep(threads: seq<Local>, t: nat, l': Local)
    requires OwnersDistinct(threads) && t < |threads|
    requires Owned(l').Some? ==> forall u :: 0 <= u < |threads| && u != t ==> Owned(threads[u]) != Owned(l')
    ensures OwnersDistinct(threads[t := l'])
  {
    var ts := threads[t := l'];
    forall u, w | 0 <= u < w < |ts| && Owned(ts[u]).Some? ensures Owned(ts[u]) != Owned(ts[w]) {
      if u != t && w != t { assert ts[u] == threads[u] && ts[w] == threads[w]; }
    }
  }

  // ---- What a step leaves to the other threads ----

  /** Bucket `c` has the same list, of the same nodes. */
  ghost predicate Undisturbed(m: map<nat, Node>, m': map<nat, Node>, cs: seq<seq<nat>>, cs': seq<seq<nat>>, c: nat)
    requires c < |cs| == |cs'|
  {
    cs'[c] == cs[c] && forall i :: 0 <= i < |cs[c]| && cs[c][i] in m ==> cs[c][i] in m' && m'[cs[c][i]] == m[cs[c][i]]
  }

  /** Memory and lists after a step of thread `t` in bucket `b`: lists are sound, other buckets are not
      disturbed, and neither is this one unless the thread is inside; nor are other threads' nodes. */
  ghost predicate Gentle(s: State, cs: seq<seq<nat>>, t: nat, b: nat, m': map<nat, Node>, bk: Bucket, cs': seq<seq<nat>>)
    requires |cs| == |s.buckets| && b < |cs| && t < |s.threads|
  {
    && |cs'| == |cs|
    && ChainsOk(m', s.buckets[b := bk], cs') && Distinct(cs')
    && (forall c :: 0 <= c < |cs| && (c != b || !Inside(s.threads[t])) ==> Undisturbed(s.nodes, m', cs, cs', c))
    && (forall u :: 0 <= u < |s.threads| && u != t && Owned(s.threads[u]).Some? ==> NodeKept(s.nodes, m', cs', Owned(s.threads[u]).value))
  }

  ghost predicate NodeKept(m: map<nat, Node>, m': map<nat, Node>, cs': seq<seq<nat>>, x: nat) {
    (x in m ==> x in m' && m'[x] == m[x]) && !InChains(cs', x)
  }

  lemma SnapshotsKept(m: map<nat, Node>, m': map<nat, Node>, chain: seq<nat>, l: Local)
    requires SnapshotsOk(m, chain, l)
    requires forall i :: 0 <= i < |chain| && chain[i] in m ==> chain[i] in m' && m'[chain[i]] == m[chain[i]]
    requires Owned(l).Some? && Owned(l).value in m ==> Owned(l).value in m' && m'[Owned(l).value] == m[Owned(l).value]
    ensures SnapshotsOk(m', chain, l)
  {
  }

  lemma OutsideKnowsNothing(m: map<nat, Node>, chain: seq<nat>, l: Local)
    requires Working(l) && !Inside(l)
    ensures SnapshotsOk(m, chain, l)
  {
  }

  lemma OtherThreadOk(s: State, cs: seq<seq<nat>>, t: nat, b: nat, m': map<nat, Node>, bk: Bucket, cs': seq<seq<nat>>, u: nat, s': State)
    requires Inv(s, cs) && t < |s.threads| && u < |s.threads| && u != t
    requires Working(s.threads[t]) && b == BucketOf(s, s.threads[t])
    requires Gentle(s, cs, t, b, m', bk, cs')
    requires s'.nodes == m' && |s'.buckets| == |s.buckets|
    ensures ThreadOk(s', cs', s.threads[u])
  {
    var l := s.threads[u];
    assert ThreadOk(s, cs, l);
    if Owned(l).Some? { assert NodeKept(s.nodes, m', cs', Owned(l).value); }
    if Working(l) {
      var c := BucketOf(s, l);
      if Inside(l) {
        assert c != b || !Inside(s.threads[t]);
        assert Undisturbed(s.nodes, m', cs, cs', c);
        SnapshotsKept(s.nodes, m', cs[c], l);
      } else {
        OutsideKnowsNothing(m', cs'[c], l);
      }
    }
  }

  /** All parts together. */
  lemma Assemble(s: State, cs: seq<seq<nat>>, t: nat, b: nat, m': map<nat, Node>, bk: Bucket, l': Local, cs': seq<seq<nat>>)
    requires Inv(s, cs) && t < |s.threads| && Working(s.threads[t]) && b == BucketOf(s, s.threads[t])
    requires Gentle(s, cs, t, b, m', bk, cs')
    requires Working(l') ==> l'.val == s.threads[t].val
    requires LockMoves(s.buckets[b].locked, s.threads[t], l', bk.locked)
    requires Owned(l').Some? ==> forall u :: 0 <= u < |s.threads| && u != t ==> Owned(s.threads[u]) != Owned(l')
    requires ThreadOk(State(m', s.buckets[b := bk], s.threads[t := l']), cs', l')
    ensures Inv(State(m', s.buckets[b := bk], s.threads[t := l']), cs')
  {
    var s' := State(m', s.buckets[b := bk], s.threads[t := l']);
    ExclusiveStep(s.buckets, s.threads, t, b, bk, l');
    OwnersStep(s.threads, t, l');
    forall u | 0 <= u < |s'.threads| ensures ThreadOk(s', cs', s'.threads[u]) {
      if u != t { OtherThreadOk(s, cs, t, b, m', bk, cs', u, s'); }
    }
  }

  // ---- The kinds of step ----

  lemma ChainMember(cs: seq<seq<nat>>, b: nat, i: nat)
    requires b < |cs| && i < |cs[b]|
    ensures InChains(cs, cs[b][i])
  {
  }

  lemma OthersOwned(s: State, cs: seq<seq<nat>>, t: nat, x: nat)
    requires Inv(s, cs) && t < |s.threads| && Owned(s.threads[t]) == Some(x)
    ensures forall u :: 0 <= u < |s.threads| && u != t ==> Owned(s.threads[u]) != Some(x)
  {
  }

  lemma OwnedApart(s: State, cs: seq<seq<nat>>, u: nat)
    requires Inv(s, cs) && u < |s.threads| && Owned(s.threads[u]).Some?
    ensures Owned(s.threads[u]).value in s.nodes && !InChains(cs, Owned(s.threads[u]).value)
  {
    assert ThreadOk(s, cs, s.threads[u]);
  }

  /** Steps that write at most one node, in no list and owned by nobody else. */
  lemma PrivateGentle(s: State, cs: seq<seq<nat>>, t: nat, b: nat, m': map<nat, Node>, bk: Bucket, x: nat)
    requires Inv(s, cs) && t < |s.threads| && b < |cs| && bk.head == s.buckets[b].head
    requires forall y :: y in s.nodes && y != x ==> y in m' && m'[y] == s.nodes[y]
    requires m' != s.nodes ==> !InChains(cs, x) && forall u :: 0 <= u < |s.threads| && u != t ==> Owned(s.threads[u]) != Some(x)
    ensures Gentle(s, cs, t, b, m', bk, cs)
  {
    forall c | 0 <= c < |cs|
      ensures ChainOk(m', s.buckets[b := bk][c].head, cs[c], c, |cs|) && Undisturbed(s.nodes, m', cs, cs, c)
    {
      assert ChainOk(s.nodes, s.buckets[c].head, cs[c], c, |cs|);
      forall i | 0 <= i < |cs[c]| ensures cs[c][i] in m' && m'[cs[c][i]] == s.nodes[cs[c][i]] { ChainMember(cs, c, i); }
    }
    forall u | 0 <= u < |s.threads| && u != t && Owned(s.threads[u]).Some?
      ensures NodeKept(s.nodes, m', cs, Owned(s.threads[u]).value)
    {
      OwnedApart(s, cs, u);
    }
  }

  lemma PublishGentle(s: State, cs: seq<seq<nat>>, t: nat, node: nat, val: int, b: nat, bk: Bucket)
    requires Inv(s, cs) && t < |s.threads| && s.threads[t] == InsertPublish(val, node) && b == Index(val, |cs|)
    requires bk == s.buckets[b].(head := node)
    ensures Gentle(s, cs, t, b, s.nodes, bk, cs[b := [node] + cs[b]])
  {
    assert ThreadOk(s, cs, s.threads[t]);
    var cs' := cs[b := [node] + cs[b]];
    PublishChains(s.nodes, s.buckets, cs, b, node, bk);
    PublishDistinct(cs, b, node);
    forall u | 0 <= u < |s.threads| && u != t && Owned(s.threads[u]).Some?
      ensures NodeKept(s.nodes, s.nodes, cs', Owned(s.threads[u]).value)
    {
      OwnedApart(s, cs, u);
      OthersOwned(s, cs, t, node);
      PublishMembers(cs, b, node, Owned(s.threads[u]).value);
    }
  }

  lemma PublishChains(m: map<nat, Node>, buckets: seq<Bucket>, cs: seq<seq<nat>>, b: nat, node: nat, bk: Bucket)
    requires ChainsOk(m, buckets, cs) && b < |cs| && bk.head == node != 0
    requires node in m && Index(m[node].val, |cs|) == b && m[node].next == At(cs[b], 0)
    ensures ChainsOk(m, buckets[b := bk], cs[b := [node] + cs[b]])
  {
    var cs' := cs[b := [node] + cs[b]];
    forall c | 0 <= c < |cs| ensures ChainOk(m, buckets[b := bk][c].head, cs'[c], c, |cs|) {
      assert ChainOk(m, buckets[c].head, cs[c], c, |cs|);
    }
  }

  lemma PublishDistinct(cs: seq<seq<nat>>, b: nat, node: nat)
    requires Distinct(cs) && b < |cs| && !InChains(cs, node)
    ensures Distinct(cs[b := [node] + cs[b]])
  {
    forall c | 0 <= c < |cs| ensures node !in cs[c] { if node in cs[c] { assert InChains(cs, node); } }
  }

  lemma PublishMembers(cs: seq<seq<nat>>, b: nat, node: nat, x: nat)
    requires b < |cs|
    ensures InChains(cs[b := [node] + cs[b]], x) <==> x == node || InChains(cs, x)
  {
    var cs' := cs[b := [node] + cs[b]];
    if InChains(cs', x) { var c :| 0 <= c < |cs'| && x in cs'[c]; assert x == node || x in cs[c]; }
    if InChains(cs, x) { var c :| 0 <= c < |cs| && x in cs[c]; assert x in cs'[c]; }
    if x == node { assert cs'[b][0] == node; assert node in cs'[b]; }
  }

  lemma WithoutMembers(cs: seq<seq<nat>>, b: nat, pos: nat, x: nat)
    requires Distinct(cs) && b < |cs| && pos < |cs[b]|
    ensures InChains(cs[b := Without(cs[b], pos)], x) <==> InChains(cs, x) && x != cs[b][pos]
  {
    var ds := Without(cs[b], pos);
    var cs' := cs[b := ds];
    if InChains(cs', x) {
      var c :| 0 <= c < |cs'| && x in cs'[c];
      if c == b {
        var i :| 0 <= i < |ds| && ds[i] == x;
        assert ds[i] == cs[b][if i < pos then i else i + 1];
        assert x in cs[b];
      } else {
        var i :| 0 <= i < |cs[c]| && cs[c][i] == x;
        assert x != cs[b][pos];
      }
      assert x in cs[c];
    }
    if InChains(cs, x) && x != cs[b][pos] {
      var c :| 0 <= c < |cs| && x in cs[c];
      if c == b {
        var i :| 0 <= i < |cs[b]| && cs[b][i] == x;
        assert ds[if i < pos then i else i - 1] == x;
      }
      assert x in cs'[c];
    }
  }

  lemma WithoutDistinct(cs: seq<seq<nat>>, b: nat, pos: nat)
    requires Distinct(cs) && b < |cs| && pos < |cs[b]|
    ensures Distinct(cs[b := Without(cs[b], pos)])
  {
    var ds := Without(cs[b], pos);
    assert forall i :: 0 <= i < |ds| ==> ds[i] == cs[b][if i < pos then i else i + 1];
  }

  /** The memory and the head after the unlinking store. */
  function UnlinkedNodes(m: map<nat, Node>, link: Link, next: nat): map<nat, Node> {
    match link
    case Head => m
    case NextOf(p) => if p in m then m[p := m[p].(next := next)] else m
  }

  lemma UnlinkChains(m: map<nat, Node>, buckets: seq<Bucket>, cs: seq<seq<nat>>, b: nat, link: Link, pos: nat, bk: Bucket,
                     m': map<nat, Node>, cs': seq<seq<nat>>)
    requires ChainsOk(m, buckets, cs) && Distinct(cs) && b < |cs| && pos < |cs[b]| && LinkAt(cs[b], link, pos)
    requires bk.head == if link.Head? then At(cs[b], pos + 1) else buckets[b].head
    requires m' == UnlinkedNodes(m, link, At(cs[b], pos + 1)) && cs' == cs[b := Without(cs[b], pos)]
    ensures ChainsOk(m', buckets[b := bk], cs')
    ensures forall c :: 0 <= c < |cs| && c != b ==> Undisturbed(m, m', cs, cs', c)
  {
    forall c | 0 <= c < |cs|
      ensures ChainOk(m', buckets[b := bk][c].head, cs'[c], c, |cs|) && (c != b ==> Undisturbed(m, m', cs, cs', c))
    {
      assert ChainOk(m, buckets[c].head, cs[c], c, |cs|);
      if c == b { UnlinkOwnChain(m, buckets[b].head, cs[b], b, |cs|, link, pos, bk.head); }
    }
  }

  lemma UnlinkOwnChain(m: map<nat, Node>, head: nat, chain: seq<nat>, b: nat, n: nat, link: Link, pos: nat, head': nat)
    requires n > 0 && ChainOk(m, head, chain, b, n) && pos < |chain| && LinkAt(chain, link, pos)
    requires forall i, j :: 0 <= i < j < |chain| ==> chain[i] != chain[j]
    requires head' == if link.Head? then At(chain, pos + 1) else head
    ensures ChainOk(UnlinkedNodes(m, link, At(chain, pos + 1)), head', Without(chain, pos), b, n)
  {
    var m', ds := UnlinkedNodes(m, link, At(chain, pos + 1)), Without(chain, pos);
    forall i | 0 <= i < |ds| ensures ds[i] != 0 && ds[i] in m' && m'[ds[i]].next == At(ds, i + 1) && Index(m'[ds[i]].val, n) == b {
      assert ds[i] == chain[if i < pos then i else i + 1];
    }
  }

  lemma UnlinkGentle(s: State, cs: seq<seq<nat>>, t: nat, val: int, link: Link, cur: nat, next: nat, pos: nat, b: nat, bk: Bucket)
    requires Inv(s, cs) && t < |s.threads| && s.threads[t] == RemoveStore(val, link, cur, next, pos) && b == Index(val, |cs|)
    requires bk == if link.Head? then s.buckets[b].(head := next) else s.buckets[b]
    ensures pos < |cs[b]| && cur == cs[b][pos] && next == At(cs[b], pos + 1)
    ensures Gentle(s, cs, t, b, UnlinkedNodes(s.nodes, link, next), bk, cs[b := Without(cs[b], pos)])
  {
    assert ThreadOk(s, cs, s.threads[t]);
    var m', cs' := UnlinkedNodes(s.nodes, link, next), cs[b := Without(cs[b], pos)];
    UnlinkChains(s.nodes, s.buckets, cs, b, link, pos, bk, m', cs');
    WithoutDistinct(cs, b, pos);
    forall u | 0 <= u < |s.threads| && u != t && Owned(s.threads[u]).Some?
      ensures NodeKept(s.nodes, m', cs', Owned(s.threads[u]).value)
    {
      OwnedApart(s, cs, u);
      var x := Owned(s.threads[u]).value;
      WithoutMembers(cs, b, pos, x);
      if link.NextOf? { ChainMember(cs, b, pos - 1); }
    }
  }

  // ---- Every step ----

  /** Steps that read only, and steps on the lock. */
  lemma QuietKeeps(s: State, cs: seq<seq<nat>>, t: nat, l': Local, locked: bool)
    requires Inv(s, cs) && t < |s.threads| && Working(s.threads[t])
    requires Working(l') ==> l'.val == s.threads[t].val
    requires LockMoves(s.buckets[BucketOf(s, s.threads[t])].locked, s.threads[t], l', locked)
    requires Owned(l').Some? ==> Owned(l') == Owned(s.threads[t])
    requires !l'.Fault? && OwnedOk(s.nodes, cs, l')
    requires Working(l') ==> SnapshotsOk(s.nodes, cs[BucketOf(s, s.threads[t])], l')
    ensures var b := BucketOf(s, s.threads[t]);
      Inv(State(s.nodes, s.buckets[b := s.buckets[b].(locked := locked)], s.threads[t := l']), cs)
  {
    var b := BucketOf(s, s.threads[t]);
    var bk := s.buckets[b].(locked := locked);
    PrivateGentle(s, cs, t, b, s.nodes, bk, 0);
    hide SnapshotsOk, Gentle;
    Assemble(s, cs, t, b, s.nodes, bk, l', cs);
  }

  lemma SameBucket(s: State, b: nat)
    requires b < |s.buckets|
    ensures s.buckets[b := s.buckets[b].(locked := s.buckets[b].locked)] == s.buckets
  {
  }

  /** Steps that write one private node. */
  lemma PrivateKeeps(s: State, cs: seq<seq<nat>>, t: nat, m': map<nat, Node>, l': Local, x: nat)
    requires Inv(s, cs) && t < |s.threads| && Working(s.threads[t])
    requires Working(l') ==> l'.val == s.threads[t].val
    requires Inside(l') == Inside(s.threads[t])
    requires forall y :: y in s.nodes && y != x ==> y in m' && m'[y] == s.nodes[y]
    requires !InChains(cs, x) && forall u :: 0 <= u < |s.threads| && u != t ==> Owned(s.threads[u]) != Some(x)
    requires Owned(l').Some? ==> Owned(l') == Some(x)
    requires !l'.Fault? && OwnedOk(m', cs, l')
    requires Working(l') ==> SnapshotsOk(m', cs[BucketOf(s, s.threads[t])], l')
    ensures Inv(State(m', s.buckets, s.threads[t := l']), cs)
  {
    var b := BucketOf(s, s.threads[t]);
    if Inside(s.threads[t]) { InsideLocks(s.buckets, s.threads, t); }
    PrivateGentle(s, cs, t, b, m', s.buckets[b], x);
    hide SnapshotsOk, Gentle;
    Assemble(s, cs, t, b, m', s.buckets[b], l', cs);
    assert s.buckets[b := s.buckets[b]] == s.buckets;
  }

  lemma NotOwnedByOthers(s: State, cs: seq<seq<nat>>, x: nat)
    requires Inv(s, cs) && x !in s.nodes
    ensures !InChains(cs, x) && forall u :: 0 <= u < |s.threads| ==> Owned(s.threads[u]) != Some(x)
  {
    forall b | 0 <= b < |cs| ensures x !in cs[b] { assert ChainOk(s.nodes, s.buckets[b].head, cs[b], b, |cs|); }
    forall u | 0 <= u < |s.threads| ensures Owned(s.threads[u]) != Some(x) {
      if Owned(s.threads[u]).Some? { OwnedApart(s, cs, u); }
    }
  }

  lemma NothingOwned(m: map<nat, Node>, cs: seq<seq<nat>>, l: Local)
    requires Owned(l).None?
    ensures OwnedOk(m, cs, l)
  {
  }

  lemma StartExclusive(buckets: seq<Bucket>, threads: seq<Local>, t: nat, l': Local)
    requires Exclusive(buckets, threads) && t < |threads| && !Inside(threads[t]) && !Inside(l')
    ensures Exclusive(buckets, threads[t := l'])
  {
    var n, ts := |buckets|, threads[t := l'];
    forall b | 0 <= b < n ensures Held(n, ts, b) <==> Held(n, threads, b) {
      if Held(n, threads, b) {
        var u :| 0 <= u < |threads| && Inside(threads[u]) && Index(threads[u].val, n) == b;
        assert ts[u] == threads[u];
      }
      if Held(n, ts, b) {
        var u :| 0 <= u < |ts| && Inside(ts[u]) && Index(ts[u].val, n) == b;
        assert ts[u] == threads[u];
      }
    }
  }

  lemma StartKeeps(s: State, cs: seq<seq<nat>>, t: nat, call: Call)
    requires Inv(s, cs) && t < |s.threads| && s.threads[t].Idle?
    ensures Inv(s.(threads := s.threads[t := Begin(call)]), cs)
  {
    var l' := Begin(call);
    var s' := s.(threads := s.threads[t := l']);
    OwnersStep(s.threads, t, l');
    StartExclusive(s.buckets, s.threads, t, l');
    hide Exclusive, Distinct, ChainsOk, OwnersDistinct, SnapshotsOk, OwnedOk;
    NothingOwned(s.nodes, cs, l');
    OutsideKnowsNothing(s.nodes, cs[BucketOf(s, l')], l');
    forall u | 0 <= u < |s'.threads| ensures ThreadOk(s', cs, s'.threads[u]) {
      if u != t { assert ThreadOk(s, cs, s.threads[u]); }
    }
  }

  /** What the invariant says to the thread that steps. */
  lemma StepFacts(s: State, cs: seq<seq<nat>>, t: nat)
    requires Inv(s, cs) && t < |s.threads|
    ensures |cs| == |s.buckets| > 0 && ThreadOk(s, cs, s.threads[t])
    ensures Working(s.threads[t]) ==>
      var b := BucketOf(s, s.threads[t]);
      && ChainOk(s.nodes, s.buckets[b].head, cs[b], b, |cs|)
      && (Inside(s.threads[t]) ==> s.buckets[b].locked)
  {
    hide SnapshotsOk;
    if Inside(s.threads[t]) { InsideLocks(s.buckets, s.threads, t); }
  }

  lemma AllocKeeps(s: State, cs: seq<seq<nat>>, t: nat, a: nat)
    requires Inv(s, cs) && t < |s.threads|
    requires var l := s.threads[t]; l.InsertStart? || l.InsertLock? || l.InsertUnlock?
    ensures Inv(Step(s, Go(t, a)), NextChains(s, cs, Go(t, a)))
  {
    StepFacts(s, cs, t);
    hide Inv, ChainsOk, Exclusive, OwnersDistinct, Distinct, InChains;
    var l := s.threads[t];
    var b := BucketOf(s, l);
    SameBucket(s, b);
    match l
    case InsertStart(val) =>
      if a == 0 || a in s.nodes {
        QuietKeeps(s, cs, t, Idle, s.buckets[b].locked);
      } else {
        NotOwnedByOthers(s, cs, a);
        PrivateKeeps(s, cs, t, s.nodes[a := Node(val, 0)], InsertLock(val, a), a);
      }
    case InsertLock(val, node) => QuietKeeps(s, cs, t, if s.buckets[b].locked then l else InsertLink(val, node), true);
    case InsertUnlock(val) => QuietKeeps(s, cs, t, Idle, false);
  }

  lemma InsertKeeps(s: State, cs: seq<seq<nat>>, t: nat, a: nat)
    requires Inv(s, cs) && t < |s.threads|
    requires var l := s.threads[t]; l.InsertLink? || l.InsertPublish?
    ensures Inv(Step(s, Go(t, a)), NextChains(s, cs, Go(t, a)))
  {
    StepFacts(s, cs, t);
    hide Inv, ChainsOk, Exclusive, OwnersDistinct, Distinct, InChains;
    var l := s.threads[t];
    var b := BucketOf(s, l);
    SameBucket(s, b);
    match l
    case InsertLink(val, node) =>
      OthersOwned(s, cs, t, node);
      PrivateKeeps(s, cs, t, s.nodes[node := s.nodes[node].(next := s.buckets[b].head)], InsertPublish(val, node), node);
    case InsertPublish(val, node) =>
      PublishGentle(s, cs, t, node, val, b, s.buckets[b].(head := node));
      Assemble(s, cs, t, b, s.nodes, s.buckets[b].(head := node), InsertUnlock(val), cs[b := [node] + cs[b]]);
  }

  lemma LookupKeeps(s: State, cs: seq<seq<nat>>, t: nat, a: nat)
    requires Inv(s, cs) && t < |s.threads|
    requires var l := s.threads[t]; l.LookupLock? || l.LookupHead? || l.LookupUnlock?
    ensures Inv(Step(s, Go(t, a)), NextChains(s, cs, Go(t, a)))
  {
    StepFacts(s, cs, t);
    hide Inv, ChainsOk, Exclusive, OwnersDistinct, Distinct, InChains;
    var l := s.threads[t];
    var b := BucketOf(s, l);
    SameBucket(s, b);
    match l
    case LookupLock(val) => QuietKeeps(s, cs, t, if s.buckets[b].locked then l else LookupHead(val), true);
    case LookupHead(val) => QuietKeeps(s, cs, t, LookupTest(val, s.buckets[b].head, 0), true);
    case LookupUnlock(val, found) => QuietKeeps(s, cs, t, Idle, false);
  }

  /** A step inside that only reads. */
  lemma ReadKeeps(s: State, cs: seq<seq<nat>>, t: nat, a: nat, l': Local)
    requires Inv(s, cs) && t < |s.threads| && Inside(s.threads[t]) && Inside(l') && l'.val == s.threads[t].val
    requires !s.threads[t].InsertPublish? && !s.threads[t].RemoveStore? && Owned(l').None?
    requires var b := BucketOf(s, s.threads[t]);
      && Move(s.nodes, s.buckets[b], s.threads[t], a) == Outcome(s.nodes, s.buckets[b], l')
      && SnapshotsOk(s.nodes, cs[b], l')
    ensures Inv(Step(s, Go(t, a)), NextChains(s, cs, Go(t, a)))
  {
    StepFacts(s, cs, t);
    hide Inv, ChainsOk, Exclusive, OwnersDistinct, Distinct, InChains, Move, SnapshotsOk, ChainOk;
    SameBucket(s, BucketOf(s, s.threads[t]));
    QuietKeeps(s, cs, t, l', true);
  }

  /** Where a lookup stands in its list. */
  lemma LookupFacts(m: map<nat, Node>, head: nat, chain: seq<nat>, b: nat, n: nat, val: int, cur: nat, pos: nat)
    requires n > 0 && ChainOk(m, head, chain, b, n) && Passed(m, chain, val, pos) && cur == At(chain, pos)
    ensures cur == 0 <==> pos == |chain|
    ensures cur != 0 ==> pos < |chain| && cur == chain[pos] && cur in m && m[cur].next == At(chain, pos + 1)
    ensures cur != 0 && m[cur].val != val ==> Passed(m, chain, val, pos + 1)
  {
  }

  /** Where the next step of a traversal leads. */
  function LookupAfter(m: map<nat, Node>, l: Local): Local
    requires (l.LookupTest? && (l.cur == 0 || l.cur in m)) || (l.LookupNext? && l.cur in m)
  {
    if l.LookupNext? then LookupTest(l.val, m[l.cur].next, l.pos + 1)
    else if l.cur == 0 then LookupUnlock(l.val, false)
    else if m[l.cur].val == l.val then LookupUnlock(l.val, true)
    else LookupNext(l.val, l.cur, l.pos)
  }

  lemma LookupMoves(m: map<nat, Node>, bk: Bucket, l: Local, a: nat)
    requires (l.LookupTest? && (l.cur == 0 || l.cur in m)) || (l.LookupNext? && l.cur in m)
    ensures Move(m, bk, l, a) == Outcome(m, bk, LookupAfter(m, l))
  {
  }

  lemma LookupSnapshots(m: map<nat, Node>, chain: seq<nat>, val: int, cur: nat, pos: nat)
    ensures SnapshotsOk(m, chain, LookupTest(val, cur, pos)) <==> Passed(m, chain, val, pos) && cur == At(chain, pos)
    ensures SnapshotsOk(m, chain, LookupNext(val, cur, pos)) <==>
      Passed(m, chain, val, pos) && pos < |chain| && cur == chain[pos] && cur in m && m[cur].val != val
  {
    hide Passed, At;
  }

  lemma NoSnapshots(m: map<nat, Node>, chain: seq<nat>, l: Local)
    requires l.LookupUnlock?
    ensures SnapshotsOk(m, chain, l)
  {
  }

  lemma LookupStays(m: map<nat, Node>, head: nat, chain: seq<nat>, b: nat, n: nat, l: Local)
    requires n > 0 && ChainOk(m, head, chain, b, n) && SnapshotsOk(m, chain, l) && (l.LookupTest? || l.LookupNext?)
    ensures l.cur in m || (l.LookupTest? && l.cur == 0)
    ensures var l' := LookupAfter(m, l); Inside(l') && l'.val == l.val && Owned(l').None? && SnapshotsOk(m, chain, l')
  {
    hide SnapshotsOk;
    LookupSnapshots(m, chain, l.val, l.cur, l.pos);
    assert Passed(m, chain, l.val, l.pos) && l.cur == At(chain, l.pos);
    LookupFacts(m, head, chain, b, n, l.val, l.cur, l.pos);
    hide ChainOk, At, Passed;
    var l' := LookupAfter(m, l);
    if l'.LookupUnlock? { NoSnapshots(m, chain, l'); } else { LookupSnapshots(m, chain, l'.val, l'.cur, l'.pos); }
  }

  lemma LookupGoes(s: State, cs: seq<seq<nat>>, t: nat, a: nat)
    requires Inv(s, cs) && t < |s.threads| && (s.threads[t].LookupTest? || s.threads[t].LookupNext?)
    ensures Inv(Step(s, Go(t, a)), NextChains(s, cs, Go(t, a)))
  {
    StepFacts(s, cs, t);
    var l := s.threads[t];
    var b := BucketOf(s, l);
    hide Inv, ChainOk, OwnedOk, Move, SnapshotsOk, Step, NextChains, LookupAfter;
    LookupStays(s.nodes, s.buckets[b].head, cs[b], b, |cs|, l);
    LookupMoves(s.nodes, s.buckets[b], l, a);
    ReadKeeps(s, cs, t, a, LookupAfter(s.nodes, l));
  }

  lemma RemoveKeeps(s: State, cs: seq<seq<nat>>, t: nat, a: nat)
    requires Inv(s, cs) && t < |s.threads|
    requires var l := s.threads[t]; l.RemoveLock? || l.RemoveLoad? || l.RemoveMiss?
    ensures Inv(Step(s, Go(t, a)), NextChains(s, cs, Go(t, a)))
  {
    StepFacts(s, cs, t);
    hide Inv, ChainsOk, Exclusive, OwnersDistinct, Distinct, InChains;
    var l := s.threads[t];
    var b := BucketOf(s, l);
    SameBucket(s, b);
    match l
    case RemoveLock(val) => QuietKeeps(s, cs, t, if s.buckets[b].locked then l else RemoveLoad(val, Head, 0), true);
    case RemoveLoad(val, link, pos) =>
      var cur := At(cs[b], pos);
      assert ReadLink(s.nodes, s.buckets[b], link) == Some(cur);
      QuietKeeps(s, cs, t, if cur == 0 then RemoveMiss(val) else RemoveTest(val, link, cur, pos), true);
    case RemoveMiss(val) => QuietKeeps(s, cs, t, Idle, false);
  }

  lemma RemoveSnapshots(m: map<nat, Node>, chain: seq<nat>, val: int, link: Link, cur: nat, pos: nat)
    ensures SnapshotsOk(m, chain, RemoveLoad(val, link, pos)) <==> LinkAt(chain, link, pos) && Passed(m, chain, val, pos)
    ensures SnapshotsOk(m, chain, RemoveTest(val, link, cur, pos)) <==>
      LinkAt(chain, link, pos) && Passed(m, chain, val, pos) && pos < |chain| && cur == chain[pos]
    ensures SnapshotsOk(m, chain, RemoveNext(val, link, cur, pos)) <==>
      LinkAt(chain, link, pos) && Passed(m, chain, val, pos) && pos < |chain| && cur == chain[pos] && cur in m && m[cur].val == val
  {
    hide Passed, LinkAt;
  }

  /** Where the test of a node leads a removal. */
  lemma RemoveStays(m: map<nat, Node>, head: nat, chain: seq<nat>, b: nat, n: nat, l: Local)
    requires n > 0 && ChainOk(m, head, chain, b, n) && SnapshotsOk(m, chain, l) && l.RemoveTest?
    ensures l.cur in m
    ensures if m[l.cur].val == l.val then SnapshotsOk(m, chain, RemoveNext(l.val, l.link, l.cur, l.pos))
            else SnapshotsOk(m, chain, RemoveLoad(l.val, NextOf(l.cur), l.pos + 1))
  {
    hide SnapshotsOk;
    RemoveSnapshots(m, chain, l.val, l.link, l.cur, l.pos);
    assert chain[l.pos] in m;
    RemoveSnapshots(m, chain, l.val, NextOf(l.cur), l.cur, l.pos + 1);
  }

  lemma RemoveTestKeeps(s: State, cs: seq<seq<nat>>, t: nat, a: nat)
    requires Inv(s, cs) && t < |s.threads| && s.threads[t].RemoveTest?
    ensures Inv(Step(s, Go(t, a)), NextChains(s, cs, Go(t, a)))
  {
    StepFacts(s, cs, t);
    hide Inv, ChainOk, OwnedOk, SnapshotsOk, Step, NextChains;
    var l := s.threads[t];
    var b := BucketOf(s, l);
    RemoveStays(s.nodes, s.buckets[b].head, cs[b], b, |cs|, l);
    ReadKeeps(s, cs, t, a, if s.nodes[l.cur].val == l.val then RemoveNext(l.val, l.link, l.cur, l.pos)
                           else RemoveLoad(l.val, NextOf(l.cur), l.pos + 1));
  }

  lemma RemoveNextKeeps(s: State, cs: seq<seq<nat>>, t: nat, a: nat)
    requires Inv(s, cs) && t < |s.threads| && s.threads[t].RemoveNext?
    ensures Inv(Step(s, Go(t, a)), NextChains(s, cs, Go(t, a)))
  {
    StepFacts(s, cs, t);
    hide Inv, ChainsOk, Exclusive, OwnersDistinct, Distinct, InChains;
    var l := s.threads[t];
    var b := BucketOf(s, l);
    SameBucket(s, b);
    QuietKeeps(s, cs, t, RemoveStore(l.val, l.link, l.cur, s.nodes[l.cur].next, l.pos), true);
  }

  lemma NotOwned(s: State, cs: seq<seq<nat>>, b: nat, pos: nat)
    requires Inv(s, cs) && b < |cs| && pos < |cs[b]|
    ensures forall u :: 0 <= u < |s.threads| ==> Owned(s.threads[u]) != Some(cs[b][pos])
  {
    ChainMember(cs, b, pos);
    forall u | 0 <= u < |s.threads| ensures Owned(s.threads[u]) != Some(cs[b][pos]) {
      if Owned(s.threads[u]).Some? { OwnedApart(s, cs, u); }
    }
  }

  /** The unlinking store, as one step. */
  lemma UnlinkMoves(s: State, cs: seq<seq<nat>>, t: nat, a: nat)
    requires |cs| == |s.buckets| > 0 && t < |s.threads| && s.threads[t].RemoveStore?
    requires var l, b := s.threads[t], BucketOf(s, s.threads[t]);
      l.pos < |cs[b]| && (l.link.NextOf? ==> l.link.addr in s.nodes)
    ensures var l, b := s.threads[t], BucketOf(s, s.threads[t]);
      var bk := if l.link.Head? then s.buckets[b].(head := l.next) else s.buckets[b];
      && Step(s, Go(t, a)) == State(UnlinkedNodes(s.nodes, l.link, l.next), s.buckets[b := bk], s.threads[t := RemoveUnlock(l.val, l.cur)])
      && NextChains(s, cs, Go(t, a)) == cs[b := Without(cs[b], l.pos)]
  {
    hide Index, Without;
  }

  /** The node unlinked is the thread's own from now on. */
  lemma UnlinkedOwned(s: State, cs: seq<seq<nat>>, t: nat)
    requires Inv(s, cs) && t < |s.threads| && s.threads[t].RemoveStore?
    ensures |cs| == |s.buckets| > 0
    ensures var l, b := s.threads[t], BucketOf(s, s.threads[t]);
      && l.pos < |cs[b]| && cs[b][l.pos] == l.cur && s.buckets[b].locked && (l.link.NextOf? ==> l.link.addr in s.nodes)
      && OwnedOk(UnlinkedNodes(s.nodes, l.link, l.next), cs[b := Without(cs[b], l.pos)], RemoveUnlock(l.val, l.cur))
  {
    StepFacts(s, cs, t);
    InvDistinct(s, cs);
    var l := s.threads[t];
    var b := BucketOf(s, l);
    hide Inv, InChains, Distinct;
    WithoutMembers(cs, b, l.pos, l.cur);
  }

  lemma UnlinkKeeps(s: State, cs: seq<seq<nat>>, t: nat, a: nat)
    requires Inv(s, cs) && t < |s.threads| && s.threads[t].RemoveStore?
    ensures Inv(Step(s, Go(t, a)), NextChains(s, cs, Go(t, a)))
  {
    UnlinkedOwned(s, cs, t);
    var l := s.threads[t];
    var b := BucketOf(s, l);
    var bk := if l.link.Head? then s.buckets[b].(head := l.next) else s.buckets[b];
    hide Inv, Gentle, OwnedOk, Without, UnlinkedNodes, Step, NextChains, Index;
    UnlinkMoves(s, cs, t, a);
    UnlinkGentle(s, cs, t, l.val, l.link, l.cur, l.next, l.pos, b, bk);
    NotOwned(s, cs, b, l.pos);
    Assemble(s, cs, t, b, UnlinkedNodes(s.nodes, l.link, l.next), bk, RemoveUnlock(l.val, l.cur), cs[b := Without(cs[b], l.pos)]);
  }

  lemma FreeKeeps(s: State, cs: seq<seq<nat>>, t: nat, a: nat)
    requires Inv(s, cs) && t < |s.threads|
    requires var l := s.threads[t]; l.RemoveUnlock? || l.RemoveFree?
    ensures Inv(Step(s, Go(t, a)), NextChains(s, cs, Go(t, a)))
  {
    StepFacts(s, cs, t);
    hide Inv, ChainsOk, Exclusive, OwnersDistinct, Distinct, InChains;
    var l := s.threads[t];
    var b := BucketOf(s, l);
    SameBucket(s, b);
    match l
    case RemoveUnlock(val, cur) => QuietKeeps(s, cs, t, RemoveFree(val, cur), false);
    case RemoveFree(val, cur) =>
      OthersOwned(s, cs, t, cur);
      PrivateKeeps(s, cs, t, s.nodes - {cur}, Idle, cur);
  }

  lemma InvDistinct(s: State, cs: seq<seq<nat>>)
    requires Inv(s, cs)
    ensures Distinct(cs)
  {
  }

  lemma InvSize(s: State, cs: seq<seq<nat>>)
    requires Inv(s, cs)
    ensures |cs| == |s.buckets| > 0
  {
  }

  /** Every step of every thread, under every schedule, keeps the invariant. */
  lemma StepKeepsInv(s: State, cs: seq<seq<nat>>, c: Choice)
    requires Inv(s, cs)
    ensures Inv(Step(s, c), NextChains(s, cs, c))
  {
    if c.t < |s.threads| {
      hide Inv;
      InvSize(s, cs);
      var l := s.threads[c.t];
      match c
      case Start(t, call) => if l.Idle? { StartKeeps(s, cs, t, call); }
      case Go(t, a) =>
        match l
        case Idle =>
        case Fault =>
        case InsertStart(_) => AllocKeeps(s, cs, t, a);
        case InsertLock(_, _) => AllocKeeps(s, cs, t, a);
        case InsertUnlock(_) => AllocKeeps(s, cs, t, a);
        case InsertLink(_, _) => InsertKeeps(s, cs, t, a);
        case InsertPublish(_, _) => InsertKeeps(s, cs, t, a);
        case LookupTest(_, _, _) => LookupGoes(s, cs, t, a);
        case LookupNext(_, _, _) => LookupGoes(s, cs, t, a);
        case LookupLock(_) => LookupKeeps(s, cs, t, a);
        case LookupHead(_) => LookupKeeps(s, cs, t, a);
        case LookupUnlock(_, _) => LookupKeeps(s, cs, t, a);
        case RemoveTest(_, _, _, _) => RemoveTestKeeps(s, cs, t, a);
        case RemoveNext(_, _, _, _) => RemoveNextKeeps(s, cs, t, a);
        case RemoveStore(_, _, _, _, _) => UnlinkKeeps(s, cs, t, a);
        case RemoveUnlock(_, _) => FreeKeeps(s, cs, t, a);
        case RemoveFree(_, _) => FreeKeeps(s, cs, t, a);
        case RemoveLock(_) => RemoveKeeps(s, cs, t, a);
        case RemoveLoad(_, _, _) => RemoveKeeps(s, cs, t, a);
        case RemoveMiss(_) => RemoveKeeps(s, cs, t, a);
    }
  }
}
