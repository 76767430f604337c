/**
The external sort: the input is cut into runs by size, each run is sorted and written to a file, and the
files are merged through a priority queue of their next lines.
*/
module ExternalSort {
  import opened Options
  import opened Text
  import opened StringOrder

  const LINE_BUFFER: nat := 1024

  /** The size of a `std::string` object, which the code adds to the length of each line. */
  const STRING_SIZE: nat := 32

  /** A line as the input has it: no newline inside. */
  predicate Clean(s: string) {
    forall i :: 0 <= i < |s| ==> s[i] != '\n'
  }

  ghost predicate AllClean(ls: seq<string>) {
    forall i :: 0 <= i < |ls| ==> Clean(ls[i])
  }

  // ---- Run files ----

  function RunText(ls: seq<string>): string {
    if ls == [] then "" else ls[0] + "\n" + RunText(ls[1..])
  }

  lemma {:induction false} RunTextSnoc(ls: seq<string>, l: string)
    ensures RunText(ls + [l]) == RunText(ls) + (l + "\n")
  {
    if ls == [] {
      assert ls + [l] == [l] && [l][1..] == [];
      assert RunText([l]) == l + "\n" + "";
    } else {
      assert (ls + [l])[0] == ls[0] && (ls + [l])[1..] == ls[1..] + [l];
      RunTextSnoc(ls[1..], l);
    }
  }

  /** The next line of a text and what follows it; the last line may lack its newline. */
  function GetLine(text: string): Option<(string, string)> {
    if text == "" then None
    else
      var n := NewlineAt(text);
      if n < |text| then Some((text[..n], text[n + 1..])) else Some((text, ""))
  }

  /** A line that was written is read back whole, whatever its length. */
  lemma LineReadBack(ls: seq<string>)
    requires ls != [] && AllClean(ls)
    ensures GetLine(RunText(ls)) == Some((ls[0], RunText(ls[1..])))
  {
    var l, r := ls[0], RunText(ls[1..]);
    var text := l + "\n" + r;
    assert text[|l|] == '\n' && forall i :: 0 <= i < |l| ==> text[i] == l[i];
    var n := NewlineAt(text);
    assert n == |l|;
    assert text[..n] == l && text[n + 1..] == r;
  }

  lemma {:induction false} NewlineBeyond(s: string, n: nat)
    requires n <= NewlineAt(s)
    ensures NewlineAt(s[n..]) == NewlineAt(s) - n
  {
    if n > 0 {
      assert s[1..][n - 1..] == s[n..];
      NewlineBeyond(s[1..], n - 1);
    }
  }

  /** A chunk ends in a newline exactly if it reaches the first one. */
  lemma ChunkStep(text: string, k: nat)
    requires k <= NewlineAt(text) && k < |text|
    ensures var n := LineLength(text[k..], LINE_BUFFER);
      && 0 < n <= |text| - k
      && if text[k + n - 1] == '\n' then NewlineAt(text) == k + n - 1 else k + n <= NewlineAt(text)
  {
    NewlineBeyond(text, k);
    assert text[k..] != "";
  }

  lemma ChunkTaken(text: string, k: nat, n: nat)
    requires k + n <= |text|
    ensures text[..k] + text[k..][..n] == text[..k + n] && text[k..][n..] == text[k + n..]
    ensures n > 0 ==> text[..k + n][|text[..k + n]| - 1] == text[k + n - 1] && text[..k + n][..k + n - 1] == text[..k + n - 1]
  {
  }

  lemma LineEnds(text: string)
    ensures text == "" ==> GetLine(text) == None
    ensures text != "" && NewlineAt(text) == |text| ==> GetLine(text) == Some((text, ""))
    ensures NewlineAt(text) < |text| ==> GetLine(text) == Some((text[..NewlineAt(text)], text[NewlineAt(text) + 1..]))
  {
  }

  /** `fgetline`: chunks of at most 1023 characters are joined until a newline ends one.  The buffer size
      is not visible in the result. */
  method FGetLine(text: string) returns (line: Option<string>, rest: string)
    ensures match GetLine(text)
      case None => line == None && rest == text == ""
      case Some((l, r)) => line == Some(l) && rest == r
  {
    var out := "";
    rest := text;
    while rest != ""
      invariant |out| <= |text| && out == text[..|out|] && rest == text[|out|..] && |out| <= NewlineAt(text)
      decreases |rest|
    {
      ChunkStep(text, |out|);
      var n := LineLength(rest, LINE_BUFFER);
      hide LineLength, NewlineAt, GetLine;
      var chunk := rest[..n];
      ChunkTaken(text, |out|, n);
      out := out + chunk;
      rest := rest[n..];
      if out[|out| - 1] == '\n' {
        LineEnds(text);
        return Some(out[..|out| - 1]), rest;
      }
    }
    assert out == text;
    LineEnds(text);
    line := if out == "" then None else Some(out);
  }

  // ---- Sorting a run ----

  /** `std::sort`. */
  method SortLines(ls: seq<string>, reverse: bool) returns (s: seq<string>)
    ensures Sorted(s, reverse) && multiset(s) == multiset(ls)
  {
    s := [];
    for i := 0 to |ls|
      invariant Sorted(s, reverse) && multiset(s) == multiset(ls[..i])
    {
      var k := Place(s, ls[i], reverse);
      InsertSorted(s, ls[i], k, reverse);
      assert s == s[..k] + s[k..];
      assert ls[..i + 1] == ls[..i] + [ls[i]];
      s := s[..k] + [ls[i]] + s[k..];
    }
    assert ls[..|ls|] == ls;
  }

  method Place(s: seq<string>, x: string, reverse: bool) returns (k: nat)
    requires Sorted(s, reverse)
    ensures k <= |s|
    ensures forall i :: 0 <= i < k ==> Before(s[i], x, reverse)
    ensures forall i :: k <= i < |s| ==> Before(x, s[i], reverse)
  {
    k := 0;
    while k < |s| && Before(s[k], x, reverse)
      invariant k <= |s| && forall i :: 0 <= i < k ==> Before(s[i], x, reverse)
    {
      k := k + 1;
    }
    if k < |s| {
      BeforeTotal(s[k], x, reverse);
      forall i | k < i < |s| ensures Before(x, s[i], reverse) { BeforeTransitive(x, s[k], s[i], reverse); }
    }
  }

  lemma InsertSorted(s: seq<string>, x: string, k: nat, reverse: bool)
    requires Sorted(s, reverse) && k <= |s|
    requires forall i :: 0 <= i < k ==> Before(s[i], x, reverse)
    requires forall i :: k <= i < |s| ==> Before(x, s[i], reverse)
    ensures Sorted(s[..k] + [x] + s[k..], reverse)
  {
    var t := s[..k] + [x] + s[k..];
    forall i, j | 0 <= i < j < |t| ensures Before(t[i], t[j], reverse) {
      assert i != k ==> t[i] == s[if i < k then i else i - 1];
      assert j != k ==> t[j] == s[if j < k then j else j - 1];
    }
  }

  // ---- Bags of lines ----

  function Bag(runs: seq<seq<string>>): multiset<string> {
    if runs == [] then multiset{} else multiset(runs[0]) + Bag(runs[1..])
  }

  lemma {:induction false} BagSnoc(runs: seq<seq<string>>, r: seq<string>)
    ensures Bag(runs + [r]) == Bag(runs) + multiset(r)
  {
    if runs == [] {
      assert runs + [r] == [r] && [r][1..] == [];
    } else {
      assert (runs + [r])[0] == runs[0] && (runs + [r])[1..] == runs[1..] + [r];
      BagSnoc(runs[1..], r);
    }
  }

  /** Taking the first line out of one run. */
  lemma {:induction false} BagTake(runs: seq<seq<string>>, f: nat)
    requires f < |runs| && runs[f] != []
    ensures Bag(runs) == Bag(runs[f := runs[f][1..]]) + multiset{runs[f][0]}
  {
    var rs := runs[f := runs[f][1..]];
    if f == 0 {
      assert runs[0] == [runs[0][0]] + runs[0][1..];
      assert rs[1..] == runs[1..];
    } else {
      BagTake(runs[1..], f - 1);
      assert rs[1..] == runs[1..][f - 1 := runs[f][1..]];
    }
  }

  lemma {:induction false} BagEmpty(runs: seq<seq<string>>)
    requires forall f :: 0 <= f < |runs| ==> runs[f] == []
    ensures Bag(runs) == multiset{}
  {
    if runs != [] { BagEmpty(runs[1..]); }
  }

  // ---- Merging ----

  /** An entry of the priority queue: a line, and the file it came from. */
  datatype Node = Node(str: string, file: nat)

  function QueueBag(pq: seq<Node>): multiset<string> {
    if pq == [] then multiset{} else multiset{pq[0].str} + QueueBag(pq[1..])
  }

  lemma {:induction false} QueueSnoc(pq: seq<Node>, x: Node)
    ensures QueueBag(pq + [x]) == QueueBag(pq) + multiset{x.str}
  {
    if pq == [] {
      assert pq + [x] == [x] && [x][1..] == [];
    } else {
      assert (pq + [x])[0] == pq[0] && (pq + [x])[1..] == pq[1..] + [x];
      QueueSnoc(pq[1..], x);
    }
  }

  lemma {:induction false} QueueTake(pq: seq<Node>, i: nat)
    requires i < |pq|
    ensures QueueBag(pq) == QueueBag(pq[..i] + pq[i + 1..]) + multiset{pq[i].str}
  {
    var qs := pq[..i] + pq[i + 1..];
    if i == 0 {
      assert qs == pq[1..];
    } else {
      QueueTake(pq[1..], i - 1);
      assert qs[0] == pq[0] && qs[1..] == pq[1..][..i - 1] + pq[1..][i..];
    }
  }

  ghost predicate Waiting(pq: seq<Node>, f: nat) {
    exists i :: 0 <= i < |pq| && pq[i].file == f
  }

  /** The line at `i` may come first. */
  ghost predicate Least(pq: seq<Node>, i: nat, reverse: bool) {
    i < |pq| && forall j :: 0 <= j < |pq| ==> Before(pq[i].str, pq[j].str, reverse)
  }

  /** Files as they are read: each holds the sorted lines not yet read. */
  ghost predicate FilesOk(texts: seq<string>, runs: seq<seq<string>>, reverse: bool) {
    && |texts| == |runs|
    && forall f :: 0 <= f < |runs| ==> texts[f] == RunText(runs[f]) && AllClean(runs[f]) && Sorted(runs[f], reverse)
  }

  /** Each waiting line precedes what is left of its file. */
  ghost predicate QueueOk(pq: seq<Node>, runs: seq<seq<string>>, reverse: bool) {
    forall i :: 0 <= i < |pq| ==> pq[i].file < |runs| && Precedes(pq[i].str, runs[pq[i].file], reverse)
  }

  ghost predicate Precedes(s: string, ls: seq<string>, reverse: bool) {
    forall k :: 0 <= k < |ls| ==> Before(s, ls[k], reverse)
  }

  /** The output so far is sorted, and precedes all that waits. */
  ghost predicate OutputOk(out: seq<string>, pq: seq<Node>, reverse: bool) {
    Sorted(out, reverse) && forall o, i :: 0 <= o < |out| && 0 <= i < |pq| ==> Before(out[o], pq[i].str, reverse)
  }

  /** Of what `top` may return, any entry that is least; ties are not decided. */
  method Top(pq: seq<Node>, reverse: bool) returns (i: nat)
    requires pq != []
    ensures Least(pq, i, reverse)
  {
    i := 0;
    BeforeTotal(pq[0].str, pq[0].str, reverse);
    for j := 1 to |pq|
      invariant i < |pq| && forall k :: 0 <= k < j ==> Before(pq[i].str, pq[k].str, reverse)
    {
      if !Before(pq[i].str, pq[j].str, reverse) {
        BeforeTotal(pq[i].str, pq[j].str, reverse);
        forall k | 0 <= k < j ensures Before(pq[j].str, pq[k].str, reverse) {
          BeforeTransitive(pq[j].str, pq[i].str, pq[k].str, reverse);
        }
        BeforeTotal(pq[j].str, pq[j].str, reverse);
        i := j;
      }
    }
  }

  /** Reading the next line of a file puts it into the queue. */
  method ReadInto(pq: seq<Node>, texts: seq<string>, f: nat, ghost runs: seq<seq<string>>, reverse: bool)
    returns (pq': seq<Node>, texts': seq<string>, ghost runs': seq<seq<string>>)
    requires FilesOk(texts, runs, reverse) && QueueOk(pq, runs, reverse) && f < |texts|
    ensures FilesOk(texts', runs', reverse) && QueueOk(pq', runs', reverse) && |runs'| == |runs|
    ensures QueueBag(pq') + Bag(runs') == QueueBag(pq) + Bag(runs)
    ensures if runs[f] == [] then pq' == pq && runs' == runs
            else pq' == pq + [Node(runs[f][0], f)] && runs' == runs[f := runs[f][1..]]
  {
    pq', texts', runs' := pq, texts, runs;
    if runs[f] != [] { LineReadBack(runs[f]); } else { assert GetLine(RunText(runs[f])) == None; }
    var line, rest := FGetLine(texts[f]);
    texts' := texts[f := rest];
    match line
    case None =>
      assert texts' == texts;
    case Some(l) =>
      runs' := runs[f := runs[f][1..]];
      pq' := pq + [Node(l, f)];
      QueueSnoc(pq, Node(l, f));
      BagTake(runs, f);
      ReadKeeps(pq, texts, f, runs, reverse);
  }

  lemma ReadKeeps(pq: seq<Node>, texts: seq<string>, f: nat, runs: seq<seq<string>>, reverse: bool)
    requires FilesOk(texts, runs, reverse) && QueueOk(pq, runs, reverse) && f < |texts| && runs[f] != []
    ensures var rs := runs[f := runs[f][1..]];
      FilesOk(texts[f := RunText(runs[f][1..])], rs, reverse) && QueueOk(pq + [Node(runs[f][0], f)], rs, reverse)
  {
    var rs, qs := runs[f := runs[f][1..]], pq + [Node(runs[f][0], f)];
    assert Sorted(rs[f], reverse) by { assert forall i :: 0 <= i < |rs[f]| ==> rs[f][i] == runs[f][i + 1]; }
    assert AllClean(rs[f]) by { assert forall i :: 0 <= i < |rs[f]| ==> rs[f][i] == runs[f][i + 1]; }
    forall i | 0 <= i < |qs| ensures qs[i].file < |rs| && Precedes(qs[i].str, rs[qs[i].file], reverse) {
      if i < |pq| {
        assert Precedes(pq[i].str, runs[pq[i].file], reverse);
      }
      assert forall k :: 0 <= k < |rs[f]| ==> rs[f][k] == runs[f][k + 1];
    }
  }

  /** What one round of the merge keeps: the least waiting line is appended, and its file read on. */
  lemma RoundKeeps(out: seq<string>, pq: seq<Node>, runs: seq<seq<string>>, i: nat, qs: seq<Node>, reverse: bool)
    requires OutputOk(out, pq, reverse) && QueueOk(pq, runs, reverse) && Least(pq, i, reverse)
    requires var f, rest := pq[i].file, pq[..i] + pq[i + 1..];
      qs == if runs[f] == [] then rest else rest + [Node(runs[f][0], f)]
    ensures OutputOk(out + [pq[i].str], qs, reverse)
  {
    var f, rest, out' := pq[i].file, pq[..i] + pq[i + 1..], out + [pq[i].str];
    forall j | 0 <= j < |qs| ensures Before(pq[i].str, qs[j].str, reverse) {
      if j < |rest| {
        assert qs[j] == pq[if j < i then j else j + 1];
      } else {
        assert Precedes(pq[i].str, runs[f], reverse);
      }
    }
    forall o, j | 0 <= o < |out'| && 0 <= j < |qs| ensures Before(out'[o], qs[j].str, reverse) {
      if o < |out| { BeforeTransitive(out[o], pq[i].str, qs[j].str, reverse); }
    }
  }

  ghost predicate AllWaiting(pq: seq<Node>, runs: seq<seq<string>>, upTo: nat) {
    forall f :: 0 <= f < |runs| && f < upTo && runs[f] != [] ==> Waiting(pq, f)
  }

  lemma WaitingMore(pq: seq<Node>, x: Node, f: nat)
    ensures Waiting(pq, f) ==> Waiting(pq + [x], f)
    ensures x.file == f ==> Waiting(pq + [x], f)
  {
    if Waiting(pq, f) {
      var i :| 0 <= i < |pq| && pq[i].file == f;
      assert (pq + [x])[i].file == f;
    }
    if x.file == f { assert (pq + [x])[|pq|].file == f; }
  }

  lemma RoundWaiting(pq: seq<Node>, runs: seq<seq<string>>, i: nat, qs: seq<Node>, rs: seq<seq<string>>)
    requires AllWaiting(pq, runs, |runs|) && i < |pq| && pq[i].file < |runs|
    requires var f, rest := pq[i].file, pq[..i] + pq[i + 1..];
      if runs[f] == [] then qs == rest && rs == runs else qs == rest + [Node(runs[f][0], f)] && rs == runs[f := runs[f][1..]]
    ensures AllWaiting(qs, rs, |rs|)
  {
    var f, rest := pq[i].file, pq[..i] + pq[i + 1..];
    forall g | 0 <= g < |rs| && rs[g] != [] ensures Waiting(qs, g) {
      if g == f {
        WaitingMore(rest, Node(runs[f][0], f), f);
      } else {
        var j :| 0 <= j < |pq| && pq[j].file == g;
        assert rest[if j < i then j else j - 1].file == g;
        if runs[f] != [] { WaitingMore(rest, Node(runs[f][0], f), g); }
      }
    }
  }

  /** The state of the merge: files, queue and output are in order, every file with lines left has one in
      the queue, and no line is lost. */
  ghost predicate MergeOk(out: seq<string>, pq: seq<Node>, texts: seq<string>, runs: seq<seq<string>>, all: multiset<string>, reverse: bool) {
    && FilesOk(texts, runs, reverse) && QueueOk(pq, runs, reverse)
    && AllWaiting(pq, runs, |runs|) && OutputOk(out, pq, reverse)
    && multiset(out) + (QueueBag(pq) + Bag(runs)) == all
  }

  /** One round: print the least waiting line, and read on in its file. */
  method Round(out: seq<string>, pq: seq<Node>, texts: seq<string>, ghost runs: seq<seq<string>>,
               ghost all: multiset<string>, reverse: bool)
    returns (out': seq<string>, pq': seq<Node>, texts': seq<string>, ghost runs': seq<seq<string>>)
    requires pq != [] && MergeOk(out, pq, texts, runs, all, reverse)
    ensures MergeOk(out', pq', texts', runs', all, reverse) && |out'| == |out| + 1
  {
    hide FilesOk, QueueOk, AllWaiting, OutputOk, QueueBag, Bag, Least;
    var i := Top(pq, reverse);
    var cur := pq[i];
    var rest := pq[..i] + pq[i + 1..];
    RestOk(pq, runs, i, reverse);
    QueueOwner(pq, runs, i, reverse);
    FilesCount(texts, runs, reverse);
    out' := out + [cur.str];
    pq', texts', runs' := ReadInto(rest, texts, cur.file, runs, reverse);
    RoundKeeps(out, pq, runs, i, pq', reverse);
    RoundWaiting(pq, runs, i, pq', runs');
    RoundBag(out, pq, i, Bag(runs), QueueBag(pq') + Bag(runs'), all);
  }

  lemma QueueOwner(pq: seq<Node>, runs: seq<seq<string>>, i: nat, reverse: bool)
    requires QueueOk(pq, runs, reverse) && i < |pq|
    ensures pq[i].file < |runs|
  {
  }

  lemma FilesCount(texts: seq<string>, runs: seq<seq<string>>, reverse: bool)
    requires FilesOk(texts, runs, reverse)
    ensures |texts| == |runs|
  {
  }

  /** No line is lost in one round. */
  lemma RoundBag(out: seq<string>, pq: seq<Node>, i: nat, left: multiset<string>, after: multiset<string>, all: multiset<string>)
    requires i < |pq| && multiset(out) + (QueueBag(pq) + left) == all
    requires after == QueueBag(pq[..i] + pq[i + 1..]) + left
    ensures multiset(out + [pq[i].str]) + after == all
  {
    QueueTake(pq, i);
    assert multiset(out + [pq[i].str]) == multiset(out) + multiset{pq[i].str};
    hide QueueBag;
  }

  /** The k-way merge: all lines of all files, in order. */
  method Merge(files: seq<string>, ghost lines: seq<seq<string>>, reverse: bool) returns (out: seq<string>)
    requires FilesOk(files, lines, reverse)
    ensures Sorted(out, reverse) && multiset(out) == Bag(lines)
  {
    var texts, pq;
    ghost var runs;
    texts, pq, runs := Fill(files, lines, reverse);
    out := [];
    while pq != []
      invariant MergeOk(out, pq, texts, runs, Bag(lines), reverse)
      decreases |Bag(lines)| - |out|
    {
      Bounded(out, pq, texts, runs, Bag(lines), reverse);
      out, pq, texts, runs := Round(out, pq, texts, runs, Bag(lines), reverse);
      Bounded(out, pq, texts, runs, Bag(lines), reverse);
    }
    AllRead(runs);
    BagEmpty(runs);
  }

  lemma Bounded(out: seq<string>, pq: seq<Node>, texts: seq<string>, runs: seq<seq<string>>, all: multiset<string>, reverse: bool)
    requires MergeOk(out, pq, texts, runs, all, reverse)
    ensures |out| <= |all|
  {
    assert |multiset(out)| == |out|;
  }

  /** The queue at the start: the first line of every file that has one. */
  method Fill(files: seq<string>, ghost lines: seq<seq<string>>, reverse: bool)
    returns (texts: seq<string>, pq: seq<Node>, ghost runs: seq<seq<string>>)
    requires FilesOk(files, lines, reverse)
    ensures MergeOk([], pq, texts, runs, Bag(lines), reverse)
  {
    texts, pq, runs := files, [], lines;
    for f := 0 to |files|
      invariant |runs| == |files| && FilesOk(texts, runs, reverse) && QueueOk(pq, runs, reverse)
      invariant QueueBag(pq) + Bag(runs) == Bag(lines)
      invariant AllWaiting(pq, runs, f)
    {
      ghost var pq0, runs0 := pq, runs;
      pq, texts, runs := ReadInto(pq, texts, f, runs, reverse);
      StillWaiting(pq0, runs0, pq, runs, f);
    }
  }

  lemma AllRead(runs: seq<seq<string>>)
    requires AllWaiting([], runs, |runs|)
    ensures forall f :: 0 <= f < |runs| ==> runs[f] == []
  {
    forall f | 0 <= f < |runs| ensures runs[f] == [] { assert !Waiting([], f); }
  }

  lemma RestOk(pq: seq<Node>, runs: seq<seq<string>>, i: nat, reverse: bool)
    requires QueueOk(pq, runs, reverse) && i < |pq|
    ensures QueueOk(pq[..i] + pq[i + 1..], runs, reverse)
  {
    var qs := pq[..i] + pq[i + 1..];
    forall j | 0 <= j < |qs| ensures qs[j].file < |runs| && Precedes(qs[j].str, runs[qs[j].file], reverse) {
      assert qs[j] == pq[if j < i then j else j + 1];
    }
  }

  lemma StillWaiting(pq: seq<Node>, runs: seq<seq<string>>, qs: seq<Node>, rs: seq<seq<string>>, f: nat)
    requires AllWaiting(pq, runs, f) && f < |runs|
    requires if runs[f] == [] then qs == pq && rs == runs else qs == pq + [Node(runs[f][0], f)] && rs == runs[f := runs[f][1..]]
    ensures AllWaiting(qs, rs, f + 1)
  {
    forall g | 0 <= g < |rs| && g < f + 1 && rs[g] != [] ensures Waiting(qs, g) {
      if runs[f] != [] { WaitingMore(pq, Node(runs[f][0], f), g); }
    }
  }

  // ---- Runs from the input ----

  /** Sort the collected lines and write them to a new file, unless there are none. */
  method Separate(files: seq<string>, ghost lines: seq<seq<string>>, ls: seq<string>, reverse: bool)
    returns (files': seq<string>, ghost lines': seq<seq<string>>)
    requires FilesOk(files, lines, reverse) && AllClean(ls)
    ensures FilesOk(files', lines', reverse) && Bag(lines') == Bag(lines) + multiset(ls)
    ensures if ls == [] then files' == files && lines' == lines
            else |lines'| == |lines| + 1 && lines'[..|lines|] == lines && multiset(lines'[|lines|]) == multiset(ls)
  {
    files', lines' := files, lines;
    if ls == [] {
      return;
    }
    var s := SortLines(ls, reverse);
    var text := "";
    for i := 0 to |s|
      invariant text == RunText(s[..i])
    {
      assert s[..i + 1] == s[..i] + [s[i]];
      RunTextSnoc(s[..i], s[i]);
      text := text + (s[i] + "\n");
    }
    assert s[..|s|] == s;
    StillClean(ls, s);
    files' := files + [text];
    lines' := lines + [s];
    BagSnoc(lines, s);
  }

  lemma StillClean(ls: seq<string>, s: seq<string>)
    requires AllClean(ls) && multiset(s) == multiset(ls)
    ensures AllClean(s)
  {
    forall i | 0 <= i < |s| ensures Clean(s[i]) {
      assert s[i] in multiset(ls);
      assert s[i] in ls;
    }
  }

  /** What lines take in memory. */
  function Cost(ls: seq<string>): nat {
    if ls == [] then 0 else Cost(ls[..|ls| - 1]) + STRING_SIZE + |ls[|ls| - 1]|
  }

  function Flat(parts: seq<seq<string>>): seq<string> {
    if parts == [] then [] else Flat(parts[..|parts| - 1]) + parts[|parts| - 1]
  }

  /** The part ends with the line that reaches the limit, or before. */
  predicate PartOk(part: seq<string>, limit: nat) {
    part != [] && (|part| == 1 || Cost(part[..|part| - 1]) < limit)
  }

  /** The run files hold the parts of the input, one each: a part ends exactly when its lines reach the limit,
      or the input ends. */
  ghost predicate Parts(parts: seq<seq<string>>, lines: seq<seq<string>>, limit: nat, last: nat) {
    && |parts| == |lines|
    && (forall f :: 0 <= f < |parts| ==> PartOk(parts[f], limit) && multiset(lines[f]) == multiset(parts[f]))
    && (forall f :: 0 <= f < |parts| && f < last ==> limit <= Cost(parts[f]))
  }

  lemma OnePart(parts: seq<seq<string>>, lines: seq<seq<string>>, lines': seq<seq<string>>, limit: nat, last: nat, part: seq<string>)
    requires Parts(parts, lines, limit, |parts|) && PartOk(part, limit) && last <= |parts| + 1 && (last > |parts| ==> limit <= Cost(part))
    requires |lines'| == |lines| + 1 && lines'[..|lines|] == lines && multiset(lines'[|lines|]) == multiset(part)
    ensures Parts(parts + [part], lines', limit, last) && Flat(parts + [part]) == Flat(parts) + part
  {
    hide Cost, PartOk;
    forall f | 0 <= f < |parts| ensures lines'[f] == lines[f] { assert lines'[f] == lines'[..|lines|][f]; }
    assert (parts + [part])[..|parts|] == parts;
  }

  lemma CostSnoc(ls: seq<string>, s: string, limit: nat)
    ensures Cost(ls + [s]) == Cost(ls) + STRING_SIZE + |s|
    ensures ls == [] || Cost(ls) < limit ==> PartOk(ls + [s], limit)
  {
    assert (ls + [s])[..|ls|] == ls;
  }

  /** The lines seen so far are in the run files, part by part, or collected. */
  ghost predicate Collecting(lines: seq<seq<string>>, parts: seq<seq<string>>, ls: seq<string>, seen: seq<string>, limit: nat) {
    && Bag(lines) + multiset(ls) == multiset(seen) && Flat(parts) + ls == seen
    && Parts(parts, lines, limit, |parts|) && AllClean(ls)
  }

  lemma CollectLine(lines: seq<seq<string>>, parts: seq<seq<string>>, ls: seq<string>, seen: seq<string>, limit: nat, s: string)
    requires Collecting(lines, parts, ls, seen, limit) && Clean(s)
    ensures Collecting(lines, parts, ls + [s], seen + [s], limit)
  {
    hide Bag, Flat, Parts, Clean;
    assert Flat(parts) + (ls + [s]) == seen + [s];
  }

  lemma CollectFlush(lines: seq<seq<string>>, parts: seq<seq<string>>, ls: seq<string>, seen: seq<string>, limit: nat, lines': seq<seq<string>>)
    requires Collecting(lines, parts, ls, seen, limit) && PartOk(ls, limit) && limit <= Cost(ls)
    requires |lines'| == |lines| + 1 && lines'[..|lines|] == lines && multiset(lines'[|lines|]) == multiset(ls)
    requires Bag(lines') == Bag(lines) + multiset(ls)
    ensures Collecting(lines', parts + [ls], [], seen, limit)
  {
    hide Bag, Flat, Parts, Cost, PartOk;
    OnePart(parts, lines, lines', limit, |parts| + 1, ls);
  }

  /** Collect lines up to the limit, and write each collection to a file of its own: no more lines than these
      are held at a time. */
  method CollectRuns(input: seq<string>, limit: nat, reverse: bool)
    returns (files: seq<string>, ghost lines: seq<seq<string>>, ghost parts: seq<seq<string>>)
    requires AllClean(input)
    ensures FilesOk(files, lines, reverse) && Bag(lines) == multiset(input)
    ensures Flat(parts) == input && Parts(parts, lines, limit, if parts == [] then 0 else |parts| - 1)
  {
    hide FilesOk, Sorted, Bag, Parts, Cost, Flat, PartOk, Collecting, Clean;
    var ls: seq<string>, len := [], 0;
    files, lines, parts := [], [], [];
    NoFiles(reverse);
    NoParts(limit);
    for i := 0 to |input|
      invariant FilesOk(files, lines, reverse) && Collecting(lines, parts, ls, input[..i], limit)
      invariant len == Cost(ls) && (ls != [] ==> len < limit)
    {
      assert input[..i + 1] == input[..i] + [input[i]];
      CostSnoc(ls, input[i], limit);
      CollectLine(lines, parts, ls, input[..i], limit, input[i]);
      len := len + STRING_SIZE + |input[i]|;
      ls := ls + [input[i]];
      if len >= limit {
        ghost var before := lines;
        CollectedClean(lines, parts, ls, input[..i + 1], limit);
        files, lines := Separate(files, lines, ls, reverse);
        CollectFlush(before, parts, ls, input[..i + 1], limit, lines);
        parts := parts + [ls];
        ls := [];
        len := 0;
        NoParts(limit);
      }
    }
    assert input[..|input|] == input;
    ghost var before := lines;
    CollectedClean(lines, parts, ls, input, limit);
    files, lines := Separate(files, lines, ls, reverse);
    CollectEnds(before, parts, ls, input, limit, lines);
    parts := if ls == [] then parts else parts + [ls];
  }

  lemma CollectedClean(lines: seq<seq<string>>, parts: seq<seq<string>>, ls: seq<string>, seen: seq<string>, limit: nat)
    requires Collecting(lines, parts, ls, seen, limit)
    ensures AllClean(ls) && Bag(lines) + multiset(ls) == multiset(seen)
  {
    hide Bag, Flat, Parts, Clean;
  }

  lemma CollectEnds(lines: seq<seq<string>>, parts: seq<seq<string>>, ls: seq<string>, seen: seq<string>, limit: nat, lines': seq<seq<string>>)
    requires Collecting(lines, parts, ls, seen, limit) && (ls != [] ==> Cost(ls) < limit)
    requires if ls == [] then lines' == lines else |lines'| == |lines| + 1 && lines'[..|lines|] == lines && multiset(lines'[|lines|]) == multiset(ls)
    ensures var all := if ls == [] then parts else parts + [ls];
      Flat(all) == seen && Parts(all, lines', limit, if all == [] then 0 else |all| - 1)
  {
    hide Bag, Flat, Parts, Clean;
    if ls != [] {
      LastBounded(ls, limit);
      OnePart(parts, lines, lines', limit, |parts|, ls);
    } else {
      FewerFull(parts, lines, limit);
    }
  }

  lemma NoParts(limit: nat)
    ensures Collecting([], [], [], [], limit) && Cost([]) == 0
  {
  }

  lemma LastBounded(ls: seq<string>, limit: nat)
    requires ls != [] && Cost(ls) < limit
    ensures PartOk(ls, limit)
  {
  }

  lemma FewerFull(parts: seq<seq<string>>, lines: seq<seq<string>>, limit: nat)
    requires Parts(parts, lines, limit, |parts|)
    ensures Parts(parts, lines, limit, if parts == [] then 0 else |parts| - 1)
  {
    hide Cost, PartOk;
  }

  /** The whole program, for every input and every limit on the size of a run. */
  method SortAll(input: seq<string>, limit: nat, reverse: bool) returns (out: seq<string>)
    requires AllClean(input)
    ensures Sorted(out, reverse) && multiset(out) == multiset(input)
  {
    var files: seq<string>, lines, parts := CollectRuns(input, limit, reverse);
    out := Merge(files, lines, reverse);
  }

  lemma NoFiles(reverse: bool)
    ensures FilesOk([], [], reverse) && Bag([]) == multiset{}
  {
  }

  /** The output depends on neither the limit nor the order in which equal lines leave the queue. */
  method SortTwice(input: seq<string>, limit: nat, other: nat, reverse: bool) returns (out: seq<string>, again: seq<string>)
    requires AllClean(input)
    ensures out == again && Sorted(out, reverse) && multiset(out) == multiset(input)
  {
    out := SortAll(input, limit, reverse);
    again := SortAll(input, other, reverse);
    SortedUnique(out, again, reverse);
  }
}
