// Counting the processes of a container (processesState in lxd/container_lxc.go): a list of
// process ids that grows while it is walked.
module Processes {
  import opened GoStrings
  import opened Sequences

  // ----- /proc ---------------------------------------------------------------------------------

  /** The text of /proc/<pid>/task/<pid>/children; no entry for a process that is gone. */
  type Proc = map<int, string>

  /** The parts that read as numbers. */
  function Numbers(parts: seq<string>): seq<int> {
    if parts == [] then []
    else
      var r := Numbers(parts[..|parts|-1]);
      match Atoi(parts[|parts|-1])
      case Some(n) => r + [n]
      case None => r
  }

  function ChildrenOf(proc: Proc, pid: int): seq<int> {
    if pid in proc then Numbers(Split(proc[pid], ' ')) else []
  }

  /** The kernel writes every child followed by a space. */
  function Listing(children: seq<nat>): string {
    if children == [] then "" else Dec(children[0]) + [' '] + Listing(children[1..])
  }

  lemma {:induction false} NumbersOfConcat(a: seq<string>, b: seq<string>)
    ensures Numbers(a + b) == Numbers(a) + Numbers(b)
    decreases |b|
  {
    if b == [] {
      assert a + b == a;
    } else {
      var n := |b| - 1;
      assert (a + b)[..|a + b|-1] == a + b[..n];
      NumbersOfConcat(a, b[..n]);
    }
  }

  /** Reading what the kernel writes gives the children, in order. */
  lemma {:induction false} ListingRead(children: seq<nat>)
    requires forall i :: 0 <= i < |children| ==> children[i] <= MAX_INT
    ensures Numbers(Split(Listing(children), ' ')) == children
  {
    if children == [] {
      assert Split("", ' ') == [""];
    } else {
      var c, rest := children[0], children[1..];
      ListingRead(rest);
      AtoiDec(c);
      assert ' ' !in Dec(c);
      SplitAfterPart(Dec(c), ' ', Listing(rest));
      NumbersOfConcat([Dec(c)], Split(Listing(rest), ' '));
      assert Numbers([Dec(c)]) == [c];
      assert children == [c] + rest;
    }
  }

  // ----- The subtree of a process ----------------------------------------------------------------------

  type Kids = map<int, seq<int>>

  function KidsIn(proc: Proc): Kids { map p | p in proc :: ChildrenOf(proc, p) }

  function KidsOf(kids: Kids, p: int): seq<int> { if p in kids then kids[p] else [] }

  predicate Child(kids: Kids, p: int, c: int) { c in KidsOf(kids, p) }

  /** A line of descent from root to p. */
  ghost predicate Descent(kids: Kids, root: int, path: seq<int>, p: int) {
    && path != [] && path[0] == root && path[|path|-1] == p
    && forall i :: 0 <= i < |path| - 1 ==> Child(kids, path[i], path[i + 1])
  }

  ghost predicate InSubtree(kids: Kids, root: int, p: int) { exists path :: Descent(kids, root, path, p) }

  /** Among the descendants of root nobody is listed as a child twice, and root is not listed at
      all.  Who else lists root does not matter: a container's init always has a parent. */
  ghost predicate Forest(kids: Kids, root: int) {
    && (forall p, q, c :: InSubtree(kids, root, p) && InSubtree(kids, root, q) ==>
          Child(kids, p, c) && Child(kids, q, c) ==> p == q)
    && (forall p :: InSubtree(kids, root, p) ==> Distinct(KidsOf(kids, p)))
    && (forall p :: InSubtree(kids, root, p) ==> !Child(kids, p, root))
  }

  lemma DescentSnoc(kids: Kids, root: int, p: int, c: int)
    requires InSubtree(kids, root, p) && Child(kids, p, c)
    ensures InSubtree(kids, root, c)
  {
    var path :| Descent(kids, root, path, p);
    assert Descent(kids, root, path + [c], c);
  }

  lemma {:induction false} DescentAges(kids: Kids, root: int, path: seq<int>, p: int, age: int -> int)
    requires Descent(kids, root, path, p) && forall q, c :: Child(kids, q, c) ==> age(q) < age(c)
    ensures age(root) <= age(p)
    decreases |path|
  {
    if 1 < |path| {
      var n := |path| - 1;
      DescentAges(kids, root, path[..n], path[n - 1], age);
      assert Child(kids, path[n - 1], path[n]);
    }
  }

  /** Every process of a process table is a root for that: all it takes is that nobody is listed
      twice, and that parents are there before their children. */
  lemma AnyRoot(kids: Kids, root: int, age: int -> int)
    requires forall p, q, c :: Child(kids, p, c) && Child(kids, q, c) ==> p == q
    requires forall p :: Distinct(KidsOf(kids, p))
    requires forall p, c :: Child(kids, p, c) ==> age(p) < age(c)
    ensures Forest(kids, root)
  {
    forall p | InSubtree(kids, root, p) ensures !Child(kids, p, root) {
      var path :| Descent(kids, root, path, p);
      DescentAges(kids, root, path, p, age);
    }
  }

  // ----- The walk ------------------------------------------------------------------------------------------

  /** Process k of the list is a child of one of the first w. */
  ghost predicate HasParent(kids: Kids, pids: seq<int>, w: nat, k: nat)
    requires w <= |pids| && k < |pids|
  {
    exists v :: 0 <= v < w && Child(kids, pids[v], pids[k])
  }

  /** The list after w of its processes were walked. */
  ghost predicate Walked(kids: Kids, root: int, pids: seq<int>, w: nat) {
    && pids != [] && pids[0] == root && w <= |pids|
    && Distinct(pids)
    && (forall k :: 0 <= k < |pids| ==> InSubtree(kids, root, pids[k]))
    && (forall k :: 1 <= k < |pids| ==> HasParent(kids, pids, w, k))
    && (forall v, c :: 0 <= v < w && Child(kids, pids[v], c) ==> c in pids)
  }

  lemma ParentOf(kids: Kids, root: int, pids: seq<int>, w: nat, k: nat) returns (v: nat)
    requires Walked(kids, root, pids, w) && 1 <= k < |pids|
    ensures v < w && Child(kids, pids[v], pids[k])
  {
    assert HasParent(kids, pids, w, k);
    v :| 0 <= v < w && Child(kids, pids[v], pids[k]);
  }

  /** A child of the process being walked cannot be in the list yet. */
  lemma NotYetListed(kids: Kids, root: int, pids: seq<int>, w: nat, c: int)
    requires Forest(kids, root) && Walked(kids, root, pids, w) && w < |pids| && Child(kids, pids[w], c)
    ensures c !in pids
  {
    forall k | 0 <= k < |pids| ensures pids[k] != c {
      if 1 <= k {
        var v := ParentOf(kids, root, pids, w, k);
        assert pids[v] != pids[w];
      }
    }
  }

  lemma StillDistinct(xs: seq<int>, ys: seq<int>)
    requires Distinct(xs) && Distinct(ys) && forall i :: 0 <= i < |ys| ==> ys[i] !in xs
    ensures Distinct(xs + ys)
  {
    forall i, j | 0 <= i < j < |xs + ys| ensures (xs + ys)[i] != (xs + ys)[j] {
      if i < |xs| <= j {
        assert xs[i] in xs && (xs + ys)[j] == ys[j - |xs|];
      }
    }
  }

  lemma WalkStep(kids: Kids, root: int, pids: seq<int>, w: nat)
    requires Forest(kids, root) && Walked(kids, root, pids, w) && w < |pids|
    ensures Walked(kids, root, pids + KidsOf(kids, pids[w]), w + 1)
  {
    var more := KidsOf(kids, pids[w]);
    var pids' := pids + more;
    forall i | 0 <= i < |more| ensures more[i] !in pids {
      NotYetListed(kids, root, pids, w, more[i]);
    }
    StillDistinct(pids, more);
    forall k | 0 <= k < |pids'| ensures InSubtree(kids, root, pids'[k]) {
      if |pids| <= k {
        DescentSnoc(kids, root, pids[w], more[k - |pids|]);
      }
    }
    var w' := w + 1;
    forall k | 1 <= k < |pids'| ensures HasParent(kids, pids', w', k) {
      if k < |pids| {
        var v := ParentOf(kids, root, pids, w, k);
        assert Child(kids, pids'[v], pids'[k]);
      } else {
        assert pids'[k] == more[k - |pids|];
        assert Child(kids, pids'[w], pids'[k]);
      }
    }
    forall v, c | 0 <= v < w + 1 && Child(kids, pids'[v], c) ensures c in pids' {
      assert pids'[v] == pids[v];
      if v == w {
        var i :| 0 <= i < |more| && more[i] == c;
        assert pids'[|pids| + i] == c;
      } else {
        assert c in pids;
      }
    }
  }

  function AllKids(kids: Kids): set<int> {
    set p, i | p in kids && 0 <= i < |kids[p]| :: kids[p][i]
  }

  lemma {:induction false} DistinctBound(xs: seq<int>, s: set<int>)
    requires Distinct(xs) && forall i :: 0 <= i < |xs| ==> xs[i] in s
    ensures |xs| <= |s|
    decreases |xs|
  {
    if xs != [] {
      var n := |xs| - 1;
      DistinctBound(xs[..n], s - {xs[n]});
    }
  }

  /** Without repetitions, the list cannot outgrow the processes there are. */
  lemma WalkBound(kids: Kids, root: int, pids: seq<int>, w: nat)
    requires Walked(kids, root, pids, w)
    ensures |pids| <= |AllKids(kids) + {root}|
  {
    forall k | 0 <= k < |pids| ensures pids[k] in AllKids(kids) + {root} {
      if 1 <= k {
        var v := ParentOf(kids, root, pids, w, k);
      }
    }
    DistinctBound(pids, AllKids(kids) + {root});
  }

  lemma {:induction false} SubtreeListed(kids: Kids, root: int, pids: seq<int>, path: seq<int>, p: int)
    requires Walked(kids, root, pids, |pids|) && Descent(kids, root, path, p)
    ensures p in pids
    decreases |path|
  {
    if 1 < |path| {
      var n := |path| - 1;
      assert Descent(kids, root, path[..n], path[n - 1]);
      SubtreeListed(kids, root, pids, path[..n], path[n - 1]);
      var v :| 0 <= v < |pids| && pids[v] == path[n - 1];
      assert Child(kids, pids[v], p);
    }
  }

  method AppendChildren(proc: Proc, pids: seq<int>, pid: int) returns (pids': seq<int>)
    ensures pids' == pids + ChildrenOf(proc, pid)
  {
    pids' := pids;
    if pid !in proc {
      return;
    }
    var content := Split(proc[pid], ' ');
    for n := 0 to |content|
      invariant pids' == pids + Numbers(content[..n])
    {
      assert content[..n + 1][..n] == content[..n];
      var parsed := Atoi(content[n]);
      if parsed.Some? {
        pids' := pids' + [parsed.value];
      }
    }
    assert content[..|content|] == content;
  }

  /** The loop over a growing list ends, and the list holds the subtree of the root, each
      process once. */
  method Walk(proc: Proc, root: int) returns (pids: seq<int>)
    requires Forest(KidsIn(proc), root)
    ensures Distinct(pids)
    ensures forall p :: p in pids <==> InSubtree(KidsIn(proc), root, p)
  {
    ghost var kids := KidsIn(proc);
    pids := [root];
    assert Descent(kids, root, [root], root);
    var i := 0;
    while i < |pids|
      invariant Walked(kids, root, pids, i)
      decreases |AllKids(kids) + {root}| - i
    {
      WalkBound(kids, root, pids, i);
      WalkStep(kids, root, pids, i);
      pids := AppendChildren(proc, pids, pids[i]);
      i := i + 1;
    }
    forall p ensures p in pids <==> InSubtree(kids, root, p) {
      if path :| Descent(kids, root, path, p) {
        SubtreeListed(kids, root, pids, path, p);
      }
    }
  }

  /** What the kernel shows for the given children of every process. */
  ghost predicate Shows(proc: Proc, children: map<int, seq<nat>>) {
    && proc.Keys == children.Keys
    && (forall p :: p in children ==> proc[p] == Listing(children[p]))
    && (forall p, i :: p in children && 0 <= i < |children[p]| ==> children[p][i] <= MAX_INT)
  }

  /** The walk follows the children as they are. */
  lemma KidsShown(proc: Proc, children: map<int, seq<nat>>, p: int, c: int)
    requires Shows(proc, children)
    ensures Child(KidsIn(proc), p, c) <==> p in children && c in children[p]
  {
    if p in children {
      ListingRead(children[p]);
      assert KidsOf(KidsIn(proc), p) == children[p];
    }
  }

  /** Walking what the kernel shows: the list holds the root, the children of everybody in it, and
      nobody else. */
  method WalkShown(proc: Proc, root: int, ghost children: map<int, seq<nat>>) returns (pids: seq<int>)
    requires Shows(proc, children) && Forest(KidsIn(proc), root)
    ensures Distinct(pids) && root in pids
    ensures forall p, c :: p in pids && p in children && c in children[p] ==> c in pids
    ensures forall c :: c in pids && c != root ==> exists p :: p in pids && p in children && c in children[p]
  {
    pids := Walk(proc, root);
    ShownWalk(proc, root, children, pids);
  }

  lemma ShownWalk(proc: Proc, root: int, children: map<int, seq<nat>>, pids: seq<int>)
    requires Shows(proc, children) && forall p :: p in pids <==> InSubtree(KidsIn(proc), root, p)
    ensures root in pids
    ensures forall p, c :: p in pids && p in children && c in children[p] ==> c in pids
    ensures forall c :: c in pids && c != root ==> exists p :: p in pids && p in children && c in children[p]
  {
    var kids := KidsIn(proc);
    assert Descent(kids, root, [root], root);
    forall p, c | p in pids && p in children && c in children[p] ensures c in pids {
      KidsShown(proc, children, p, c);
      DescentSnoc(kids, root, p, c);
    }
    forall c | c in pids && c != root ensures exists p :: p in pids && p in children && c in children[p] {
      var path :| Descent(kids, root, path, c);
      var n := |path| - 1;
      var p := path[n - 1];
      assert Descent(kids, root, path[..n], p);
      KidsShown(proc, children, p, c);
    }
  }

  /** processesState: 0 for a stopped container, the kernel's count if there is one (-1 if it
      does not parse), else the number of processes walked. */
  method ProcessesState(init: int, current: Option<string>, proc: Proc) returns (n: int)
    requires init != -1 && current.None? ==> Forest(KidsIn(proc), init)
    ensures init == -1 ==> n == 0
    ensures init != -1 && current.Some? ==> n == if Atoi(current.value).Some? then Atoi(current.value).value else -1
    ensures init != -1 && current.None? ==>
              exists pids :: Distinct(pids) && |pids| == n
                && forall p :: p in pids <==> InSubtree(KidsIn(proc), init, p)
  {
    if init == -1 {
      return 0;
    }
    if current.Some? {
      var value := Atoi(current.value);
      return if value.Some? then value.value else -1;
    }
    var pids := Walk(proc, init);
    return |pids|;
  }
}
