/** ProcessTree: the forest built from the processes of an analysis by repeated depth-first
    insertion. */
module ProcessTree {
  import opened Multisets
  import opened Wrappers

  datatype Process = Process(pid: int, parent: int, name: string)
  datatype Tree = Node(proc: Process, children: seq<Tree>)

  // ---- reading a forest

  /** All processes of a forest, in preorder. */
  function Procs(f: seq<Tree>): seq<Process> {
    if f == [] then [] else [f[0].proc] + Procs(f[0].children) + Procs(f[1..])
  }

  function Roots(f: seq<Tree>): seq<Process> {
    if f == [] then [] else [f[0].proc] + Roots(f[1..])
  }

  /** The children listed under the nodes with process id `pid`. */
  function Kids(f: seq<Tree>, pid: int): seq<Process> {
    if f == [] then []
    else
      (if f[0].proc.pid == pid then Roots(f[0].children) else [])
      + Kids(f[0].children, pid) + Kids(f[1..], pid)
  }

  function Count(s: seq<Process>, pid: int): nat {
    if s == [] then 0 else (if s[0].pid == pid then 1 else 0) + Count(s[1..], pid)
  }

  predicate Listed(s: seq<Process>, pid: int) {
    Count(s, pid) > 0
  }

  ghost predicate DistinctPids(s: seq<Process>) {
    forall pid :: Count(s, pid) <= 1
  }

  // ---- inserting a node

  /** The specification of add_node: the node goes last under the first process, depth first, that
      is its parent. */
  function Attach(f: seq<Tree>, n: Process): Option<seq<Tree>> {
    if f == [] then None
    else if f[0].proc.pid == n.parent then
      Some([Node(f[0].proc, f[0].children + [Node(n, [])])] + f[1..])
    else
      match Attach(f[0].children, n)
      case Some(k) => Some([Node(f[0].proc, k)] + f[1..])
      case None =>
        match Attach(f[1..], n)
        case Some(r) => Some([f[0]] + r)
        case None => None
  }

  lemma {:induction false} CountAppend(a: seq<Process>, b: seq<Process>, pid: int)
    ensures Count(a + b, pid) == Count(a, pid) + Count(b, pid)
  {
    if a == [] {
      assert a + b == b;
    } else {
      CountAppend(a[1..], b, pid);
      assert (a + b)[1..] == a[1..] + b;
    }
  }

  lemma {:induction false} CountProcs(f: seq<Tree>, pid: int)
    requires f != []
    ensures Count(Procs(f), pid) ==
      (if f[0].proc.pid == pid then 1 else 0) + Count(Procs(f[0].children), pid) + Count(Procs(f[1..]), pid)
  {
    CountAppend([f[0].proc] + Procs(f[0].children), Procs(f[1..]), pid);
    CountAppend([f[0].proc], Procs(f[0].children), pid);
  }

  lemma {:induction false} ForestCons(t: Tree, f: seq<Tree>)
    ensures Procs([t] + f) == [t.proc] + Procs(t.children) + Procs(f)
    ensures Roots([t] + f) == [t.proc] + Roots(f)
  {}

  lemma {:induction false} KidsCons(t: Tree, f: seq<Tree>, q: int)
    ensures Kids([t] + f, q)
         == (if t.proc.pid == q then Roots(t.children) else []) + Kids(t.children, q) + Kids(f, q)
  {}

  lemma {:induction false} AddLeaf(f: seq<Tree>, n: Process)
    ensures Procs(f + [Node(n, [])]) == Procs(f) + [n]
    ensures Roots(f + [Node(n, [])]) == Roots(f) + [n]
  {
    var leaf := Node(n, []);
    if f == [] {
      assert f + [leaf] == [leaf] + [];
      ForestCons(leaf, []);
    } else {
      AddLeaf(f[1..], n);
      assert f + [leaf] == [f[0]] + (f[1..] + [leaf]) && f == [f[0]] + f[1..];
      ForestCons(f[0], f[1..] + [leaf]);
      ForestCons(f[0], f[1..]);
    }
  }

  lemma {:induction false} AddLeafKids(f: seq<Tree>, n: Process, q: int)
    ensures Kids(f + [Node(n, [])], q) == Kids(f, q)
  {
    var leaf := Node(n, []);
    if f == [] {
      assert f + [leaf] == [leaf] + [];
      KidsCons(leaf, [], q);
      assert Kids([], q) == [];
    } else {
      AddLeafKids(f[1..], n, q);
      assert f + [leaf] == [f[0]] + (f[1..] + [leaf]) && f == [f[0]] + f[1..];
      KidsCons(f[0], f[1..] + [leaf], q);
      KidsCons(f[0], f[1..], q);
    }
  }

  lemma {:induction false} KidsAbsent(f: seq<Tree>, q: int)
    requires !Listed(Procs(f), q)
    ensures Kids(f, q) == []
  {
    if f != [] {
      CountProcs(f, q);
      KidsAbsent(f[0].children, q);
      KidsAbsent(f[1..], q);
    }
  }

  /** The node finds a place exactly when its parent is somewhere in the forest. */
  lemma {:induction false} AttachFinds(f: seq<Tree>, n: Process)
    ensures Attach(f, n).Some? <==> Listed(Procs(f), n.parent)
  {
    if f != [] {
      CountProcs(f, n.parent);
      if f[0].proc.pid != n.parent {
        AttachFinds(f[0].children, n);
        AttachFinds(f[1..], n);
      }
    }
  }

  lemma {:induction false} AttachMembers(f: seq<Tree>, n: Process)
    requires Attach(f, n).Some?
    ensures multiset(Procs(Attach(f, n).value)) == multiset(Procs(f)) + multiset{n}
    ensures Roots(Attach(f, n).value) == Roots(f)
  {
    hide Procs, Roots;
    var t, rest := f[0], f[1..];
    assert f == [t] + rest;
    ForestCons(t, rest);
    if t.proc.pid == n.parent {
      AddLeaf(t.children, n);
      ForestCons(Node(t.proc, t.children + [Node(n, [])]), rest);
    } else if Attach(t.children, n).Some? {
      AttachMembers(t.children, n);
      ForestCons(Node(t.proc, Attach(t.children, n).value), rest);
    } else {
      AttachMembers(rest, n);
      ForestCons(t, Attach(rest, n).value);
    }
  }

  /** Inserting changes the children of one process only: the new node becomes the last of them. */
  lemma {:induction false} AttachKids(f: seq<Tree>, n: Process, q: int)
    requires Attach(f, n).Some? && Count(Procs(f), n.parent) <= 1
    ensures Kids(Attach(f, n).value, q) == Kids(f, q) + if q == n.parent then [n] else []
  {
    hide Procs, Kids, Roots, Count;
    var t, rest := f[0], f[1..];
    assert f == [t] + rest;
    CountProcs(f, n.parent);
    KidsCons(t, rest, q);
    if t.proc.pid == n.parent {
      var t' := Node(t.proc, t.children + [Node(n, [])]);
      AddLeaf(t.children, n);
      AddLeafKids(t.children, n, q);
      KidsCons(t', rest, q);
      KidsAbsent(t.children, n.parent);
      KidsAbsent(rest, n.parent);
      if q == n.parent {
        assert Kids([t'] + rest, q) == Roots(t.children) + [n] + [] + [];
      }
    } else if Attach(t.children, n).Some? {
      var k := Attach(t.children, n).value;
      AttachFinds(t.children, n);
      AttachMembers(t.children, n);
      AttachKids(t.children, n, q);
      KidsCons(Node(t.proc, k), rest, q);
      if q == n.parent { KidsAbsent(rest, q); }
    } else {
      AttachKids(rest, n, q);
      KidsCons(t, Attach(rest, n).value, q);
    }
  }

  lemma {:induction false} TakeOut(b: seq<Process>, x: Process, pid: int) returns (rest: seq<Process>)
    requires x in b
    ensures multiset(b) == multiset{x} + multiset(rest)
    ensures Count(b, pid) == Count([x], pid) + Count(rest, pid)
  {
    hide Count;
    var i :| 0 <= i < |b| && b[i] == x;
    rest := b[..i] + b[i + 1..];
    assert b == b[..i] + ([x] + b[i + 1..]);
    CountAppend(b[..i], b[i + 1..], pid);
    CountAppend(b[..i], [x] + b[i + 1..], pid);
    CountAppend([x], b[i + 1..], pid);
  }

  lemma {:induction false} CountMultiset(a: seq<Process>, b: seq<Process>, pid: int)
    requires multiset(a) == multiset(b)
    ensures Count(a, pid) == Count(b, pid)
  {
    hide Count;
    if a == [] {
      assert |b| == |multiset(b)| == 0;
    } else {
      var x, a' := a[0], a[1..];
      assert a == [x] + a';
      assert x in multiset(b);
      var rest := TakeOut(b, x, pid);
      Cancel(x, multiset(a'), multiset(rest));
      CountMultiset(a', rest, pid);
      CountAppend([x], a', pid);
    }
  }

  // ---- which processes are children, and where they end up

  /** Another process of the list is the parent of `p`. */
  predicate HasParent(ps: seq<Process>, p: Process) {
    exists i :: 0 <= i < |ps| && ps[i] != p && ps[i].pid == p.parent
  }

  /** Those of `s` that have, or have not, a parent in the list. */
  function Pick(ps: seq<Process>, s: seq<Process>, want: bool): seq<Process> {
    if s == [] then []
    else Pick(ps, s[..|s| - 1], want) + if HasParent(ps, s[|s| - 1]) == want then [s[|s| - 1]] else []
  }

  /** The `j`-th child finds its parent: it is an orphan, or a child earlier in the list. */
  predicate Placed(orphans: seq<Process>, children: seq<Process>, j: nat)
    requires j < |children|
  {
    Listed(orphans + children[..j], children[j].parent)
  }

  /** Of the first `k` children, those whose parent comes too late. */
  function Strays(orphans: seq<Process>, children: seq<Process>, k: nat): seq<Process>
    requires k <= |children|
  {
    if k == 0 then []
    else Strays(orphans, children, k - 1) + if Placed(orphans, children, k - 1) then [] else [children[k - 1]]
  }

  /** Of the first `k` children, those placed under process id `q`, in list order. */
  function Under(orphans: seq<Process>, children: seq<Process>, k: nat, q: int): seq<Process>
    requires k <= |children|
  {
    if k == 0 then []
    else
      Under(orphans, children, k - 1, q)
      + if Placed(orphans, children, k - 1) && children[k - 1].parent == q then [children[k - 1]] else []
  }

  /** `f` is the forest after the orphans and the first `k` children. */
  ghost predicate Built(orphans: seq<Process>, children: seq<Process>, k: nat, f: seq<Tree>)
    requires k <= |children|
  {
    && multiset(Procs(f)) == multiset(orphans + children[..k])
    && Roots(f) == orphans + Strays(orphans, children, k)
    && forall q :: Kids(f, q) == Under(orphans, children, k, q)
  }

  lemma {:induction false} BuildStep(orphans: seq<Process>, children: seq<Process>, k: nat, f: seq<Tree>)
    requires k < |children| && DistinctPids(orphans + children) && Built(orphans, children, k, f)
    ensures Built(orphans, children, k + 1,
                  if Attach(f, children[k]).Some? then Attach(f, children[k]).value else f + [Node(children[k], [])])
  {
    hide Procs, Kids, Roots, Count, Attach;
    var n := children[k];
    var placed := orphans + children[..k];
    assert orphans + children[..k + 1] == placed + [n];
    assert orphans + children == placed + children[k..];
    forall pid ensures Count(Procs(f), pid) == Count(placed, pid) <= 1 {
      CountMultiset(Procs(f), placed, pid);
      CountAppend(placed, children[k..], pid);
    }
    AttachFinds(f, n);
    if Attach(f, n).Some? {
      AttachMembers(f, n);
      forall q ensures Kids(Attach(f, n).value, q) == Under(orphans, children, k + 1, q) {
        AttachKids(f, n, q);
      }
    } else {
      AddLeaf(f, n);
      forall q ensures Kids(f + [Node(n, [])], q) == Under(orphans, children, k + 1, q) {
        AddLeafKids(f, n, q);
      }
    }
  }

  function Leaves(s: seq<Process>): (f: seq<Tree>)
    ensures |f| == |s|
    ensures forall i :: 0 <= i < |s| ==> f[i] == Node(s[i], [])
  {
    if s == [] then [] else [Node(s[0], [])] + Leaves(s[1..])
  }

  lemma {:induction false} LeavesBuilt(s: seq<Process>)
    ensures Procs(Leaves(s)) == s && Roots(Leaves(s)) == s
    ensures forall q :: Kids(Leaves(s), q) == []
  {
    if s != [] {
      LeavesBuilt(s[1..]);
      assert Leaves(s)[1..] == Leaves(s[1..]);
    }
  }

  lemma {:induction false} PickLast(ps: seq<Process>, s: seq<Process>, want: bool)
    requires s != []
    ensures var n := |s| - 1;
      Pick(ps, s, want) == Pick(ps, s[..n], want) + if HasParent(ps, s[n]) == want then [s[n]] else []
  {}

  lemma {:induction false} PickSplits(ps: seq<Process>, s: seq<Process>)
    ensures multiset(Pick(ps, s, false) + Pick(ps, s, true)) == multiset(s)
  {
    if s != [] {
      var n := |s| - 1;
      PickSplits(ps, s[..n]);
      assert s == s[..n] + [s[n]];
      PickLast(ps, s, false);
      PickLast(ps, s, true);
    }
    hide Pick, HasParent;
  }

  /** A forest found behind the trees `front`. */
  function After(front: seq<Tree>, rest: Option<seq<Tree>>): Option<seq<Tree>> {
    match rest
    case None => None
    case Some(r) => Some(front + r)
  }

  lemma {:induction false} NowhereInNothing(n: Process)
    ensures Attach([], n) == None
  {}

  lemma {:induction false} AfterNothing(rest: Option<seq<Tree>>)
    ensures After([], rest) == rest
  {
    if rest.Some? { assert [] + rest.value == rest.value; }
  }

  lemma {:induction false} AfterStep(f: seq<Tree>, i: nat, n: Process)
    requires i < |f|
    ensures f[i].proc.pid == n.parent ==>
      Attach(f[i..], n) == Some([Node(f[i].proc, f[i].children + [Node(n, [])])] + f[i + 1..])
    ensures f[i].proc.pid != n.parent && Attach(f[i].children, n).Some? ==>
      Attach(f[i..], n) == Some([Node(f[i].proc, Attach(f[i].children, n).value)] + f[i + 1..])
    ensures f[i].proc.pid != n.parent && Attach(f[i].children, n).None? ==>
      After(f[..i], Attach(f[i..], n)) == After(f[..i + 1], Attach(f[i + 1..], n))
  {
    assert f[i..][1..] == f[i + 1..] && f[..i + 1] == f[..i] + [f[i]];
    if f[i].proc.pid != n.parent && Attach(f[i].children, n).None? && Attach(f[i + 1..], n).Some? {
      var r := Attach(f[i + 1..], n).value;
      assert f[..i] + ([f[i]] + r) == (f[..i] + [f[i]]) + r;
    }
  }

  class ProcessTree {
    var processes: seq<Process>
    var tree: seq<Tree>

    constructor ()
      ensures processes == [] && tree == []
    {
      processes, tree := [], [];
    }

    /** The first mention of a process id lists the process. */
    method EventApicall(p: Process)
      requires DistinctPids(processes)
      modifies this`processes
      ensures DistinctPids(processes)
      ensures processes == old(processes) + if Listed(old(processes), p.pid) then [] else [p]
    {
      var i := 0;
      while i < |processes|
        invariant 0 <= i <= |processes| && processes == old(processes) && DistinctPids(processes)
        invariant Count(processes[..i], p.pid) == 0
      {
        if processes[i].pid == p.pid {
          assert processes == processes[..i] + processes[i..];
          CountAppend(processes[..i], processes[i..], p.pid);
          return;
        }
        assert processes[..i + 1] == processes[..i] + [processes[i]];
        CountAppend(processes[..i], [processes[i]], p.pid);
        i := i + 1;
      }
      assert processes[..i] == processes;
      forall pid ensures Count(processes + [p], pid) <= 1 {
        CountAppend(processes, [p], pid);
      }
      processes := processes + [p];
    }

    /** add_node: the forest with the node in it, and whether a place was found. */
    static method AddNode(node: Process, tree: seq<Tree>) returns (tree': seq<Tree>, ret: bool)
      ensures ret == Attach(tree, node).Some?
      ensures tree' == if ret then Attach(tree, node).value else tree
      decreases tree
    {
      hide Attach;
      var i := 0;
      assert tree[0..] == tree;
      AfterNothing(Attach(tree, node));
      while i < |tree|
        invariant 0 <= i <= |tree|
        invariant Attach(tree, node) == After(tree[..i], Attach(tree[i..], node))
      {
        var process := tree[i];
        AfterStep(tree, i, node);
        if process.proc.pid == node.parent {
          var grown := Node(process.proc, process.children + [Node(node, [])]);
          assert tree[i := grown] == tree[..i] + ([grown] + tree[i + 1..]);
          return tree[i := grown], true;
        } else {
          var children, found := AddNode(node, process.children);
          if found {
            var grown := Node(process.proc, children);
            assert tree[i := grown] == tree[..i] + ([grown] + tree[i + 1..]);
            return tree[i := grown], true;
          }
        }
        i := i + 1;
      }
      assert tree[i..] == [];
      NowhereInNothing(node);
      return tree, false;
    }

    /** The finished forest: orphans become roots in list order, then every other process goes under
        its parent if that is already in the forest, and becomes a root otherwise. */
    method Run() returns (result: seq<Tree>)
      requires DistinctPids(processes) && tree == []
      modifies this`tree
      ensures result == tree && Forest(processes, tree)
    {
      hide *;
      var children := FindRoots();
      ghost var orphans := Pick(processes, processes, false);
      PickDistinct(processes);
      StartBuilt(orphans, children);
      for k := 0 to |children|
        invariant Built(orphans, children, k, tree)
      {
        BuildStep(orphans, children, k, tree);
        var grown, found := AddNode(children[k], tree);
        tree := if found then grown else tree + [Node(children[k], [])];
      }
      BuiltIsForest(processes, tree);
      result := tree;
    }

    /** The first pass: orphans become roots, the others are set aside. */
    method FindRoots() returns (children: seq<Process>)
      requires tree == []
      modifies this`tree
      ensures children == Pick(processes, processes, true)
      ensures tree == Leaves(Pick(processes, processes, false))
    {
      hide HasParent;
      children := [];
      var ps := processes;
      for i := 0 to |ps|
        invariant children == Pick(ps, ps[..i], true) && tree == Leaves(Pick(ps, ps[..i], false))
      {
        var hasParent := FindParent(ps, ps[i]);
        assert ps[..i + 1][..i] == ps[..i] && ps[..i + 1][i] == ps[i];
        if hasParent {
          children := children + [ps[i]];
        } else {
          tree := tree + [Node(ps[i], [])];
        }
      }
      assert ps[..|ps|] == ps;
    }

    /** The inner loop of the first pass. */
    static method FindParent(ps: seq<Process>, p: Process) returns (hasParent: bool)
      ensures hasParent == HasParent(ps, p)
    {
      hasParent := false;
      for i := 0 to |ps|
        invariant !hasParent && forall j :: 0 <= j < i ==> ps[j] == p || ps[j].pid != p.parent
      {
        if ps[i] == p {
          continue;
        }
        if ps[i].pid == p.parent {
          return true;
        }
      }
    }
  }

  lemma {:induction false} StartBuilt(orphans: seq<Process>, children: seq<Process>)
    ensures Built(orphans, children, 0, Leaves(orphans))
  {
    LeavesBuilt(orphans);
    assert orphans + children[..0] == orphans;
  }

  lemma {:induction false} PickDistinct(ps: seq<Process>)
    requires DistinctPids(ps)
    ensures DistinctPids(Pick(ps, ps, false) + Pick(ps, ps, true))
  {
    PickSplits(ps, ps);
    var both := Pick(ps, ps, false) + Pick(ps, ps, true);
    forall pid ensures Count(both, pid) <= 1 {
      CountMultiset(both, ps, pid);
    }
  }

  // ---- what the finished forest is

  /** The forest `Run` leaves for the list `ps`. */
  ghost predicate Forest(ps: seq<Process>, f: seq<Tree>) {
    var children := Pick(ps, ps, true);
    Built(Pick(ps, ps, false), children, |children|, f)
  }

  lemma {:induction false} BuiltIsForest(ps: seq<Process>, f: seq<Tree>)
    requires var children := Pick(ps, ps, true); Built(Pick(ps, ps, false), children, |children|, f)
    ensures Forest(ps, f)
  {}

  /** Every listed process is in the forest exactly once. */
  lemma {:induction false} EachOnce(ps: seq<Process>, f: seq<Tree>)
    requires Forest(ps, f)
    ensures multiset(Procs(f)) == multiset(ps)
  {
    var children := Pick(ps, ps, true);
    assert children[..|children|] == children;
    PickSplits(ps, ps);
  }

  lemma {:induction false} UnderParent(orphans: seq<Process>, children: seq<Process>, k: nat, q: int, c: Process)
    requires k <= |children| && c in Under(orphans, children, k, q)
    ensures c.parent == q && c in children
  {
    if c in Under(orphans, children, k - 1, q) { UnderParent(orphans, children, k - 1, q, c); }
  }

  /** Every edge of the forest joins a process to its parent id. */
  lemma {:induction false} EdgesAreParentage(ps: seq<Process>, f: seq<Tree>, q: int, c: Process)
    requires Forest(ps, f) && c in Kids(f, q)
    ensures c.parent == q && HasParent(ps, c)
  {
    var children := Pick(ps, ps, true);
    UnderParent(Pick(ps, ps, false), children, |children|, q, c);
    PickMember(ps, ps, true, c);
  }

  lemma {:induction false} PickMember(ps: seq<Process>, s: seq<Process>, want: bool, x: Process)
    ensures x in Pick(ps, s, want) <==> x in s && HasParent(ps, x) == want
  {
    hide HasParent;
    if s != [] {
      var n := |s| - 1;
      PickMember(ps, s[..n], want, x);
      assert s == s[..n] + [s[n]];
    }
  }

  /** Every process that is itself a child stands before its own children in the list. */
  ghost predicate ParentsFirst(ps: seq<Process>) {
    forall i, j ::
      0 <= i < |ps| && 0 <= j < |ps| && i != j && ps[j].pid == ps[i].parent && HasParent(ps, ps[j]) ==> j < i
  }

  lemma {:induction false} ListedIff(s: seq<Process>, pid: int)
    ensures Listed(s, pid) <==> exists x :: 0 <= x < |s| && s[x].pid == pid
  {
    if s != [] {
      ListedIff(s[1..], pid);
      if x :| 0 <= x < |s[1..]| && s[1..][x].pid == pid { assert s[x + 1].pid == pid; }
      if x :| 0 <= x < |s| && s[x].pid == pid {
        if x > 0 { assert s[1..][x - 1].pid == pid; }
      }
    }
  }

  lemma {:induction false} TwoIndices(s: seq<Process>, i: nat, j: nat)
    requires i < j < |s| && s[i].pid == s[j].pid
    ensures Count(s, s[i].pid) >= 2
  {
    var pid := s[i].pid;
    assert s == s[..j] + s[j..];
    CountAppend(s[..j], s[j..], pid);
    ListedIff(s[..j], pid);
    ListedIff(s[j..], pid);
    assert s[..j][i].pid == pid && s[j..][0].pid == pid;
  }

  lemma {:induction false} OneIndex(s: seq<Process>, i: nat, j: nat)
    requires DistinctPids(s) && i < |s| && j < |s| && s[i].pid == s[j].pid
    ensures i == j
  {
    if i < j { TwoIndices(s, i, j); }
    if j < i { TwoIndices(s, j, i); }
  }

  lemma {:induction false} PickPrefix(ps: seq<Process>, s: seq<Process>, m: nat, want: bool)
    requires m <= |s|
    ensures |Pick(ps, s[..m], want)| <= |Pick(ps, s, want)|
    ensures Pick(ps, s[..m], want) == Pick(ps, s, want)[..|Pick(ps, s[..m], want)|]
  {
    if m == |s| {
      assert s[..m] == s;
    } else {
      var n := |s| - 1;
      PickPrefix(ps, s[..n], m, want);
      assert s[..n][..m] == s[..m];
    }
  }

  /** The child at position `i` of the list is the `j`-th child. */
  ghost predicate ChildAt(ps: seq<Process>, i: nat, j: nat)
    requires i < |ps|
  {
    var children := Pick(ps, ps, true);
    j < |children| && children[j] == ps[i] && children[..j] == Pick(ps, ps[..i], true) && HasParent(ps, ps[i])
  }

  lemma {:induction false} ChildRank(ps: seq<Process>, i: nat) returns (j: nat)
    requires i < |ps| && HasParent(ps, ps[i])
    ensures ChildAt(ps, i, j)
  {
    j := |Pick(ps, ps[..i], true)|;
    assert ps[..i + 1][..i] == ps[..i];
    PickPrefix(ps, ps, i, true);
    PickPrefix(ps, ps, i + 1, true);
    assert Pick(ps, ps[..i + 1], true) == Pick(ps, ps[..i], true) + [ps[i]];
    assert Pick(ps, ps, true)[j] == Pick(ps, ps[..i + 1], true)[j];
  }

  lemma {:induction false} RankedChild(ps: seq<Process>, m: nat, j: nat) returns (i: nat)
    requires m <= |ps| && j < |Pick(ps, ps[..m], true)|
    ensures i < |ps| && ChildAt(ps, i, j)
  {
    var front := Pick(ps, ps[..m - 1], true);
    assert ps[..m][..m - 1] == ps[..m - 1];
    if j < |front| {
      i := RankedChild(ps, m - 1, j);
    } else {
      i := m - 1;
      var r := ChildRank(ps, i);
      assert r == |front|;
    }
  }

  /** A child finds its parent in the forest iff the parent is an orphan or stands before it. */
  lemma {:induction false} PlacedIff(ps: seq<Process>, i: nat, j: nat, k: nat)
    requires DistinctPids(ps) && i < |ps| && ChildAt(ps, i, j)
    requires k < |ps| && k != i && ps[k].pid == ps[i].parent
    ensures Placed(Pick(ps, ps, false), Pick(ps, ps, true), j) <==> !HasParent(ps, ps[k]) || k < i
  {
    hide Count, HasParent;
    var orphans, before := Pick(ps, ps, false), Pick(ps, ps[..i], true);
    var both := orphans + before;
    ListedIff(both, ps[i].parent);
    PickMember(ps, ps, false, ps[k]);
    PickMember(ps, ps[..i], true, ps[k]);
    if !HasParent(ps, ps[k]) || k < i {
      if k < i { assert ps[..i][k] == ps[k]; }
      assert ps[k] in both;
      var x :| 0 <= x < |both| && both[x] == ps[k];
    }
    if x :| 0 <= x < |both| && both[x].pid == ps[i].parent {
      if x < |orphans| {
        assert both[x] in orphans;
        PickMember(ps, ps, false, both[x]);
        var y :| 0 <= y < |ps| && ps[y] == both[x];
        OneIndex(ps, y, k);
      } else {
        assert both[x] in before;
        PickMember(ps, ps[..i], true, both[x]);
        var y :| 0 <= y < i && ps[..i][y] == both[x];
        OneIndex(ps, y, k);
      }
    }
  }

  lemma {:induction false} NoStraysIff(orphans: seq<Process>, children: seq<Process>, k: nat)
    requires k <= |children|
    ensures Strays(orphans, children, k) == [] <==> forall j :: 0 <= j < k ==> Placed(orphans, children, j)
  {
    hide Placed;
    if k > 0 { NoStraysIff(orphans, children, k - 1); }
  }

  /** The roots are exactly the processes without a listed parent, in list order, iff every process
      that is a child itself is listed before its children. */
  lemma {:induction false} RootsAreOrphansIff(ps: seq<Process>, f: seq<Tree>)
    requires DistinctPids(ps) && Forest(ps, f)
    ensures Roots(f) == Pick(ps, ps, false) <==> ParentsFirst(ps)
  {
    hide Count, Placed, ChildAt, Procs, Kids;
    var orphans, children := Pick(ps, ps, false), Pick(ps, ps, true);
    NoStraysIff(orphans, children, |children|);
    assert Roots(f) == orphans <==> Strays(orphans, children, |children|) == [] by {
      assert orphans + [] == orphans;
      assert |Roots(f)| == |orphans| + |Strays(orphans, children, |children|)|;
    }
    if ParentsFirst(ps) {
      forall j | 0 <= j < |children| ensures Placed(orphans, children, j) {
        assert ps[..|ps|] == ps;
        var i := RankedChild(ps, |ps|, j);
        var k := ParentOf(ps, i, j);
        PlacedIff(ps, i, j, k);
      }
    }
    if forall j :: 0 <= j < |children| ==> Placed(orphans, children, j) {
      forall i, k | 0 <= i < |ps| && 0 <= k < |ps| && i != k && ps[k].pid == ps[i].parent && HasParent(ps, ps[k])
        ensures k < i
      {
        if ps[k] == ps[i] { OneIndex(ps, i, k); }
        assert HasParent(ps, ps[i]);
        var j := ChildRank(ps, i);
        RankBound(ps, i, j);
        PlacedIff(ps, i, j, k);
      }
    }
  }

  lemma {:induction false} RankBound(ps: seq<Process>, i: nat, j: nat)
    requires i < |ps| && ChildAt(ps, i, j)
    ensures j < |Pick(ps, ps, true)|
  {}

  lemma {:induction false} ParentOf(ps: seq<Process>, i: nat, j: nat) returns (k: nat)
    requires i < |ps| && ChildAt(ps, i, j)
    ensures k < |ps| && k != i && ps[k].pid == ps[i].parent
  {
    k :| 0 <= k < |ps| && ps[k] != ps[i] && ps[k].pid == ps[i].parent;
  }

  /** A list that names every parent before its children meets the condition. */
  lemma {:induction false} InOrderIsEnough(ps: seq<Process>)
    requires forall i, j :: 0 <= i < |ps| && 0 <= j < |ps| && i != j && ps[j].pid == ps[i].parent ==> j < i
    ensures ParentsFirst(ps)
  {}

  /** A grandchild listed before its parent becomes a root of its own, though the parent is in the
      forest in the end. */
  lemma {:induction false} StrayGrandchild(f: seq<Tree>)
    requires Forest([Process(1, 0, "a"), Process(3, 2, "c"), Process(2, 1, "b")], f)
    ensures Roots(f) == [Process(1, 0, "a"), Process(3, 2, "c")]
    ensures Kids(f, 1) == [Process(2, 1, "b")] && Kids(f, 2) == []
  {
    hide Procs, Kids, Roots, Count, Strays, Under, Placed, Pick;
    var a, c, b := Process(1, 0, "a"), Process(3, 2, "c"), Process(2, 1, "b");
    var s := [a, c, b];
    assert !HasParent(s, a);
    assert HasParent(s, c) by { assert s[2] != c && s[2].pid == c.parent; }
    assert HasParent(s, b) by { assert s[0] != b && s[0].pid == b.parent; }
    PickThree(s, a, c, b);
    LateParent(a, c, b, 1);
    LateParent(a, c, b, 2);
  }

  lemma {:induction false} LateParent(a: Process, c: Process, b: Process, q: int)
    requires a.pid == b.parent != c.pid && a.pid != c.parent
    ensures Strays([a], [c, b], 2) == [c]
    ensures Under([a], [c, b], 2, q) == if q == a.pid then [b] else []
  {
    assert [a] + [c, b][..0] == [a] && [a] + [c, b][..1] == [a] + [c];
    assert Count([a], c.parent) == 0;
    CountAppend([a], [c], b.parent);
    assert !Placed([a], [c, b], 0) && Placed([a], [c, b], 1);
    assert Strays([a], [c, b], 1) == [c] && Under([a], [c, b], 1, q) == [];
  }

  lemma {:induction false} PickThree(ps: seq<Process>, a: Process, c: Process, b: Process)
    requires !HasParent(ps, a) && HasParent(ps, c) && HasParent(ps, b)
    ensures Pick(ps, [a, c, b], false) == [a] && Pick(ps, [a, c, b], true) == [c, b]
  {
    hide HasParent;
    assert [a, c, b][..2] == [a, c] && [a, c][..1] == [a] && [a][..0] == [];
    assert Pick(ps, [a], false) == [a] && Pick(ps, [a], true) == [];
    assert Pick(ps, [a, c], false) == [a] && Pick(ps, [a, c], true) == [c];
  }
}
