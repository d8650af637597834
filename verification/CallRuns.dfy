/** The calls of a process log, and what one pass of the log iterator should deliver of them. */
module CallRuns {
  import opened Wrappers

  /** What compare_calls looks at. */
  datatype Sig = Sig(api: string, status: bool, arguments: seq<(string, string)>, ret: string)

  /** `context` stands for the time stamp, thread, callers and category, which are not compared. */
  datatype Call = Call(sig: Sig, context: string, repeated: nat)

  datatype Emitted = Emitted(call: Call, id: nat)

  predicate CompareCalls(a: Call, b: Call) {
    a.sig == b.sig
  }

  /** What the parser makes of a message: nothing, a call, or a refusal to go on. */
  datatype Event = Quiet | Called(call: Call) | Refused

  /** Runs of equal calls folded into their first one. */
  function RunMerge(s: seq<Call>): seq<Call> {
    if s == [] then []
    else
      var m := RunMerge(s[1..]);
      if m != [] && CompareCalls(s[0], m[0])
      then [s[0].(repeated := s[0].repeated + m[0].repeated + 1)] + m[1..]
      else [s[0]] + m
  }

  /** The calls between refusals: always at least one, possibly empty, segment. */
  function Segments(evs: seq<Event>): (r: seq<seq<Call>>)
    ensures |r| >= 1
  {
    if evs == [] then [[]]
    else
      var rest := Segments(evs[1..]);
      match evs[0]
      case Quiet => rest
      case Called(c) => Prepend(c, rest)
      case Refused => [[]] + rest
  }

  function Prepend(c: Call, segs: seq<seq<Call>>): seq<seq<Call>>
    requires |segs| >= 1
  {
    [[c] + segs[0]] + segs[1..]
  }

  /** A refusal right after a call only separates runs; met where a call is due, it ends the pass. */
  function Delivered(segs: seq<seq<Call>>): seq<Call> {
    if segs == [] || segs[0] == [] then [] else RunMerge(segs[0]) + Delivered(segs[1..])
  }

  function PassOf(evs: seq<Event>): seq<Call> {
    Delivered(Segments(evs))
  }

  /** The call limit, zero meaning none. */
  function Limited(s: seq<Call>, limit: nat): seq<Call> {
    if limit == 0 || |s| <= limit then s else s[..limit]
  }

  function Number(s: seq<Call>, start: nat): (r: seq<Emitted>)
    ensures |r| == |s|
    ensures forall i :: 0 <= i < |s| ==> r[i] == Emitted(s[i], start + i)
  {
    if s == [] then [] else [Emitted(s[0], start)] + Number(s[1..], start + 1)
  }

  // ---- folding, one call at a time

  lemma {:induction false} MergeAbsorb(n: Call, l: Call, r: seq<Call>)
    requires CompareCalls(n, l)
    ensures RunMerge([n] + ([l] + r)) == RunMerge([n.(repeated := n.repeated + l.repeated + 1)] + r)
  {}

  // ---- what folding means

  function Copies(x: Sig, n: nat): (r: seq<Sig>)
    ensures |r| == n
    ensures forall i :: 0 <= i < n ==> r[i] == x
  {
    if n == 0 then [] else [x] + Copies(x, n - 1)
  }

  /** The calls as they happened: `repeated` counts the further occurrences. */
  function Expand(s: seq<Call>): seq<Sig> {
    if s == [] then [] else Copies(s[0].sig, s[0].repeated + 1) + Expand(s[1..])
  }

  lemma {:induction false} CopiesAppend(x: Sig, m: nat, n: nat)
    ensures Copies(x, m) + Copies(x, n) == Copies(x, m + n)
  {}

  lemma {:induction false} NoCalls()
    ensures Expand([]) == []
  {}

  lemma {:induction false} ExpandCons(c: Call, s: seq<Call>)
    ensures Expand([c] + s) == Copies(c.sig, c.repeated + 1) + Expand(s)
  {}

  lemma {:induction false} ExpandAppend(a: seq<Call>, b: seq<Call>)
    ensures Expand(a + b) == Expand(a) + Expand(b)
  {
    hide Expand, Copies;
    if a == [] {
      assert a + b == b;
      NoCalls();
    } else {
      ExpandAppend(a[1..], b);
      ExpandCons(a[0], a[1..]);
      ExpandCons(a[0], a[1..] + b);
      assert a == [a[0]] + a[1..] && a + b == [a[0]] + (a[1..] + b);
    }
  }

  /** Folding runs loses no call. */
  lemma {:induction false} MergeExpand(s: seq<Call>)
    ensures Expand(RunMerge(s)) == Expand(s)
  {
    if s != [] {
      var m := RunMerge(s[1..]);
      MergeExpand(s[1..]);
      if m != [] && CompareCalls(s[0], m[0]) {
        CopiesAppend(s[0].sig, s[0].repeated + 1, m[0].repeated + 1);
        assert RunMerge(s)[1..] == m[1..];
        assert Expand(m) == Copies(s[0].sig, m[0].repeated + 1) + Expand(m[1..]);
      } else {
        assert RunMerge(s)[1..] == m;
      }
    }
  }

  ghost predicate NoEqualNeighbours(s: seq<Call>) {
    forall i :: 0 <= i < |s| - 1 ==> !CompareCalls(s[i], s[i + 1])
  }

  /** Folding leaves no two equal neighbours. */
  lemma {:induction false} MergeNeighbours(s: seq<Call>)
    ensures NoEqualNeighbours(RunMerge(s))
  {
    if s != [] {
      MergeNeighbours(s[1..]);
    }
  }

  /** Both together determine the result: equal expansions without equal neighbours are the same
      calls with the same counts. */
  lemma {:induction false} FoldingUnique(a: seq<Call>, b: seq<Call>)
    requires Expand(a) == Expand(b) && NoEqualNeighbours(a) && NoEqualNeighbours(b)
    ensures |a| == |b|
    ensures forall i :: 0 <= i < |a| ==> a[i].sig == b[i].sig && a[i].repeated == b[i].repeated
  {
    if a == [] || b == [] {
      assert a != [] ==> |Expand(a)| > 0;
      assert b != [] ==> |Expand(b)| > 0;
    } else {
      RunLength(a, b);
      RunLength(b, a);
      assert Expand(a[1..]) == Expand(a)[a[0].repeated + 1..];
      assert Expand(b[1..]) == Expand(b)[b[0].repeated + 1..];
      FoldingUnique(a[1..], b[1..]);
      assert a == [a[0]] + a[1..] && b == [b[0]] + b[1..];
    }
  }

  lemma {:induction false} RunLength(a: seq<Call>, b: seq<Call>)
    requires a != [] && b != [] && Expand(a) == Expand(b) && NoEqualNeighbours(b)
    ensures a[0].sig == b[0].sig && a[0].repeated <= b[0].repeated
  {
    assert Expand(a)[0] == a[0].sig && Expand(b)[0] == b[0].sig;
    assert forall k :: 0 <= k <= a[0].repeated ==> Expand(a)[k] == a[0].sig;
    if |b| == 1 {
      assert Expand(b[1..]) == [];
    } else {
      assert Expand(b)[b[0].repeated + 1] == Expand(b[1..])[0] == b[1].sig;
      assert !CompareCalls(b[0], b[1]);
    }
  }

  // ---- refusals

  function AllCalls(segs: seq<seq<Call>>): seq<Call> {
    if segs == [] then [] else segs[0] + AllCalls(segs[1..])
  }

  /** No call comes after an empty segment. */
  ghost predicate NoGap(segs: seq<seq<Call>>) {
    forall i, j :: 0 <= i < j < |segs| && segs[i] == [] ==> segs[j] == []
  }

  lemma {:induction false} AllEmpty(segs: seq<seq<Call>>)
    ensures AllCalls(segs) == [] <==> forall i :: 0 <= i < |segs| ==> segs[i] == []
  {
    if segs != [] {
      AllEmpty(segs[1..]);
      if AllCalls(segs) == [] {
        assert |segs[0]| + |AllCalls(segs[1..])| == 0;
        forall i | 0 <= i < |segs| ensures segs[i] == [] {
          if i > 0 { assert segs[i] == segs[1..][i - 1]; }
        }
      }
    }
  }

  lemma {:induction false} ExpandLength(s: seq<Call>)
    ensures |Expand(s)| >= |s|
  {
    if s != [] { ExpandLength(s[1..]); }
  }

  /** A pass without limit delivers every call of the log exactly when no call lies behind a place
      where a refusal is met instead of a call. */
  lemma {:induction false} PassLosslessIff(segs: seq<seq<Call>>)
    ensures Expand(Delivered(segs)) == Expand(AllCalls(segs)) <==> NoGap(segs)
  {
    if segs == [] {
    } else if segs[0] == [] {
      AllEmpty(segs);
      ExpandLength(AllCalls(segs));
    } else {
      PassLosslessIff(segs[1..]);
      MergeExpand(segs[0]);
      ExpandAppend(RunMerge(segs[0]), Delivered(segs[1..]));
      ExpandAppend(segs[0], AllCalls(segs[1..]));
      var x, y, z := Expand(segs[0]), Expand(Delivered(segs[1..])), Expand(AllCalls(segs[1..]));
      assert x + y == x + z <==> y == z by {
        if x + y == x + z { assert y == (x + y)[|x|..] == (x + z)[|x|..] == z; }
      }
      assert NoGap(segs) <==> NoGap(segs[1..]) by {
        if NoGap(segs[1..]) {
          forall i, j | 0 <= i < j < |segs| && segs[i] == [] ensures segs[j] == [] {
            assert segs[1..][i - 1] == [] && segs[j] == segs[1..][j - 1];
          }
        }
      }
    }
  }

  /** Without refusals a pass is the folded log. */
  lemma {:induction false} PassWithoutRefusals(evs: seq<Event>)
    requires forall i :: 0 <= i < |evs| ==> !evs[i].Refused?
    ensures |Segments(evs)| == 1
    ensures PassOf(evs) == RunMerge(Segments(evs)[0]) && AllCalls(Segments(evs)) == Segments(evs)[0]
  {
    if evs != [] {
      PassWithoutRefusals(evs[1..]);
    }
    var s := Segments(evs);
    assert s[1..] == [];
    assert Delivered(s[1..]) == [] && AllCalls(s[1..]) == [];
    assert RunMerge(s[0]) + [] == RunMerge(s[0]) && s[0] + [] == s[0];
  }

  // ---- where delivered calls come from

  /** The calls among the events, in order. */
  function Calls(evs: seq<Event>): seq<Call> {
    if evs == [] then [] else (if evs[0].Called? then [evs[0].call] else []) + Calls(evs[1..])
  }

  /** Cutting the log at its refusals loses no call. */
  lemma {:induction false} SegmentsCalls(evs: seq<Event>)
    ensures AllCalls(Segments(evs)) == Calls(evs)
  {
    if evs != [] {
      SegmentsCalls(evs[1..]);
      var rest := Segments(evs[1..]);
      assert Segments(evs)[1..] == if evs[0].Refused? then rest else rest[1..];
    }
  }

  lemma {:induction false} CallsMember(evs: seq<Event>, c: Call)
    ensures c in Calls(evs) <==> exists i :: 0 <= i < |evs| && evs[i] == Called(c)
  {
    if evs != [] {
      CallsMember(evs[1..], c);
      if i :| 0 <= i < |evs[1..]| && evs[1..][i] == Called(c) {
        assert evs[i + 1] == Called(c);
      }
      if i :| 0 <= i < |evs| && evs[i] == Called(c) {
        if i > 0 { assert evs[1..][i - 1] == Called(c); }
      }
    }
  }

  /** A run is delivered as its first call, but for the count. */
  lemma {:induction false} MergeOrigin(s: seq<Call>, c: Call) returns (d: Call)
    requires c in RunMerge(s)
    ensures d in s && d.sig == c.sig && d.context == c.context && d.repeated <= c.repeated
  {
    var m := RunMerge(s[1..]);
    if m != [] && CompareCalls(s[0], m[0]) {
      if c == RunMerge(s)[0] {
        d := s[0];
      } else {
        d := MergeOrigin(s[1..], c);
      }
    } else if c == s[0] {
      d := c;
    } else {
      d := MergeOrigin(s[1..], c);
    }
  }

  lemma {:induction false} DeliveredOrigin(segs: seq<seq<Call>>, c: Call) returns (d: Call)
    requires c in Delivered(segs)
    ensures d in AllCalls(segs) && d.sig == c.sig && d.context == c.context && d.repeated <= c.repeated
  {
    if c in RunMerge(segs[0]) {
      d := MergeOrigin(segs[0], c);
    } else {
      d := DeliveredOrigin(segs[1..], c);
    }
  }
}
