/** The order in which the sort compares packets: Python's lexicographic order on the named tuples
    Keyed(key = (flow, ts, ctr), obj = Packet(raw, ts)). */
module FlowOrder {
  import opened Capture

  datatype Key = Key(flow: FlowTuple, ts: real, ctr: nat)
  datatype Keyed = Keyed(key: Key, obj: Packet)

  predicate StrLe(a: string, b: string) {
    a == [] || (b != [] && (a[0] < b[0] || (a[0] == b[0] && StrLe(a[1..], b[1..]))))
  }

  predicate BytesLe(a: Bytes, b: Bytes) {
    a == [] || (b != [] && (a[0] < b[0] || (a[0] == b[0] && BytesLe(a[1..], b[1..]))))
  }

  /** Tuple comparison: the first unequal component decides. */
  predicate FlowLe(a: FlowTuple, b: FlowTuple) {
    if a.sip != b.sip then StrLe(a.sip, b.sip)
    else if a.dip != b.dip then StrLe(a.dip, b.dip)
    else if a.sport != b.sport then a.sport < b.sport
    else if a.dport != b.dport then a.dport < b.dport
    else a.proto <= b.proto
  }

  predicate KeyedLe(a: Keyed, b: Keyed) {
    if a.key.flow != b.key.flow then FlowLe(a.key.flow, b.key.flow)
    else if a.key.ts != b.key.ts then a.key.ts < b.key.ts
    else if a.key.ctr != b.key.ctr then a.key.ctr < b.key.ctr
    else if a.obj.raw != b.obj.raw then BytesLe(a.obj.raw, b.obj.raw)
    else a.obj.ts <= b.obj.ts
  }

  /** The part of the order a reader of the sorted capture relies on: flow first, then time. */
  predicate FlowTimeLe(a: Keyed, b: Keyed) {
    if a.key.flow != b.key.flow then FlowLe(a.key.flow, b.key.flow) else a.key.ts <= b.key.ts
  }

  lemma {:induction false} StrLeTotal(a: string, b: string)
    ensures StrLe(a, b) || StrLe(b, a)
  {
    if a != [] && b != [] { StrLeTotal(a[1..], b[1..]); }
  }

  lemma {:induction false} StrLeAntisymmetric(a: string, b: string)
    requires StrLe(a, b) && StrLe(b, a)
    ensures a == b
  {
    if a != [] {
      StrLeAntisymmetric(a[1..], b[1..]);
      assert a == [a[0]] + a[1..] == [b[0]] + b[1..] == b;
    }
  }

  lemma {:induction false} StrLeTransitive(a: string, b: string, c: string)
    requires StrLe(a, b) && StrLe(b, c)
    ensures StrLe(a, c)
  {
    if a != [] && a[0] == b[0] == c[0] {
      StrLeTransitive(a[1..], b[1..], c[1..]);
    }
  }

  lemma {:induction false} FlowLeTotal(a: FlowTuple, b: FlowTuple)
    ensures FlowLe(a, b) || FlowLe(b, a)
  {
    StrLeTotal(a.sip, b.sip);
    StrLeTotal(a.dip, b.dip);
  }

  lemma {:induction false} FlowLeAntisymmetric(a: FlowTuple, b: FlowTuple)
    requires FlowLe(a, b) && FlowLe(b, a)
    ensures a == b
  {
    if a.sip != b.sip { StrLeAntisymmetric(a.sip, b.sip); }
    else if a.dip != b.dip { StrLeAntisymmetric(a.dip, b.dip); }
  }

  lemma {:induction false} FlowLeTransitive(a: FlowTuple, b: FlowTuple, c: FlowTuple)
    requires FlowLe(a, b) && FlowLe(b, c)
    ensures FlowLe(a, c)
  {
    if a.sip != b.sip && b.sip != c.sip {
      StrLeTransitive(a.sip, b.sip, c.sip);
      if a.sip == c.sip { StrLeAntisymmetric(a.sip, b.sip); }
    } else if a.sip == b.sip == c.sip && a.dip != b.dip && b.dip != c.dip {
      StrLeTransitive(a.dip, b.dip, c.dip);
      if a.dip == c.dip { StrLeAntisymmetric(a.dip, b.dip); }
    }
  }

  lemma {:induction false} FlowTimeLeTransitive(a: Keyed, b: Keyed, c: Keyed)
    requires FlowTimeLe(a, b) && FlowTimeLe(b, c)
    ensures FlowTimeLe(a, c)
  {
    if a.key.flow != b.key.flow && b.key.flow != c.key.flow {
      FlowLeTransitive(a.key.flow, b.key.flow, c.key.flow);
      if a.key.flow == c.key.flow { FlowLeAntisymmetric(a.key.flow, b.key.flow); }
    }
  }

  /** The full comparison refines flow-then-time, whichever way it goes. */
  lemma {:induction false} KeyedLeRefines(a: Keyed, b: Keyed)
    ensures KeyedLe(a, b) ==> FlowTimeLe(a, b)
    ensures !KeyedLe(a, b) ==> FlowTimeLe(b, a)
  {
    FlowLeTotal(a.key.flow, b.key.flow);
  }

  /** Sorted by flow, then time. */
  ghost predicate SortedFT(s: seq<Keyed>) {
    forall i, j :: 0 <= i < j < |s| ==> FlowTimeLe(s[i], s[j])
  }

  // ---- the order in plain terms

  /** Strings compare by their first different character; a prefix comes before what it begins. */
  lemma {:induction false} StrLeIff(a: string, b: string)
    ensures StrLe(a, b) <==> a <= b || exists i: nat :: FirstDifferent(a, b, i) && a[i] < b[i]
  {
    if a != [] && b != [] && a[0] == b[0] {
      StrLeIff(a[1..], b[1..]);
      assert a == [a[0]] + a[1..] && b == [b[0]] + b[1..];
      if i: nat :| FirstDifferent(a[1..], b[1..], i) && a[1..][i] < b[1..][i] {
        DifferentLater(a, b, i);
        assert a[i + 1] < b[i + 1];
      }
      if i: nat :| FirstDifferent(a, b, i) && a[i] < b[i] {
        assert a[..i] == [a[0]] + a[1..][..i - 1] && b[..i] == [b[0]] + b[1..][..i - 1];
        assert a[1..][..i - 1] == a[..i][1..] && b[1..][..i - 1] == b[..i][1..];
        assert FirstDifferent(a[1..], b[1..], i - 1);
      }
    } else if a != [] && b != [] {
      if a[0] < b[0] {
        assert FirstDifferent(a, b, 0);
      }
      if i: nat :| FirstDifferent(a, b, i) && a[i] < b[i] {
        SameBefore(a, b, i);
      }
    }
  }

  lemma {:induction false} SameBefore(a: string, b: string, i: nat)
    requires FirstDifferent(a, b, i)
    ensures forall k :: 0 <= k < i ==> a[k] == b[k]
  {
    forall k | 0 <= k < i ensures a[k] == b[k] {
      assert a[k] == a[..i][k] == b[..i][k] == b[k];
    }
  }

  lemma {:induction false} DifferentLater(a: string, b: string, i: nat)
    requires a != [] && b != [] && a[0] == b[0] && FirstDifferent(a[1..], b[1..], i)
    ensures FirstDifferent(a, b, i + 1)
  {
    assert a[..i + 1] == [a[0]] + a[1..][..i] && b[..i + 1] == [b[0]] + b[1..][..i];
  }

  predicate FirstDifferent(a: string, b: string, i: nat) {
    i < |a| && i < |b| && a[..i] == b[..i] && a[i] != b[i]
  }

  predicate StrLt(a: string, b: string) {
    a != b && StrLe(a, b)
  }

  /** Addresses first, source before destination, then the ports in the same order, the protocol last. */
  predicate FlowLt(a: FlowTuple, b: FlowTuple) {
    || StrLt(a.sip, b.sip)
    || (a.sip == b.sip && StrLt(a.dip, b.dip))
    || (a.sip == b.sip && a.dip == b.dip && a.sport < b.sport)
    || (a.sip == b.sip && a.dip == b.dip && a.sport == b.sport && a.dport < b.dport)
    || (a.sip == b.sip && a.dip == b.dip && a.sport == b.sport && a.dport == b.dport && a.proto < b.proto)
  }

  /** Packets compare by flow, time and counter; what is left decides only between keys that are equal. */
  lemma {:induction false} KeyedLeIff(a: Keyed, b: Keyed)
    ensures FlowLe(a.key.flow, b.key.flow) <==> a.key.flow == b.key.flow || FlowLt(a.key.flow, b.key.flow)
    ensures a.key != b.key ==>
      (KeyedLe(a, b) <==>
        || FlowLt(a.key.flow, b.key.flow)
        || (a.key.flow == b.key.flow && a.key.ts < b.key.ts)
        || (a.key.flow == b.key.flow && a.key.ts == b.key.ts && a.key.ctr < b.key.ctr))
    ensures a.key == b.key && a.obj.raw == b.obj.raw ==> (KeyedLe(a, b) <==> a.obj.ts <= b.obj.ts)
    ensures a.key == b.key && a.obj.raw < b.obj.raw ==> KeyedLe(a, b) && !KeyedLe(b, a)
  {
    if a.obj.raw < b.obj.raw {
      PrefixBefore(a.obj.raw, b.obj.raw);
    }
  }

  lemma {:induction false} PrefixBefore(a: Bytes, b: Bytes)
    requires a < b
    ensures BytesLe(a, b) && !BytesLe(b, a)
  {
    if a != [] {
      assert a[0] == b[0] && a[1..] < b[1..];
      PrefixBefore(a[1..], b[1..]);
    }
  }

  // ---- the full order is total

  lemma {:induction false} BytesLeOrder(a: Bytes, b: Bytes, c: Bytes)
    ensures BytesLe(a, b) || BytesLe(b, a)
    ensures BytesLe(a, b) && BytesLe(b, a) ==> a == b
    ensures BytesLe(a, b) && BytesLe(b, c) ==> BytesLe(a, c)
    decreases |a| + |b| + |c|
  {
    if a != [] && b != [] {
      BytesLeOrder(a[1..], b[1..], if c == [] then [] else c[1..]);
      assert a == [a[0]] + a[1..] && b == [b[0]] + b[1..];
    }
  }

  lemma {:induction false} KeyedLeTotal(a: Keyed, b: Keyed)
    ensures KeyedLe(a, b) || KeyedLe(b, a)
  {
    FlowLeTotal(a.key.flow, b.key.flow);
    BytesLeOrder(a.obj.raw, b.obj.raw, []);
  }

  lemma {:induction false} KeyedLeTransitive(a: Keyed, b: Keyed, c: Keyed)
    requires KeyedLe(a, b) && KeyedLe(b, c)
    ensures KeyedLe(a, c)
  {
    if a.key.flow != b.key.flow || b.key.flow != c.key.flow {
      KeyedLeRefines(a, b);
      KeyedLeRefines(b, c);
      FlowTimeLeTransitive(a, b, c);
      if a.key.flow == c.key.flow {
        FlowLeAntisymmetric(a.key.flow, b.key.flow);
      }
    } else if a.key == b.key == c.key {
      BytesLeOrder(a.obj.raw, b.obj.raw, c.obj.raw);
      BytesLeOrder(c.obj.raw, b.obj.raw, a.obj.raw);
      BytesLeOrder(a.obj.raw, c.obj.raw, b.obj.raw);
    }
  }
}
