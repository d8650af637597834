/** Which queued tasks a worker may take: the tag combinations of its machines (load_vm_tags) and
    the filter built from them in submit_tasks. */
module VmTags {
  import opened Strings

  predicate CommaFree(t: string) {
    ',' !in t
  }

  // ---- strings

  /** ",".join(ts) */
  function Join(ts: seq<string>): string {
    if ts == [] then "" else if |ts| == 1 then ts[0] else ts[0] + "," + Join(ts[1..])
  }

  /** s.split(",") */
  function Split(s: string): (r: seq<string>)
    ensures |r| >= 1
  {
    if s == [] then [""]
    else if s[0] == ',' then [""] + Split(s[1..])
    else
      var r := Split(s[1..]);
      [[s[0]] + r[0]] + r[1..]
  }

  /** Every tag followed by a comma. */
  function Terminated(ts: seq<string>): string {
    if ts == [] then "" else ts[0] + "," + Terminated(ts[1..])
  }

  /** The tags column of a task: a comma after the last tag, and no x86 beside x64. */
  function TaskTags(ts: seq<string>): string {
    var tags := if Join(ts) == "" then "" else Join(ts) + ",";
    if Contains(tags, "x86") && Contains(tags, "x64") then Remove(tags, "x86,") else tags
  }

  /** SQL LIKE: % stands for any text, _ for any character. */
  predicate Like(pattern: string, s: string)
    decreases |pattern| + |s|
  {
    if pattern == [] then s == []
    else if pattern[0] == '%' then Like(pattern[1..], s) || (s != [] && Like(pattern, s[1..]))
    else s != [] && (pattern[0] == '_' || pattern[0] == s[0]) && Like(pattern[1..], s[1..])
  }

  /** "%," * n */
  function Commas(n: nat): string {
    if n == 0 then "" else "%," + Commas(n - 1)
  }

  // ---- combinations

  function PutFirst(t: string, cs: seq<seq<string>>): (r: seq<seq<string>>)
    ensures |r| == |cs| && forall i :: 0 <= i < |cs| ==> r[i] == [t] + cs[i]
  {
    if cs == [] then [] else [[t] + cs[0]] + PutFirst(t, cs[1..])
  }

  /** itertools.combinations */
  function Combinations(tags: seq<string>, i: nat): seq<seq<string>> {
    if i == 0 then [[]]
    else if tags == [] then []
    else PutFirst(tags[0], Combinations(tags[1..], i - 1)) + Combinations(tags[1..], i)
  }

  /** A combination of at least one and fewer than `upTo` of a machine's tags, as text. */
  ghost predicate FromMachine(m: seq<string>, upTo: int, tg: string) {
    exists i: nat :: 1 <= i < upTo && FromList(Combinations(m, i), tg)
  }

  ghost predicate FromList(cs: seq<seq<string>>, tg: string) {
    exists c :: c in cs && tg == Join(c)
  }

  /** What a node offers: any combination of the tags of one of its machines. */
  ghost predicate Offered(machines: seq<seq<string>>, tg: string) {
    exists m :: m in machines && FromMachine(m, |m| + 1, tg)
  }

  method JoinAll(cs: seq<seq<string>>) returns (r: set<string>)
    ensures forall tg :: tg in r <==> FromList(cs, tg)
  {
    r := {};
    for n := 0 to |cs|
      invariant forall tg :: tg in r <==> FromList(cs[..n], tg)
    {
      forall tg ensures FromList(cs[..n + 1], tg) <==> FromList(cs[..n], tg) || tg == Join(cs[n]) {
        FromListSnoc(cs[..n], cs[n], tg);
      }
      assert cs[..n + 1] == cs[..n] + [cs[n]];
      r := r + {Join(cs[n])};
    }
    assert cs[..|cs|] == cs;
  }

  lemma {:induction false} FromListSnoc(cs: seq<seq<string>>, c: seq<string>, tg: string)
    ensures FromList(cs + [c], tg) <==> FromList(cs, tg) || tg == Join(c)
  {}

  method MachineTags(m: seq<string>) returns (r: set<string>)
    ensures forall tg :: tg in r <==> FromMachine(m, |m| + 1, tg)
  {
    r := {};
    for i := 1 to |m| + 1
      invariant forall tg :: tg in r <==> FromMachine(m, i, tg)
    {
      var some := JoinAll(Combinations(m, i));
      forall tg ensures FromMachine(m, i + 1, tg) <==> FromMachine(m, i, tg) || FromList(Combinations(m, i), tg) {
        FromMachineNext(m, i, tg);
      }
      r := r + some;
    }
  }

  lemma {:induction false} FromMachineNext(m: seq<string>, i: nat, tg: string)
    requires 1 <= i
    ensures FromMachine(m, i + 1, tg) <==> FromMachine(m, i, tg) || FromList(Combinations(m, i), tg)
  {
    hide FromList, Combinations;
  }

  /** The table of a node's tags holds exactly the combinations its machines offer. */
  method LoadVmTags(machines: seq<seq<string>>) returns (ta: set<string>)
    ensures forall tg :: tg in ta <==> Offered(machines, tg)
  {
    ta := {};
    for k := 0 to |machines|
      invariant forall tg :: tg in ta <==> Offered(machines[..k], tg)
    {
      var one := MachineTags(machines[k]);
      forall tg ensures Offered(machines[..k + 1], tg) <==>
        Offered(machines[..k], tg) || FromMachine(machines[k], |machines[k]| + 1, tg) {
        OfferedSnoc(machines[..k], machines[k], tg);
        assert machines[..k + 1] == machines[..k] + [machines[k]];
      }
      ta := ta + one;
    }
    assert machines[..|machines|] == machines;
  }

  lemma {:induction false} OfferedSnoc(machines: seq<seq<string>>, m: seq<string>, tg: string)
    ensures Offered(machines + [m], tg) <==> Offered(machines, tg) || FromMachine(m, |m| + 1, tg)
  {
    hide FromMachine;
    assert m in machines + [m];
    if Offered(machines, tg) {
      var d :| d in machines && FromMachine(d, |d| + 1, tg);
      assert d in machines + [m];
    }
  }

  // ---- the filter

  /** The condition built from one entry of a server's tags. */
  predicate Selects(tg: string, tags: string) {
    var parts := Split(tg);
    if |parts| == 1 then tags == tg + ","
    else Like(Commas(|parts|), tags) && forall i :: 0 <= i < |parts| ==> Like("%" + parts[i] + ",%", tags)
  }

  ghost predicate Eligible(machines: seq<seq<string>>, tags: string) {
    tags == "" || exists tg :: Offered(machines, tg) && Selects(tg, tags)
  }

  // ---- LIKE

  lemma {:induction false} LikeSkip(x: string, rest: string, s: string)
    requires Like(rest, s)
    ensures Like("%" + rest, x + s)
    decreases |x|
  {
    var p := "%" + rest;
    assert p[1..] == rest;
    if x == [] {
      assert x + s == s;
    } else {
      LikeSkip(x[1..], rest, s);
      assert (x + s)[1..] == x[1..] + s;
    }
  }

  /** Text used as a pattern matches itself, wildcard characters included. */
  lemma {:induction false} LikeSelf(t: string, rest: string, s: string)
    requires Like(rest, s)
    ensures Like(t + rest, t + s)
  {
    if t == [] {
      assert t + rest == rest && t + s == s;
    } else {
      LikeSelf(t[1..], rest, s);
      assert (t + rest)[1..] == t[1..] + rest && (t + s)[1..] == t[1..] + s;
      if t[0] == '%' {
        assert Like(t + rest, (t + s)[1..]);
      }
    }
  }

  lemma {:induction false} LikeEnd(s: string)
    ensures Like("%", s)
  {
    assert "%"[1..] == "";
    LikeSkip(s, "", "");
    assert "%" + "" == "%" && s + "" == s;
  }

  lemma {:induction false} LikeCommas(ts: seq<string>)
    ensures Like(Commas(|ts|), Terminated(ts))
  {
    if ts != [] {
      LikeCommas(ts[1..]);
      var rest, s := Commas(|ts| - 1), Terminated(ts[1..]);
      LikeSelf(",", rest, s);
      LikeSkip(ts[0], "," + rest, "," + s);
      assert "%" + ("," + rest) == Commas(|ts|);
      assert ts[0] + ("," + s) == Terminated(ts);
    }
  }

  lemma {:induction false} TerminatedAt(ts: seq<string>, i: nat) returns (a: string, b: string)
    requires i < |ts|
    ensures Terminated(ts) == a + (ts[i] + ("," + b))
  {
    if i == 0 {
      a, b := "", Terminated(ts[1..]);
    } else {
      var a', b' := TerminatedAt(ts[1..], i - 1);
      a, b := ts[0] + "," + a', b';
    }
  }

  lemma {:induction false} LikeTag(ts: seq<string>, i: nat)
    requires i < |ts|
    ensures Like("%" + ts[i] + ",%", Terminated(ts))
  {
    var a, b := TerminatedAt(ts, i);
    LikeEnd(b);
    LikeSelf(",", "%", b);
    LikeSelf(ts[i], "," + "%", "," + b);
    LikeSkip(a, ts[i] + ("," + "%"), ts[i] + ("," + b));
    assert "%" + (ts[i] + ("," + "%")) == "%" + ts[i] + ",%";
  }

  /** A % stands for any text, whatever it is followed by. */
  lemma {:induction false} PercentIff(rest: string, s: string)
    ensures Like("%" + rest, s) <==> exists k :: 0 <= k <= |s| && Like(rest, s[k..])
    decreases |s|
  {
    var p := "%" + rest;
    assert p[0] == '%' && p[1..] == rest && s[0..] == s;
    if s != [] {
      PercentIff(rest, s[1..]);
      if k :| 0 <= k <= |s[1..]| && Like(rest, s[1..][k..]) {
        assert s[k + 1..] == s[1..][k..];
      }
      if k :| 0 <= k <= |s| && Like(rest, s[k..]) {
        if k > 0 { assert s[1..][k - 1..] == s[k..]; }
      }
    }
  }

  /** Without one, a pattern stands for text of its own length: each _ for any character, each other
      character for itself. */
  lemma {:induction false} LikeByCharacter(p: string, s: string)
    requires '%' !in p
    ensures Like(p, s) <==> |p| == |s| && forall i :: 0 <= i < |p| ==> p[i] == '_' || p[i] == s[i]
    decreases |p|
  {
    if p != [] && s != [] {
      LikeByCharacter(p[1..], s[1..]);
      assert forall i :: 0 <= i < |p[1..]| ==> p[1..][i] == p[i + 1];
      assert |s| == |p| ==> forall i :: 0 <= i < |p[1..]| ==> s[1..][i] == s[i + 1];
      if |p| == |s| && (forall i :: 0 <= i < |p| ==> p[i] == '_' || p[i] == s[i]) {
        forall i | 0 <= i < |p[1..]| ensures p[1..][i] == '_' || p[1..][i] == s[1..][i] {
          assert p[i + 1] == '_' || p[i + 1] == s[i + 1];
        }
      }
      if Like(p, s) {
        forall i | 0 <= i < |p| ensures p[i] == '_' || p[i] == s[i] {
          if i > 0 { assert p[1..][i - 1] == '_' || p[1..][i - 1] == s[1..][i - 1]; }
        }
      }
    }
  }

  // ---- joining and splitting

  lemma {:induction false} JoinTerminated(ts: seq<string>)
    requires ts != []
    ensures Join(ts) + "," == Terminated(ts)
  {
    if |ts| > 1 {
      JoinTerminated(ts[1..]);
    } else {
      assert Terminated(ts[1..]) == "";
    }
  }

  lemma {:induction false} SplitOne(t: string, rest: string)
    requires CommaFree(t)
    ensures Split(t) == [t]
    ensures Split(t + "," + rest) == [t] + Split(rest)
  {
    var s := t + "," + rest;
    if t == [] {
      assert s[1..] == rest;
    } else {
      SplitOne(t[1..], rest);
      assert s[1..] == t[1..] + "," + rest;
      assert [t[0]] + t[1..] == t;
    }
  }

  lemma {:induction false} SplitJoin(c: seq<string>)
    requires c != [] && forall t :: t in c ==> CommaFree(t)
    ensures Split(Join(c)) == c
  {
    if |c| == 1 {
      SplitOne(c[0], "");
    } else {
      SplitJoin(c[1..]);
      SplitOne(c[0], Join(c[1..]));
      assert c == [c[0]] + c[1..];
    }
  }

  // ---- choosing the right combination

  /** The first occurrences in `m` of the tags wanted. */
  function Choose(m: seq<string>, want: set<string>): seq<string> {
    if m == [] then []
    else if m[0] in want then [m[0]] + Choose(m[1..], want - {m[0]})
    else Choose(m[1..], want)
  }

  lemma {:induction false} ChooseMembers(m: seq<string>, want: set<string>)
    requires forall t :: t in want ==> t in m
    ensures |Choose(m, want)| == |want|
    ensures forall t :: t in Choose(m, want) <==> t in want
  {
    if m != [] {
      var rest := if m[0] in want then want - {m[0]} else want;
      assert forall t :: t in rest ==> t in m[1..];
      ChooseMembers(m[1..], rest);
    } else {
      NoneWanted(want);
    }
  }

  lemma {:induction false} NoneWanted(want: set<string>)
    requires forall t :: t in want ==> t in []
    ensures want == {}
  {}

  lemma {:induction false} ChooseCombination(m: seq<string>, want: set<string>)
    requires forall t :: t in want ==> t in m
    ensures IsCombination(m, |want|, Choose(m, want))
    decreases |m|
  {
    hide IsCombination;
    if m == [] {
      NoneWanted(want);
      NoneChosen(m);
    } else {
      var rest := if m[0] in want then want - {m[0]} else want;
      assert forall t :: t in rest ==> t in m[1..];
      ChooseCombination(m[1..], rest);
      if want == {} {
        ChooseMembers(m, want);
        NoneChosen(m);
      } else {
        CombinationMember(m, |want|, Choose(m, want));
        assert m[0] in want ==> Choose(m, want)[1..] == Choose(m[1..], rest);
      }
    }
  }

  lemma {:induction false} ChooseSize(m: seq<string>, want: set<string>)
    requires forall t :: t in want ==> t in m
    ensures |want| <= |m|
    decreases |m|
  {
    if m != [] {
      var rest := want - {m[0]};
      assert forall t :: t in rest ==> t in m[1..];
      ChooseSize(m[1..], rest);
    } else {
      NoneWanted(want);
    }
  }

  ghost predicate Distinct(ts: seq<string>) {
    forall i, j :: 0 <= i < j < |ts| ==> ts[i] != ts[j]
  }

  lemma {:induction false} DistinctSize(ts: seq<string>)
    requires Distinct(ts)
    ensures |set t | t in ts| == |ts|
  {
    if ts != [] {
      DistinctSize(ts[1..]);
      assert (set t | t in ts) == (set t | t in ts[1..]) + {ts[0]};
    }
  }

  /** A task with distinct tags, all of them on one machine, passes that node's filter, in whatever
      order its tags are. */
  lemma {:induction false} TerminatedEligible(machines: seq<seq<string>>, m: seq<string>, ts: seq<string>)
    requires m in machines && Distinct(ts)
    requires forall t :: t in ts ==> CommaFree(t) && t in m
    ensures Eligible(machines, Terminated(ts))
  {
    if ts != [] {
      var want := set t | t in ts;
      ChooseMembers(m, want);
      ChooseCombination(m, want);
      ChooseSize(m, want);
      DistinctSize(ts);
      var c := Choose(m, want);
      var tg := Join(c);
      assert ts[0] in want;
      assert FromList(Combinations(m, |want|), tg);
      assert FromMachine(m, |m| + 1, tg);
      SplitJoin(c);
      if |c| == 1 {
        assert c[0] in c && ts[0] in ts;
        assert ts == [c[0]];
        assert Terminated(ts) == c[0] + "," + Terminated(ts[1..]) == tg + ",";
      } else {
        LikeCommas(ts);
        forall i | 0 <= i < |c| ensures Like("%" + c[i] + ",%", Terminated(ts)) {
          assert c[i] in c;
          var j :| 0 <= j < |ts| && ts[j] == c[i];
          LikeTag(ts, j);
        }
      }
      assert Selects(tg, Terminated(ts));
    }
  }

  // ---- the x86 clean-up

  predicate EndsWith(u: string, t: string) {
    |t| <= |u| && u[|u| - |t|..] == t
  }

  predicate EndsX86(t: string) {
    EndsWith(t, "x86")
  }

  lemma {:induction false} EndsX86Step(u: string)
    requires u != []
    ensures EndsX86(u) <==> u == "x86" || EndsX86(u[1..])
    ensures EndsX86(u) && u != "x86" ==> |u| >= 4
  {}

  lemma {:induction false} StartsX86(u: string, rest: string)
    requires CommaFree(u)
    ensures "x86," <= u + "," + rest <==> u == "x86"
  {
    var s := u + "," + rest;
    assert s[|u|] == ',';
    assert forall i :: 0 <= i < |u| ==> s[i] == u[i] != ',';
    if "x86," <= s {
      assert s[3] == ',' && s[0] == 'x' && s[1] == '8' && s[2] == '6';
      assert |u| == 3;
      assert u == [u[0], u[1], u[2]] == "x86";
    }
  }

  /** What becomes of one tag: a tag ending in x86 loses the ending and the comma after it, so what
      is left of it runs into the next tag. */
  function CutTag(u: string): string {
    if EndsX86(u) then u[..|u| - 3] else u + ","
  }

  function Cleaned(ts: seq<string>): string {
    if ts == [] then "" else CutTag(ts[0]) + Cleaned(ts[1..])
  }

  /** A tag is cut like its tail, but for the tag x86 itself and an empty one. */
  lemma {:induction false} CutStep(u: string)
    requires u != "" && u != "x86"
    ensures CutTag(u) == [u[0]] + CutTag(u[1..])
  {
    EndsX86Step(u);
    hide EndsX86;
    if EndsX86(u) {
      DropEnd(u);
    } else {
      assert [u[0]] + (u[1..] + ",") == u + ",";
    }
  }

  lemma {:induction false} DropEnd(u: string)
    requires |u| >= 4
    ensures [u[0]] + u[1..][..|u[1..]| - 3] == u[..|u| - 3]
  {}

  lemma {:induction false} CutWhole()
    ensures CutTag("") == "," && CutTag("x86") == ""
  {
    assert "x86"[0..] == "x86";
  }

  lemma {:induction false} RemoveTag(u: string, rest: string)
    requires CommaFree(u)
    ensures Remove(u + "," + rest, "x86,") == CutTag(u) + Remove(rest, "x86,")
  {
    hide CutTag, Remove;
    var s := u + "," + rest;
    StartsX86(u, rest);
    RemoveUnfold(s, "x86,");
    CutWhole();
    if u == [] {
      assert s[1..] == rest;
    } else if u == "x86" {
      assert s[4..] == rest;
    } else {
      assert s[1..] == u[1..] + "," + rest;
      RemoveTag(u[1..], rest);
      CutStep(u);
      assert s[0] == u[0];
    }
  }

  lemma {:induction false} RemoveTags(ts: seq<string>)
    requires forall t :: t in ts ==> CommaFree(t)
    ensures Remove(Terminated(ts), "x86,") == Cleaned(ts)
  {
    if ts != [] {
      RemoveTags(ts[1..]);
      RemoveTag(ts[0], Terminated(ts[1..]));
    }
  }

  /** The tags without x86, as the clean-up means to leave them. */
  function WithoutX86(ts: seq<string>): seq<string> {
    if ts == [] then [] else (if ts[0] == "x86" then [] else [ts[0]]) + WithoutX86(ts[1..])
  }

  function Shortened(ts: seq<string>): nat {
    if ts == [] then 0 else (if EndsX86(ts[0]) && ts[0] != "x86" then 1 else 0) + Shortened(ts[1..])
  }

  lemma {:induction false} CleanedLength(ts: seq<string>)
    ensures |Cleaned(ts)| + 4 * Shortened(ts) == |Terminated(WithoutX86(ts))|
  {
    if ts != [] {
      CleanedLength(ts[1..]);
      var rest := WithoutX86(ts[1..]);
      assert ([ts[0]] + rest)[1..] == rest;
      assert [] + rest == rest;
    }
  }

  lemma {:induction false} ShortenedNone(ts: seq<string>)
    ensures Shortened(ts) == 0 <==> forall t :: t in ts && EndsX86(t) ==> t == "x86"
  {
    if ts != [] {
      ShortenedNone(ts[1..]);
      assert forall t :: t in ts <==> t == ts[0] || t in ts[1..];
      assert ts[0] in ts;
    }
  }

  lemma {:induction false} CleanedExact(ts: seq<string>)
    requires forall t :: t in ts && EndsX86(t) ==> t == "x86"
    ensures Cleaned(ts) == Terminated(WithoutX86(ts))
  {
    if ts != [] {
      CleanedExact(ts[1..]);
      var rest := WithoutX86(ts[1..]);
      assert ts[0] in ts;
      assert ([ts[0]] + rest)[1..] == rest;
      assert [] + rest == rest;
    }
  }

  /** The clean-up takes out the tag x86 and nothing else exactly when no other tag ends in x86. */
  lemma {:induction false} CleanUpExactIff(ts: seq<string>)
    requires forall t :: t in ts ==> CommaFree(t)
    ensures Remove(Terminated(ts), "x86,") == Terminated(WithoutX86(ts))
      <==> forall t :: t in ts && EndsX86(t) ==> t == "x86"
  {
    hide *;
    RemoveTags(ts);
    CleanedLength(ts);
    ShortenedNone(ts);
    if forall t :: t in ts && EndsX86(t) ==> t == "x86" {
      CleanedExact(ts);
    }
  }

  lemma {:induction false} WithoutX86Members(ts: seq<string>, t: string)
    ensures t in WithoutX86(ts) <==> t in ts && t != "x86"
  {
    if ts != [] {
      WithoutX86Members(ts[1..], t);
      assert t in ts <==> t == ts[0] || t in ts[1..];
    }
  }

  lemma {:induction false} WithoutX86Distinct(ts: seq<string>)
    requires Distinct(ts)
    ensures Distinct(WithoutX86(ts))
  {
    if ts != [] {
      WithoutX86Distinct(ts[1..]);
      WithoutX86Members(ts[1..], ts[0]);
      DistinctCons(ts[0], WithoutX86(ts[1..]));
      assert [] + WithoutX86(ts[1..]) == WithoutX86(ts[1..]);
    }
  }

  lemma {:induction false} DistinctCons(t: string, ts: seq<string>)
    requires Distinct(ts) && t !in ts
    ensures Distinct([t] + ts)
  {}

  // ---- the filter in short

  predicate IsCombination(m: seq<string>, i: nat, c: seq<string>) {
    c in Combinations(m, i)
  }

  lemma {:induction false} PutFirstMember(t: string, cs: seq<seq<string>>, c: seq<string>)
    ensures c in PutFirst(t, cs) <==> c != [] && c[0] == t && c[1..] in cs
  {
    var p := PutFirst(t, cs);
    if c in p {
      var i :| 0 <= i < |p| && p[i] == c;
      assert c[1..] == cs[i];
    }
    if c != [] && c[0] == t && c[1..] in cs {
      var i :| 0 <= i < |cs| && cs[i] == c[1..];
      assert p[i] == [t] + c[1..] == c;
    }
  }

  /** A combination starts with the machine's first tag, or is one of the others. */
  lemma {:induction false} CombinationMember(m: seq<string>, i: nat, c: seq<string>)
    requires i > 0 && m != []
    ensures IsCombination(m, i, c) <==>
      (c != [] && c[0] == m[0] && IsCombination(m[1..], i - 1, c[1..])) || IsCombination(m[1..], i, c)
  {
    PutFirstMember(m[0], Combinations(m[1..], i - 1), c);
    hide PutFirst;
  }

  lemma {:induction false} CombinationBase(m: seq<string>, i: nat, c: seq<string>)
    requires IsCombination(m, i, c)
    ensures i == 0 || m == [] ==> c == [] && i == 0
  {}

  lemma {:induction false} CombinationSize(m: seq<string>, i: nat, c: seq<string>)
    requires IsCombination(m, i, c)
    ensures |c| == i
    decreases |m|
  {
    hide IsCombination;
    CombinationBase(m, i, c);
    if i > 0 {
      CombinationMember(m, i, c);
      if IsCombination(m[1..], i, c) {
        CombinationSize(m[1..], i, c);
      } else {
        CombinationSize(m[1..], i - 1, c[1..]);
      }
    }
  }

  lemma {:induction false} CombinationWithin(m: seq<string>, i: nat, c: seq<string>, k: nat) returns (a: nat)
    requires IsCombination(m, i, c) && k < |c|
    ensures a < |m| && c[k] == m[a]
    decreases |m|
  {
    hide IsCombination;
    CombinationBase(m, i, c);
    CombinationMember(m, i, c);
    if IsCombination(m[1..], i, c) {
      a := CombinationWithin(m[1..], i, c, k);
      a := a + 1;
    } else if k == 0 {
      a := 0;
    } else {
      a := CombinationWithin(m[1..], i - 1, c[1..], k - 1);
      a := a + 1;
    }
  }

  /** Its first two tags stand in the machine's list in that order. */
  lemma {:induction false} CombinationPair(m: seq<string>, i: nat, c: seq<string>) returns (a: nat, b: nat)
    requires IsCombination(m, i, c) && i >= 2 && |c| == i
    ensures a < b < |m| && c[0] == m[a] && c[1] == m[b]
    decreases |m|
  {
    hide IsCombination;
    CombinationBase(m, i, c);
    CombinationMember(m, i, c);
    if IsCombination(m[1..], i, c) {
      a, b := CombinationPair(m[1..], i, c);
      a, b := a + 1, b + 1;
    } else {
      var k := CombinationWithin(m[1..], i - 1, c[1..], 0);
      a, b := 0, k + 1;
    }
  }

  lemma {:induction false} NoneChosen(m: seq<string>)
    ensures IsCombination(m, 0, [])
  {}

  lemma {:induction false} OneChosen(m: seq<string>, a: nat)
    requires a < |m|
    ensures IsCombination(m, 1, [m[a]])
    decreases |m|
  {
    hide IsCombination;
    CombinationMember(m, 1, [m[a]]);
    if a == 0 {
      NoneChosen(m[1..]);
      assert [m[0]][1..] == [];
    } else {
      OneChosen(m[1..], a - 1);
      assert m[1..][a - 1] == m[a];
    }
  }

  lemma {:induction false} TwoChosen(m: seq<string>, a: nat, b: nat)
    requires a < b < |m|
    ensures IsCombination(m, 2, [m[a], m[b]])
    decreases |m|
  {
    hide IsCombination;
    CombinationMember(m, 2, [m[a], m[b]]);
    if a == 0 {
      OneChosen(m[1..], b - 1);
      assert [m[0], m[b]][1..] == [m[b]] && m[1..][b - 1] == m[b];
    } else {
      TwoChosen(m[1..], a - 1, b - 1);
      assert m[1..][a - 1] == m[a] && m[1..][b - 1] == m[b];
    }
  }

  /** More commas ask for more. */
  lemma {:induction false} FewerCommas(n: nat, s: string)
    requires n >= 1 && Like(Commas(n + 1), s)
    ensures Like(Commas(n), s)
    decreases |s|
  {
    var p := Commas(n + 1);
    assert p[1..] == "," + Commas(n);
    if Like(p[1..], s) {
      assert p[1..][1..] == Commas(n);
      assert [s[0]] + s[1..] == s && Commas(n) == "%" + ("," + Commas(n - 1));
      LikeWider([s[0]], "," + Commas(n - 1), s[1..]);
    } else {
      FewerCommas(n, s[1..]);
      assert [s[0]] + s[1..] == s && Commas(n) == "%" + ("," + Commas(n - 1));
      LikeWider([s[0]], "," + Commas(n - 1), s[1..]);
    }
  }

  lemma {:induction false} LikeWider(x: string, rest: string, s: string)
    requires Like("%" + rest, s)
    ensures Like("%" + rest, x + s)
    decreases |x|
  {
    assert ("%" + rest)[0] == '%';
    if x == [] {
      assert x + s == s;
    } else {
      LikeWider(x[1..], rest, s);
      assert (x + s)[1..] == x[1..] + s;
    }
  }

  lemma {:induction false} TwoCommas(n: nat, s: string)
    requires n >= 2 && Like(Commas(n), s)
    ensures Like("%,%,", s)
    decreases n
  {
    if n > 2 {
      FewerCommas(n - 1, s);
      TwoCommas(n - 1, s);
    } else {
      assert Commas(2) == "%," + ("%," + "") == "%,%,";
    }
  }

  /** One machine lets a column through: one of its tags is the column, or two of its tags are in a
      column of at least two. */
  ghost predicate Fits(m: seq<string>, tags: string) {
    || (exists t :: t in m && tags == t + ",")
    || (Like("%,%,", tags) && exists a, b :: 0 <= a < b < |m| && Holds(m[a], tags) && Holds(m[b], tags))
  }

  predicate Holds(t: string, tags: string) {
    Like("%" + t + ",%", tags)
  }

  /** Of all combinations only those of one and of two tags matter: the filter built from every
      combination of every machine's tags lets a column through exactly when a machine fits it. */
  lemma {:induction false} EligibleIff(machines: seq<seq<string>>, tags: string)
    requires forall m, t :: m in machines && t in m ==> CommaFree(t)
    ensures Eligible(machines, tags) <==> tags == "" || exists m :: m in machines && Fits(m, tags)
  {
    if exists tg :: Offered(machines, tg) && Selects(tg, tags) {
      var tg :| Offered(machines, tg) && Selects(tg, tags);
      var m :| m in machines && FromMachine(m, |m| + 1, tg);
      SelectedFits(m, tg, tags);
    }
    if m :| m in machines && Fits(m, tags) {
      var tg := FitsSelected(m, tags);
      assert Offered(machines, tg);
    }
  }

  lemma {:induction false} SelectedFits(m: seq<string>, tg: string, tags: string)
    requires FromMachine(m, |m| + 1, tg) && Selects(tg, tags) && forall t :: t in m ==> CommaFree(t)
    ensures Fits(m, tags)
  {
    var i: nat :| 1 <= i < |m| + 1 && FromList(Combinations(m, i), tg);
    var c :| c in Combinations(m, i) && tg == Join(c);
    assert IsCombination(m, i, c);
    CombinationSize(m, i, c);
    forall t | t in c ensures t in m {
      var k :| 0 <= k < |c| && c[k] == t;
      var a := CombinationWithin(m, i, c, k);
    }
    hide IsCombination, Combinations, FromList;
    SplitJoin(c);
    if i == 1 {
      assert c == [c[0]] && c[0] in c;
      assert tg == c[0];
    } else {
      var a, b := CombinationPair(m, i, c);
      TwoCommas(i, tags);
      assert Holds(c[0], tags) && Holds(c[1], tags);
    }
  }

  lemma {:induction false} FitsSelected(m: seq<string>, tags: string) returns (tg: string)
    requires Fits(m, tags) && forall t :: t in m ==> CommaFree(t)
    ensures FromMachine(m, |m| + 1, tg) && Selects(tg, tags)
  {
    if t :| t in m && tags == t + "," {
      var a :| 0 <= a < |m| && m[a] == t;
      OneChosen(m, a);
      tg := t;
      assert Join([t]) == t;
      assert FromList(Combinations(m, 1), tg);
      SplitOne(t, "");
    } else {
      var a, b :| 0 <= a < b < |m| && Holds(m[a], tags) && Holds(m[b], tags);
      TwoChosen(m, a, b);
      var c := [m[a], m[b]];
      tg := Join(c);
      assert FromList(Combinations(m, 2), tg);
      SplitJoin(c);
      assert Commas(2) == "%," + ("%," + "") == "%,%,";
    }
  }

  /** The clean-up runs and cuts into a tag it does not mean. */
  ghost predicate Torn(ts: seq<string>) {
    && Contains(Terminated(ts), "x86") && Contains(Terminated(ts), "x64")
    && exists t :: t in ts && EndsX86(t) && t != "x86"
  }

  /** Tag eligibility is complete: a task whose distinct, comma-free tags all sit on one machine of
      the node passes the node's filter, in whatever order they come, unless the clean-up tears one.
      Tearing is not always fatal (TornYetEligible); EligibleIff tells for any column. */
  lemma {:induction false} TagsComplete(machines: seq<seq<string>>, m: seq<string>, ts: seq<string>)
    requires m in machines && Distinct(ts) && !Torn(ts)
    requires forall t :: t in ts ==> CommaFree(t) && t in m
    ensures Eligible(machines, TaskTags(ts))
  {
    hide Contains, Remove, Eligible, Distinct, EndsX86;
    if Join(ts) != "" {
      JoinTerminated(ts);
      CleanUpExactIff(ts);
      WithoutX86Distinct(ts);
      forall t | t in WithoutX86(ts) ensures t in ts { WithoutX86Members(ts, t); }
      TerminatedEligible(machines, m, ts);
      TerminatedEligible(machines, m, WithoutX86(ts));
    } else {
      NoTagsEligible(machines);
    }
  }

  lemma {:induction false} NoTagsEligible(machines: seq<seq<string>>)
    ensures Eligible(machines, "") && !Contains("", "x86")
  {}

  function CommasIn(s: string): nat {
    if s == [] then 0 else (if s[0] == ',' then 1 else 0) + CommasIn(s[1..])
  }

  lemma {:induction false} LikeCommasIn(n: nat, s: string)
    ensures Like(Commas(n), s) ==> n <= CommasIn(s)
    decreases n, |s|
  {
    if n > 0 && Like(Commas(n), s) {
      var p := Commas(n);
      assert p[0] == '%' && p[1..] == "," + Commas(n - 1);
      if Like(p[1..], s) {
        assert p[1..][1..] == Commas(n - 1);
        LikeCommasIn(n - 1, s[1..]);
      } else {
        LikeCommasIn(n, s[1..]);
      }
    }
  }

  // ---- the column of a task, and who takes it

  /** Among the tags are one with x86 in it and one with x64 in it. */
  ghost predicate Both(ts: seq<string>) {
    (exists t :: t in ts && Contains(t, "x86")) && exists t :: t in ts && Contains(t, "x64")
  }

  lemma {:induction false} ContainsTag(u: string, rest: string, x: string)
    requires CommaFree(x) && x != ""
    ensures Contains(u + "," + rest, x) <==> Contains(u, x) || Contains(rest, x)
  {
    var s := u + "," + rest;
    assert s[|u|] == ',';
    assert forall i :: 0 <= i < |u| ==> s[i] == u[i];
    if x <= s {
      assert x == s[..|x|] && s[|u|] !in x;
      assert |x| <= |u|;
      assert x <= u;
    }
    if x <= u {
      assert x <= s;
    }
    if u == [] {
      assert s[1..] == rest;
    } else {
      ContainsTag(u[1..], rest, x);
      assert s[1..] == u[1..] + "," + rest;
    }
  }

  lemma {:induction false} ContainsTerminated(ts: seq<string>, x: string)
    requires CommaFree(x) && x != ""
    ensures Contains(Terminated(ts), x) <==> exists t :: t in ts && Contains(t, x)
  {
    if ts != [] {
      ContainsTag(ts[0], Terminated(ts[1..]), x);
      ContainsTerminated(ts[1..], x);
      assert forall t :: t in ts <==> t == ts[0] || t in ts[1..];
      hide Contains;
    }
  }

  lemma {:induction false} JoinEmptyIff(ts: seq<string>)
    ensures Join(ts) == "" <==> ts == [] || ts == [""]
  {}

  /** What the column of a task is: empty without tags; each tag with its comma, as long as not both x86
      and x64 are in them; and if they are, without the endings x86 and the commas behind them, which
      leaves the tags but x86 exactly when no other tag ends in it. */
  lemma {:induction false} TaskTagsAre(ts: seq<string>)
    requires forall t :: t in ts ==> CommaFree(t)
    ensures ts == [] || ts == [""] ==> TaskTags(ts) == ""
    ensures ts != [] && ts != [""] && !Both(ts) ==> TaskTags(ts) == Terminated(ts)
    ensures Both(ts) ==> TaskTags(ts) == Cleaned(ts)
    ensures Both(ts) ==>
      (TaskTags(ts) == Terminated(WithoutX86(ts)) <==> forall t :: t in ts && EndsX86(t) ==> t == "x86")
    ensures Torn(ts) <==> Both(ts) && exists t :: t in ts && EndsX86(t) && t != "x86"
  {
    NoTagsEligible([]);
    JoinEmptyIff(ts);
    ContainsTerminated(ts, "x86");
    ContainsTerminated(ts, "x64");
    CleanUpExactIff(ts);
    RemoveTags(ts);
    assert !Contains("", "x86");
    hide Contains, Remove, Join, Terminated, WithoutX86, Cleaned, EndsX86;
    if ts != [] {
      JoinTerminated(ts);
    }
  }

  /** A tag without comma and without a wildcard of LIKE. */
  predicate Plain(t: string) {
    CommaFree(t) && '%' !in t && '_' !in t
  }

  lemma {:induction false} LikePrefix(t: string, s: string)
    requires '%' !in t && '_' !in t
    ensures Like(t + "%", s) <==> t <= s
    decreases |t|
  {
    var p := t + "%";
    if t == [] {
      assert p == "%";
      LikeEnd(s);
    } else {
      assert p[1..] == t[1..] + "%" && p[0] == t[0];
      if s != [] {
        LikePrefix(t[1..], s[1..]);
        assert t == [t[0]] + t[1..] && s == [s[0]] + s[1..];
      }
    }
  }

  lemma {:induction false} LikeContains(t: string, s: string)
    requires '%' !in t && '_' !in t
    ensures Like("%" + t + "%", s) <==> Contains(s, t)
  {
    var p := "%" + t + "%";
    assert p[0] == '%' && p[1..] == t + "%";
    LikePrefix(t, s);
    if s != [] {
      LikeContains(t, s[1..]);
    }
  }

  lemma {:induction false} StartsTag(u: string, rest: string, t: string)
    requires CommaFree(u) && CommaFree(t)
    ensures t + "," <= u + "," + rest <==> t == u
  {
    var s, x := u + "," + rest, t + ",";
    assert s[|u|] == ',' && x[|t|] == ',';
    assert forall i :: 0 <= i < |u| ==> s[i] == u[i] != ',';
    assert forall i :: 0 <= i < |t| ==> x[i] == t[i] != ',';
    if x <= s {
      assert s[|t|] == ',' && x == s[..|x|];
      assert |t| == |u|;
    }
  }

  lemma {:induction false} EndsTag(u: string, rest: string, t: string)
    requires CommaFree(u) && CommaFree(t)
    ensures Contains(u + "," + rest, t + ",") <==> EndsWith(u, t) || Contains(rest, t + ",")
  {
    var s, x := u + "," + rest, t + ",";
    assert s[|u|] == ',' && x[|t|] == ',';
    assert forall i :: 0 <= i < |u| ==> s[i] == u[i];
    assert forall i :: 0 <= i < |t| ==> x[i] == t[i];
    StartsTag(u, rest, t);
    if u == [] {
      assert s[1..] == rest;
    } else {
      EndsTag(u[1..], rest, t);
      assert s[1..] == u[1..] + "," + rest;
      assert |t| < |u| ==> u[|u| - |t|..] == u[1..][|u[1..]| - |t|..];
    }
  }

  /** One of the tags ends in `t`, or is `t`. */
  ghost predicate EndsOne(us: seq<string>, t: string) {
    exists u :: u in us && EndsWith(u, t)
  }

  lemma {:induction false} HoldsIff(us: seq<string>, t: string)
    requires Plain(t) && forall u :: u in us ==> CommaFree(u)
    ensures Holds(t, Terminated(us)) <==> EndsOne(us, t)
  {
    LikeContains(t + ",", Terminated(us));
    assert "%" + (t + ",") + "%" == "%" + t + ",%";
    EndsTerminated(us, t);
  }

  lemma {:induction false} EndsTerminated(us: seq<string>, t: string)
    requires CommaFree(t) && forall u :: u in us ==> CommaFree(u)
    ensures Contains(Terminated(us), t + ",") <==> EndsOne(us, t)
  {
    if us == [] {
      assert !Contains("", t + ",");
    } else {
      assert us[0] in us;
      EndsTag(us[0], Terminated(us[1..]), t);
      EndsTerminated(us[1..], t);
      assert forall u :: u in us <==> u == us[0] || u in us[1..];
      hide Contains, EndsWith;
    }
  }

  lemma {:induction false} CommasOfTag(u: string, rest: string)
    requires CommaFree(u)
    ensures CommasIn(u + "," + rest) == 1 + CommasIn(rest)
  {
    var s := u + "," + rest;
    if u == [] {
      assert s[1..] == rest;
    } else {
      CommasOfTag(u[1..], rest);
      assert s[1..] == u[1..] + "," + rest && s[0] == u[0];
    }
  }

  lemma {:induction false} CommasOfTags(us: seq<string>)
    requires forall u :: u in us ==> CommaFree(u)
    ensures CommasIn(Terminated(us)) == |us|
  {
    if us != [] {
      assert us[0] in us;
      CommasOfTag(us[0], Terminated(us[1..]));
      CommasOfTags(us[1..]);
    }
  }

  lemma {:induction false} TwoTags(us: seq<string>)
    requires forall u :: u in us ==> CommaFree(u)
    ensures Like("%,%,", Terminated(us)) <==> |us| >= 2
  {
    assert Commas(2) == "%," + ("%," + "") == "%,%,";
    hide Like, CommasIn, Commas, Terminated;
    LikeCommasIn(2, Terminated(us));
    CommasOfTags(us);
    if |us| >= 2 {
      LikeCommas(us);
      TwoCommas(|us|, Terminated(us));
    }
  }

  lemma {:induction false} OneTag(us: seq<string>, t: string)
    requires CommaFree(t) && forall u :: u in us ==> CommaFree(u)
    ensures Terminated(us) == t + "," <==> us == [t]
  {
    if Terminated(us) == t + "," {
      JoinTerminated(us);
      assert Join(us) == (t + ",")[..|t|] == t;
      SplitJoin(us);
      SplitOne(t, "");
    }
    OneTerminated(t);
  }

  lemma {:induction false} OneTerminated(t: string)
    ensures Terminated([t]) == t + ","
  {
    assert Terminated([t]) == t + "," + "";
  }

  /** The tags a task asks for: all of them, but without x86 if both x86 and x64 are in them. */
  ghost function Asked(ts: seq<string>): seq<string> {
    if Both(ts) then WithoutX86(ts) else ts
  }

  /** The machine has the one tag asked for, or two tags that tags asked for end in. */
  ghost predicate Serves(m: seq<string>, us: seq<string>) {
    || (|us| == 1 && us[0] in m)
    || (|us| >= 2 && exists a, b :: 0 <= a < b < |m| && EndsOne(us, m[a]) && EndsOne(us, m[b]))
  }

  lemma {:induction false} FitsIff(m: seq<string>, us: seq<string>)
    requires (forall t :: t in m ==> Plain(t)) && forall u :: u in us ==> CommaFree(u)
    ensures Fits(m, Terminated(us)) <==> Serves(m, us)
  {
    hide Holds, EndsOne, Terminated, Like;
    forall t | t in m
      ensures Holds(t, Terminated(us)) <==> EndsOne(us, t)
      ensures Terminated(us) == t + "," <==> us == [t]
    {
      HoldsIff(us, t);
      OneTag(us, t);
    }
    TwoTags(us);
    if |us| == 1 && us[0] in m {
      assert us == [us[0]];
    }
  }

  /** Main result. Unless the clean-up tears a tag, a node takes a task exactly when the task has no tags or
      one of the node's machines serves the tags it asks for. */
  lemma {:induction false} TakenIff(machines: seq<seq<string>>, ts: seq<string>)
    requires (forall m, t :: m in machines && t in m ==> Plain(t)) && forall t :: t in ts ==> CommaFree(t)
    requires !Torn(ts)
    ensures Eligible(machines, TaskTags(ts)) <==>
      ts == [] || ts == [""] || exists m :: m in machines && Serves(m, Asked(ts))
  {
    hide Eligible, TaskTags, Serves, Fits, Torn, Terminated, Cleaned, Contains, EndsX86;
    TaskTagsAre(ts);
    if ts == [] || ts == [""] {
      NoTagsEligible(machines);
    } else {
      AskedColumn(ts);
      var us := Asked(ts);
      EligibleIff(machines, Terminated(us));
      forall m | m in machines ensures Fits(m, Terminated(us)) <==> Serves(m, us) {
        FitsIff(m, us);
      }
    }
  }

  lemma {:induction false} AskedColumn(ts: seq<string>)
    requires (forall t :: t in ts ==> CommaFree(t)) && !Torn(ts) && ts != [] && ts != [""]
    ensures TaskTags(ts) == Terminated(Asked(ts)) != ""
    ensures forall u :: u in Asked(ts) ==> CommaFree(u)
  {
    hide TaskTags, Torn, Contains, EndsX86, Cleaned;
    TaskTagsAre(ts);
    forall t ensures t in WithoutX86(ts) <==> t in ts && t != "x86" {
      WithoutX86Members(ts, t);
    }
    if Both(ts) {
      var t :| t in ts && Contains(t, "x64");
      NotIn();
      assert t in WithoutX86(ts);
    }
  }

  lemma {:induction false} NotIn()
    ensures !Contains("x86", "x64")
  {
    assert !Contains("6", "x64") && !Contains("86", "x64");
    assert "x86"[1..] == "86" && "x86"[1] != "x64"[1];
  }

  /** A node whose machines have no tag that stands in the column does not take the task, whatever
      wildcards are about. */
  lemma {:induction false} StrangerRefused(machines: seq<seq<string>>, tags: string)
    requires forall m, t :: m in machines && t in m ==> CommaFree(t) && !Holds(t, tags)
    requires tags != ""
    ensures !Eligible(machines, tags)
  {
    hide Eligible, Holds;
    EligibleIff(machines, tags);
    forall m | m in machines ensures !Fits(m, tags) {
      forall t ensures tags == t + "," ==> Holds(t, tags) {
        HoldsOwn(t);
      }
      assert forall a :: 0 <= a < |m| ==> m[a] in m;
    }
  }

  lemma {:induction false} HoldsOwn(t: string)
    ensures Holds(t, t + ",")
  {
    hide Like;
    OneTerminated(t);
    LikeTag([t], 0);
  }

  /** Without that proviso it fails: a machine with exactly the tags winx86 and x64 does not get a
      task that asks for just these two, because the column reads "winx64,". */
  lemma {:induction false} TornTag()
    ensures TaskTags(["winx86", "x64"]) == "winx64,"
    ensures !Eligible([["winx86", "x64"]], TaskTags(["winx86", "x64"]))
  {
    TornColumn();
    if Eligible([["winx86", "x64"]], "winx64,") {
      var tg :| Offered([["winx86", "x64"]], tg) && Selects(tg, "winx64,");
      TornOffers(tg);
      TornSelects(tg);
    }
  }

  /** A torn column can still find a machine: of winx86, x64 and winx64 "winx64,winx64," is left, which
      holds both x64 and winx64. */
  lemma {:induction false} TornYetEligible()
    ensures var m := ["winx86", "x64", "winx64"];
      Torn(m) && TaskTags(m) == "winx64,winx64," && Eligible([m], TaskTags(m))
  {
    var m, tags := ["winx86", "x64", "winx64"], "winx64,winx64,";
    hide Torn, TaskTags, Like, Eligible;
    TornTwice();
    TwoLeft();
    LikeInside();
    assert Holds(m[1], tags) && Holds(m[2], tags);
    assert forall t :: t in m ==> t == m[0] || t == m[1] || t == m[2];
    assert CommaFree(m[0]) && CommaFree(m[1]) && CommaFree(m[2]);
    assert Fits(m, tags);
    EligibleIff([m], tags);
  }

  lemma {:induction false} TwoLeft()
    ensures Like("%,%,", "winx64,winx64,") && Like("%" + "winx64" + ",%", "winx64,winx64,")
  {
    var two := ["winx64", "winx64"];
    assert two[1..] == ["winx64"] && ["winx64"][1..] == [];
    assert Terminated(["winx64"]) == "winx64" + "," + "";
    assert "winx64" + "," + "winx64," == "winx64,winx64,";
    assert Terminated(two) == "winx64,winx64,";
    assert Commas(2) == "%," + ("%," + "") == "%,%,";
    hide Like, Terminated, Commas;
    LikeCommas(two);
    LikeTag(two, 0);
  }

  lemma {:induction false} LikeInside()
    ensures Like("%" + "x64" + ",%", "winx64,winx64,")
  {
    LikeEnd("winx64,");
    LikeSelf("x64,", "%", "winx64,");
    LikeSkip("win", "x64," + "%", "x64," + "winx64,");
    assert "%" + ("x64," + "%") == "%" + "x64" + ",%";
    assert "win" + ("x64," + "winx64,") == "winx64,winx64,";
  }

  lemma {:induction false} TornTwice()
    ensures var m := ["winx86", "x64", "winx64"]; Torn(m) && TaskTags(m) == "winx64,winx64,"
  {
    hide Contains, Remove, Cleaned, CutTag, Join, Terminated, EndsX86;
    var m := ["winx86", "x64", "winx64"];
    var column := "winx86,x64,winx64,";
    JoinThree();
    JoinTerminated(m);
    assert "winx86,x64,winx64" + "," == column;
    ContainsAt("win", "x86", ",x64,winx64,");
    ContainsAt("winx86,", "x64", ",winx64,");
    assert "win" + "x86" + ",x64,winx64," == column == "winx86," + "x64" + ",winx64,";
    RemoveTags(m);
    CleanedThree();
    EndsWin();
    assert m[0] in m;
  }

  lemma {:induction false} EndsWin()
    ensures EndsX86("winx86")
  {}

  lemma {:induction false} JoinThree()
    ensures Join(["winx86", "x64", "winx64"]) == "winx86,x64,winx64"
  {
    var m := ["winx86", "x64", "winx64"];
    assert m[1..] == ["x64", "winx64"] && ["x64", "winx64"][1..] == ["winx64"];
    assert Join(["x64", "winx64"]) == "x64" + "," + "winx64";
    assert "winx86" + "," + ("x64" + "," + "winx64") == "winx86,x64,winx64";
  }

  lemma {:induction false} CleanedThree()
    ensures Cleaned(["winx86", "x64", "winx64"]) == "winx64,winx64,"
  {
    var m := ["winx86", "x64", "winx64"];
    assert m[1..] == ["x64", "winx64"] && ["x64", "winx64"][1..] == ["winx64"] && ["winx64"][1..] == [];
    assert CutTag("winx86") == "win" && CutTag("x64") == "x64," && CutTag("winx64") == "winx64,";
    assert Cleaned(["winx64"]) == "winx64," + "";
    assert Cleaned(["x64", "winx64"]) == "x64," + "winx64,";
    assert "win" + ("x64," + "winx64,") == "winx64,winx64,";
  }

  lemma {:induction false} TornColumn()
    ensures TaskTags(["winx86", "x64"]) == "winx64,"
  {
    hide Contains, Remove, Cleaned, CutTag, Join, Terminated;
    var ts := ["winx86", "x64"];
    TornJoin();
    JoinTerminated(ts);
    assert "winx86,x64" + "," == "winx86,x64,";
    ContainsAt("win", "x86", ",x64,");
    ContainsAt("winx86,", "x64", ",");
    assert "win" + "x86" + ",x64," == "winx86,x64," == "winx86," + "x64" + ",";
    RemoveTags(ts);
    TornCleaned();
  }

  lemma {:induction false} TornJoin()
    ensures Join(["winx86", "x64"]) == "winx86,x64"
  {}

  lemma {:induction false} TornCleaned()
    ensures Cleaned(["winx86", "x64"]) == "winx64,"
  {}

  lemma {:induction false} TornOffers(tg: string)
    requires Offered([["winx86", "x64"]], tg)
    ensures tg in ["winx86", "x64", "winx86,x64"]
  {
    hide Join, Combinations;
    var m := ["winx86", "x64"];
    assert FromMachine(m, 3, tg);
    var i: nat :| 1 <= i < 3 && FromList(Combinations(m, i), tg);
    TornCombinations();
    TornJoin();
    JoinOne("winx86");
    JoinOne("x64");
  }

  lemma {:induction false} JoinOne(t: string)
    ensures Join([t]) == t
  {}

  lemma {:induction false} TornCombinations()
    ensures Combinations(["winx86", "x64"], 1) == [["winx86"], ["x64"]]
    ensures Combinations(["winx86", "x64"], 2) == [["winx86", "x64"]]
  {
    hide Combinations, PutFirst;
    LastTag("x64");
    CombinationsCons("winx86", ["x64"], 1);
    CombinationsCons("winx86", ["x64"], 2);
    PutOne("winx86", []);
    PutOne("winx86", ["x64"]);
    assert ["winx86"] + ["x64"] == ["winx86", "x64"] && ["winx86"] + [] == ["winx86"];
    assert [["winx86"]] + [["x64"]] == [["winx86"], ["x64"]];
  }

  lemma {:induction false} LastTag(t: string)
    ensures Combinations([t], 0) == [[]] && Combinations([t], 1) == [[t]] && Combinations([t], 2) == []
  {
    hide PutFirst;
    var none: seq<string> := [];
    CombinationsCons(t, none, 1);
    CombinationsCons(t, none, 2);
    PutOne(t, none);
    assert [t] + none == [t];
  }

  lemma {:induction false} PutOne(t: string, c: seq<string>)
    ensures PutFirst(t, [c]) == [[t] + c] && PutFirst(t, []) == []
  {}

  lemma {:induction false} CombinationsCons(t: string, rest: seq<string>, i: nat)
    requires i > 0
    ensures Combinations([t] + rest, i) == PutFirst(t, Combinations(rest, i - 1)) + Combinations(rest, i)
  {}

  lemma {:induction false} TornSelects(tg: string)
    requires tg in ["winx86", "x64", "winx86,x64"]
    ensures !Selects(tg, "winx64,")
  {
    hide Split, Like, CommasIn, Commas;
    SplitOne("winx86", "x64");
    SplitOne("x64", "");
    assert "winx86" + "," + "x64" == "winx86,x64";
    LikeCommasIn(2, "winx64,");
    OneComma();
    if tg == "winx86" {
      assert ("winx86" + ",")[4] == '8';
    } else if tg == "x64" {
      assert |"x64" + ","| == 4;
    } else {
      assert |Split(tg)| == 2;
    }
  }

  lemma {:induction false} OneComma()
    ensures CommasIn("winx64,") == 1
  {}
}
