/** What the messages of a process log are read as, which depends on the parser's table of
    explained indices, and when reading the log again gives the same. */
module LogTables {
  import opened Wrappers
  import opened CallRuns

  /** What the parser keeps under an index: the name of the call and of its arguments. */
  datatype ApiInfo = ApiInfo(name: string, argnames: seq<string>)

  /** `Note` is a message that is neither an explanation nor a call; `Broken` is one on which the
      parser gives up. */
  datatype Message =
    | Info(index: nat, info: ApiInfo)
    | Api(index: nat, args: seq<string>, status: bool, ret: string, repeated: nat, context: string)
    | Note
    | Broken

  function Zip(names: seq<string>, args: seq<string>): seq<(string, string)>
    requires |names| == |args|
  {
    if names == [] then [] else [(names[0], args[0])] + Zip(names[1..], args[1..])
  }

  /** The parser's table of explained indices. It is never cleared, not even by `reset`. */
  type Infomap = map<nat, ApiInfo>

  function Learn(m: Message, known: Infomap): Infomap {
    if m.Info? then known[m.index := m.info] else known
  }

  /** Names under which the monitor reports on the process itself; they give no call. */
  predicate Special(name: string) {
    name == "__process__" || name == "__thread__" || name == "__environ__"
  }

  /** A call whose index is unknown, or whose arguments do not fit its explanation, is skipped. */
  function Decode(m: Message, known: Infomap): Event {
    match m
    case Api(index, args, status, ret, repeated, context) =>
      if index in known && |known[index].argnames| == |args| && !Special(known[index].name)
      then Called(Call(Sig(known[index].name, status, Zip(known[index].argnames, args), ret), context, repeated))
      else Quiet
    case Broken => Refused
    case _ => Quiet
  }

  function Events(msgs: seq<Message>, known: Infomap): seq<Event> {
    if msgs == [] then []
    else [Decode(msgs[0], known)] + Events(msgs[1..], Learn(msgs[0], known))
  }

  // ---- the process message

  /** The value of a named argument; of equal names the last counts. */
  function Field(names: seq<string>, args: seq<string>, name: string): Option<string>
    requires |names| == |args|
  {
    if names == [] then None
    else
      var n := |names| - 1;
      if names[n] == name then Some(args[n]) else Field(names[..n], args[..n], name)
  }

  /** The message names the process by an id that is not zero. */
  predicate Identifies(m: Message, known: Infomap) {
    && m.Api? && m.index in known && |known[m.index].argnames| == |m.args| && known[m.index].name == "__process__"
    && var pid := Field(known[m.index].argnames, m.args, "ProcessIdentifier");
       pid.Some? && pid.value != "0"
  }

  /** The table once the process is identified; None if the log ends before. A message the parser
      gives up on does not stop this search. */
  function FirstKnown(msgs: seq<Message>, known: Infomap): Option<Infomap> {
    if msgs == [] then None
    else if Identifies(msgs[0], known) then Some(known)
    else FirstKnown(msgs[1..], Learn(msgs[0], known))
  }

  // ---- tables

  /** The table after reading messages. */
  function LearnAll(msgs: seq<Message>, known: Infomap): Infomap {
    if msgs == [] then known else LearnAll(msgs[1..], Learn(msgs[0], known))
  }

  ghost predicate Explains(msgs: seq<Message>, index: nat) {
    exists j :: 0 <= j < |msgs| && msgs[j].Info? && msgs[j].index == index
  }

  lemma {:induction false} ExplainsCons(m: Message, msgs: seq<Message>, index: nat)
    ensures Explains([m] + msgs, index) <==> (m.Info? && m.index == index) || Explains(msgs, index)
  {
    var all := [m] + msgs;
    if m.Info? && m.index == index {
      assert all[0] == m;
    }
    if Explains(msgs, index) {
      var j :| 0 <= j < |msgs| && msgs[j].Info? && msgs[j].index == index;
      assert all[j + 1] == msgs[j];
    }
  }

  lemma {:induction false} LearnAllSnoc(msgs: seq<Message>, m: Message, known: Infomap)
    ensures LearnAll(msgs + [m], known) == Learn(m, LearnAll(msgs, known))
    decreases |msgs|
  {
    if msgs == [] {
      assert msgs + [m] == [m] && [m][1..] == [];
    } else {
      assert (msgs + [m])[1..] == msgs[1..] + [m];
      LearnAllSnoc(msgs[1..], m, Learn(msgs[0], known));
    }
  }

  /** At an index that the messages explain the table forgets what it held; elsewhere it keeps it. */
  lemma {:induction false} LearnAllAt(msgs: seq<Message>, k1: Infomap, k2: Infomap, x: nat)
    ensures Explains(msgs, x) ==>
      x in LearnAll(msgs, k1) && x in LearnAll(msgs, k2) && LearnAll(msgs, k1)[x] == LearnAll(msgs, k2)[x]
    ensures !Explains(msgs, x) ==> (x in LearnAll(msgs, k1) <==> x in k1)
    ensures !Explains(msgs, x) && x in k1 ==> LearnAll(msgs, k1)[x] == k1[x]
    decreases |msgs|
  {
    if msgs != [] {
      var m, rest := msgs[0], msgs[1..];
      assert msgs == [m] + rest;
      ExplainsCons(m, rest, x);
      LearnAllAt(rest, Learn(m, k1), Learn(m, k2), x);
      LearnAllAt(rest, Learn(m, k2), Learn(m, k1), x);
    }
  }

  /** Reading the whole log a second time teaches nothing. */
  lemma {:induction false} LearnAllTwice(msgs: seq<Message>, known: Infomap)
    ensures LearnAll(msgs, LearnAll(msgs, known)) == LearnAll(msgs, known)
  {
    var once, twice := LearnAll(msgs, known), LearnAll(msgs, LearnAll(msgs, known));
    forall x ensures x in twice <==> x in once
      ensures x in once ==> twice[x] == once[x] {
      LearnAllAt(msgs, once, known, x);
      LearnAllAt(msgs, known, once, x);
    }
  }

  /** The table `later` holds what `known` did, but for what messages of the log have put there. */
  ghost predicate FromLog(msgs: seq<Message>, known: Infomap, later: Infomap) {
    forall x ::
      || ((x in later <==> x in known) && (x in known ==> later[x] == known[x]))
      || (x in later && ExplainedAs(msgs, x, later[x]))
  }

  ghost predicate ExplainedAs(msgs: seq<Message>, x: nat, info: ApiInfo) {
    exists j :: 0 <= j < |msgs| && msgs[j] == Info(x, info)
  }

  lemma {:induction false} FromLogLearn(msgs: seq<Message>, known: Infomap, later: Infomap, j: nat)
    requires FromLog(msgs, known, later) && j < |msgs|
    ensures FromLog(msgs, known, Learn(msgs[j], later))
  {
    if msgs[j].Info? {
      assert ExplainedAs(msgs, msgs[j].index, msgs[j].info);
    }
    hide ExplainedAs;
  }

  lemma {:induction false} FromLogTwice(msgs: seq<Message>, a: Infomap, b: Infomap, c: Infomap)
    requires FromLog(msgs, a, b) && FromLog(msgs, b, c)
    ensures FromLog(msgs, a, c)
  {
    hide ExplainedAs;
  }

  lemma {:induction false} FromLogAll(msgs: seq<Message>, n: nat, known: Infomap, later: Infomap)
    requires n <= |msgs| && FromLog(msgs, known, later)
    ensures FromLog(msgs, known, LearnAll(msgs[..n], later))
  {
    if n == 0 {
      assert msgs[..0] == [];
    } else {
      FromLogAll(msgs, n - 1, known, later);
      assert msgs[..n] == msgs[..n - 1] + [msgs[n - 1]];
      LearnAllSnoc(msgs[..n - 1], msgs[n - 1], later);
      FromLogLearn(msgs, known, LearnAll(msgs[..n - 1], later), n - 1);
    }
  }

  // ---- what an event says of its message

  /** When message `i` comes, the table explains the index so: by the last explanation before it, or,
      if there is none, as it did before the log. */
  ghost predicate InForce(msgs: seq<Message>, known: Infomap, i: nat, x: nat, info: ApiInfo) {
    && i <= |msgs|
    && ((exists j :: LastExplains(msgs, j, i, x, info))
        || ((forall l :: 0 <= l < i ==> !(msgs[l].Info? && msgs[l].index == x)) && x in known && known[x] == info))
  }

  ghost predicate LastExplains(msgs: seq<Message>, j: nat, i: nat, x: nat, info: ApiInfo) {
    j < i <= |msgs| && msgs[j] == Info(x, info) && forall l :: j < l < i ==> !(msgs[l].Info? && msgs[l].index == x)
  }

  lemma {:induction false} InForceIff(msgs: seq<Message>, known: Infomap, i: nat, x: nat, info: ApiInfo)
    requires i <= |msgs|
    ensures var table := LearnAll(msgs[..i], known);
      x in table && table[x] == info <==> InForce(msgs, known, i, x, info)
  {
    if i > 0 {
      var k: nat := i - 1;
      var before := LearnAll(msgs[..k], known);
      InForceIff(msgs, known, k, x, info);
      assert msgs[..i] == msgs[..k] + [msgs[k]];
      LearnAllSnoc(msgs[..k], msgs[k], known);
      hide LearnAll;
      if msgs[k].Info? && msgs[k].index == x {
        if msgs[k].info == info {
          assert LastExplains(msgs, k, i, x, info);
        }
        if j :| LastExplains(msgs, j, i, x, info) {
          assert j == k;
        }
      } else {
        if j :| LastExplains(msgs, j, k, x, info) {
          assert LastExplains(msgs, j, i, x, info);
        }
        if j :| LastExplains(msgs, j, i, x, info) {
          assert LastExplains(msgs, j, k, x, info);
        }
      }
    }
  }

  lemma {:induction false} EventAt(msgs: seq<Message>, known: Infomap, i: nat)
    requires i < |msgs|
    ensures |Events(msgs, known)| == |msgs|
    ensures Events(msgs, known)[i] == Decode(msgs[i], LearnAll(msgs[..i], known))
    decreases |msgs|
  {
    var rest := Events(msgs[1..], Learn(msgs[0], known));
    EventsLength(msgs, known);
    if i > 0 {
      EventAt(msgs[1..], Learn(msgs[0], known), i - 1);
      assert Events(msgs, known)[i] == rest[i - 1];
      assert msgs[..i][1..] == msgs[1..][..i - 1];
    }
  }

  lemma {:induction false} EventsLength(msgs: seq<Message>, known: Infomap)
    ensures |Events(msgs, known)| == |msgs|
    decreases |msgs|
  {
    if msgs != [] { EventsLength(msgs[1..], Learn(msgs[0], known)); }
  }

  lemma {:induction false} ZipIs(names: seq<string>, args: seq<string>)
    requires |names| == |args|
    ensures |Zip(names, args)| == |args|
    ensures forall k :: 0 <= k < |args| ==> Zip(names, args)[k] == (names[k], args[k])
  {
    if names != [] { ZipIs(names[1..], args[1..]); }
  }

  /** Message `i` is the call `c`: its status, return, context and count are the message's own, its name
      and the names of its arguments those in force for the index, which is not one of the three by
      which the monitor speaks of the process itself, and there are as many arguments as names. */
  ghost predicate Makes(msgs: seq<Message>, known: Infomap, i: nat, c: Call) {
    && i < |msgs| && msgs[i].Api?
    && c.sig.status == msgs[i].status && c.sig.ret == msgs[i].ret
    && c.context == msgs[i].context && c.repeated == msgs[i].repeated
    && exists info ::
         && InForce(msgs, known, i, msgs[i].index, info)
         && info.name !in ["__process__", "__thread__", "__environ__"]
         && c.sig.api == info.name && |info.argnames| == |msgs[i].args| == |c.sig.arguments|
         && forall k :: 0 <= k < |info.argnames| ==> c.sig.arguments[k] == (info.argnames[k], msgs[i].args[k])
  }

  /** A log is read as the calls its messages make, message by message; the parser gives up on broken
      messages and on nothing else. */
  lemma {:induction false} EventIff(msgs: seq<Message>, known: Infomap, i: nat, c: Call)
    requires i < |msgs|
    ensures |Events(msgs, known)| == |msgs|
    ensures Events(msgs, known)[i] == Called(c) <==> Makes(msgs, known, i, c)
    ensures Events(msgs, known)[i].Refused? <==> msgs[i].Broken?
  {
    EventAt(msgs, known, i);
    if msgs[i].Api? {
      var table, x := LearnAll(msgs[..i], known), msgs[i].index;
      if x in table {
        InForceIff(msgs, known, i, x, table[x]);
        if |table[x].argnames| == |msgs[i].args| {
          ZipIs(table[x].argnames, msgs[i].args);
        }
      }
      hide InForce, Events, LearnAll, Zip;
      if Makes(msgs, known, i, c) {
        var info :| InForce(msgs, known, i, x, info) && c.sig.api == info.name
          && info.name !in ["__process__", "__thread__", "__environ__"]
          && |info.argnames| == |msgs[i].args| == |c.sig.arguments|
          && forall k :: 0 <= k < |info.argnames| ==> c.sig.arguments[k] == (info.argnames[k], msgs[i].args[k]);
        InForceIff(msgs, known, i, x, info);
        assert c.sig.arguments == Zip(info.argnames, msgs[i].args);
      }
    }
  }

  // ---- where a log names its process

  /** The message gives, under these names, a process id other than zero; of equal names the last counts. */
  ghost predicate NamesProcess(m: Message, info: ApiInfo) {
    && m.Api? && info.name == "__process__" && |info.argnames| == |m.args|
    && exists k :: 0 <= k < |m.args| && LastNamed(info.argnames, k, "ProcessIdentifier") && m.args[k] != "0"
  }

  predicate LastNamed(names: seq<string>, k: nat, name: string) {
    k < |names| && names[k] == name && forall l :: k < l < |names| ==> names[l] != name
  }

  lemma {:induction false} FieldIff(names: seq<string>, args: seq<string>, name: string, v: string)
    requires |names| == |args|
    ensures Field(names, args, name) == Some(v) <==>
      exists k :: 0 <= k < |args| && LastNamed(names, k, name) && args[k] == v
  {
    if names != [] {
      var n: nat := |names| - 1;
      if names[n] == name {
        assert LastNamed(names, n, name);
        assert forall k :: 0 <= k < n ==> !LastNamed(names, k, name);
      } else {
        FieldIff(names[..n], args[..n], name, v);
        forall k: nat | k < n ensures LastNamed(names, k, name) <==> LastNamed(names[..n], k, name) {}
        if k :| 0 <= k < n && LastNamed(names[..n], k, name) && args[..n][k] == v {
          assert LastNamed(names, k, name);
        }
      }
    }
  }

  /** The search for the process stops at message `i`: the first that names one under the explanation
      then in force. */
  ghost predicate NamedAt(msgs: seq<Message>, known: Infomap, i: nat) {
    && i < |msgs| && Named(msgs, known, i)
    && forall j :: 0 <= j < i ==> !Named(msgs, known, j)
  }

  ghost predicate Named(msgs: seq<Message>, known: Infomap, i: nat)
    requires i < |msgs|
  {
    msgs[i].Api? && exists info :: InForce(msgs, known, i, msgs[i].index, info) && NamesProcess(msgs[i], info)
  }

  lemma {:induction false} NamedIff(msgs: seq<Message>, known: Infomap, i: nat)
    requires i < |msgs|
    ensures Named(msgs, known, i) <==> Identifies(msgs[i], LearnAll(msgs[..i], known))
  {
    hide InForce, LearnAll, Field, LastNamed;
    var m, table := msgs[i], LearnAll(msgs[..i], known);
    if m.Api? && m.index in table {
      var info := table[m.index];
      InForceIff(msgs, known, i, m.index, info);
      if |info.argnames| == |m.args| && Field(info.argnames, m.args, "ProcessIdentifier").Some? {
        FieldIff(info.argnames, m.args, "ProcessIdentifier", Field(info.argnames, m.args, "ProcessIdentifier").value);
      }
    }
    if Named(msgs, known, i) {
      var info :| InForce(msgs, known, i, m.index, info) && NamesProcess(m, info);
      InForceIff(msgs, known, i, m.index, info);
      var k :| 0 <= k < |m.args| && LastNamed(info.argnames, k, "ProcessIdentifier") && m.args[k] != "0";
      FieldIff(info.argnames, m.args, "ProcessIdentifier", m.args[k]);
    }
  }

  /** Opening a log finds the table as it is before the first message that names the process, and fails
      exactly when there is none. */
  lemma {:induction false} FirstKnownIff(msgs: seq<Message>, known: Infomap, table: Infomap)
    ensures FirstKnown(msgs, known) == Some(table) <==>
      exists i: nat :: NamedAt(msgs, known, i) && table == LearnAll(msgs[..i], known)
    ensures FirstKnown(msgs, known) == None <==> forall i: nat :: i < |msgs| ==> !Named(msgs, known, i)
  {
    forall i: nat | i < |msgs| ensures Named(msgs, known, i) <==> Identifies(msgs[i], LearnAll(msgs[..i], known)) {
      NamedIff(msgs, known, i);
    }
    var j := FirstKnownFrom(msgs, known, 0);
    assert msgs[0..] == msgs && msgs[..0] == [];
    NothingLearnt(known);
    hide Named, Identifies, LearnAll, FirstKnown;
    if j < |msgs| {
      assert NamedAt(msgs, known, j);
      forall i: nat | NamedAt(msgs, known, i) ensures i == j {}
    }
  }

  lemma {:induction false} NothingLearnt(known: Infomap)
    ensures LearnAll([], known) == known
  {}

  /** The place where the search, begun at `i`, ends. */
  lemma {:induction false} FirstKnownFrom(msgs: seq<Message>, known: Infomap, i: nat) returns (j: nat)
    requires i <= |msgs|
    ensures i <= j <= |msgs|
    ensures forall l: nat :: i <= l < j ==> !Identifies(msgs[l], LearnAll(msgs[..l], known))
    ensures j < |msgs| ==> Identifies(msgs[j], LearnAll(msgs[..j], known))
    ensures FirstKnown(msgs[i..], LearnAll(msgs[..i], known)) ==
      if j < |msgs| then Some(LearnAll(msgs[..j], known)) else None
    decreases |msgs| - i
  {
    hide Identifies, LearnAll;
    j := i;
    if i < |msgs| && !Identifies(msgs[i], LearnAll(msgs[..i], known)) {
      j := FirstKnownFrom(msgs, known, i + 1);
      assert msgs[..i + 1] == msgs[..i] + [msgs[i]] && msgs[i..][1..] == msgs[i + 1..];
      LearnAllSnoc(msgs[..i], msgs[i], known);
    }
  }

  // ---- when two tables read a log alike

  /** Every call comes after an explanation of its index. */
  ghost predicate ExplainedFirst(msgs: seq<Message>) {
    forall i :: 0 <= i < |msgs| && msgs[i].Api? ==> Explains(msgs[..i], msgs[i].index)
  }

  /** The two tables decode alike every call that comes before any explanation of its index. */
  ghost predicate SameLate(msgs: seq<Message>, k1: Infomap, k2: Infomap) {
    forall i :: 0 <= i < |msgs| && Late(msgs, i) ==> Decode(msgs[i], k1) == Decode(msgs[i], k2)
  }

  ghost predicate Late(msgs: seq<Message>, i: nat)
    requires i < |msgs|
  {
    msgs[i].Api? && !Explains(msgs[..i], msgs[i].index)
  }

  ghost predicate AgreeOn(k1: Infomap, k2: Infomap, s: set<nat>) {
    forall x :: x in s ==> x in k1 && x in k2 && k1[x] == k2[x]
  }

  ghost predicate SameOutside(msgs: seq<Message>, k1: Infomap, k2: Infomap, s: set<nat>) {
    forall i :: 0 <= i < |msgs| && Late(msgs, i) && msgs[i].index !in s ==> Decode(msgs[i], k1) == Decode(msgs[i], k2)
  }

  /** Decoding looks at one entry of the table. */
  lemma {:induction false} DecodeAt(m: Message, k1: Infomap, k2: Infomap)
    requires m.Api? ==> (m.index in k1 <==> m.index in k2) && (m.index in k1 ==> k1[m.index] == k2[m.index])
    ensures Decode(m, k1) == Decode(m, k2)
  {}

  lemma {:induction false} LateTail(msgs: seq<Message>, i: nat)
    requires 0 < i < |msgs|
    ensures Late(msgs, i) <==>
      Late(msgs[1..], i - 1) && !(msgs[0].Info? && msgs[0].index == msgs[i].index)
  {
    if msgs[i].Api? {
      assert msgs[..i] == [msgs[0]] + msgs[1..][..i - 1];
      ExplainsCons(msgs[0], msgs[1..][..i - 1], msgs[i].index);
    }
  }

  lemma {:induction false} SameTail(msgs: seq<Message>, k1: Infomap, k2: Infomap, s: set<nat>)
    requires msgs != []
    ensures var m := msgs[0]; var s' := if m.Info? then s + {m.index} else s;
      SameOutside(msgs, k1, k2, s) <==>
        (m.Api? && m.index !in s ==> Decode(m, k1) == Decode(m, k2))
        && SameOutside(msgs[1..], Learn(m, k1), Learn(m, k2), s')
  {
    var m, rest := msgs[0], msgs[1..];
    var s' := if m.Info? then s + {m.index} else s;
    assert Late(msgs, 0) <==> m.Api?;
    if SameOutside(msgs, k1, k2, s) {
      forall i | 0 <= i < |rest| && Late(rest, i) && rest[i].index !in s'
        ensures Decode(rest[i], Learn(m, k1)) == Decode(rest[i], Learn(m, k2)) {
        LateTail(msgs, i + 1);
        assert msgs[i + 1] == rest[i];
        DecodeAt(rest[i], k1, Learn(m, k1));
        DecodeAt(rest[i], k2, Learn(m, k2));
      }
    }
    var headSame := m.Api? && m.index !in s ==> Decode(m, k1) == Decode(m, k2);
    if SameOutside(rest, Learn(m, k1), Learn(m, k2), s') && headSame {
      forall i | 0 <= i < |msgs| && Late(msgs, i) && msgs[i].index !in s
        ensures Decode(msgs[i], k1) == Decode(msgs[i], k2) {
        if i > 0 {
          LateTail(msgs, i);
          assert msgs[i] == rest[i - 1];
          DecodeAt(msgs[i], k1, Learn(m, k1));
          DecodeAt(msgs[i], k2, Learn(m, k2));
        }
      }
    }
  }

  lemma {:induction false} EventsAgreeOutside(msgs: seq<Message>, k1: Infomap, k2: Infomap, s: set<nat>)
    requires AgreeOn(k1, k2, s)
    ensures Events(msgs, k1) == Events(msgs, k2) <==> SameOutside(msgs, k1, k2, s)
    decreases |msgs|
  {
    if msgs != [] {
      var m, rest := msgs[0], msgs[1..];
      var s' := if m.Info? then s + {m.index} else s;
      EventsAgreeOutside(rest, Learn(m, k1), Learn(m, k2), s');
      SameTail(msgs, k1, k2, s);
      hide SameOutside;
      var e1, e2 := Events(rest, Learn(m, k1)), Events(rest, Learn(m, k2));
      assert Events(msgs, k1)[0] == Decode(m, k1) && Events(msgs, k1)[1..] == e1;
      assert Events(msgs, k2)[0] == Decode(m, k2) && Events(msgs, k2)[1..] == e2;
    }
  }

  /** Two tables read a log alike exactly when they decode alike the calls that come before any
      explanation of their index. */
  lemma {:induction false} EventsAgreeIff(msgs: seq<Message>, k1: Infomap, k2: Infomap)
    ensures Events(msgs, k1) == Events(msgs, k2) <==> SameLate(msgs, k1, k2)
  {
    EventsAgreeOutside(msgs, k1, k2, {});
  }

  // ---- reading a log again

  /** The table after so many readings of the whole log. */
  function Readings(msgs: seq<Message>, known: Infomap, n: nat): Infomap {
    if n == 0 then known else LearnAll(msgs, Readings(msgs, known, n - 1))
  }

  lemma {:induction false} ReadingsSettle(msgs: seq<Message>, known: Infomap, n: nat)
    ensures n > 0 ==> Readings(msgs, known, n) == LearnAll(msgs, known)
  {
    if n > 1 {
      ReadingsSettle(msgs, known, n - 1);
      LearnAllTwice(msgs, known);
    }
  }

  /** Every reading of the whole log is the first one exactly when each call that comes before any
      explanation of its index decodes the same under the first table and the one the log leaves. */
  lemma {:induction false} EventsStableIff(msgs: seq<Message>, known: Infomap)
    ensures (forall n: nat :: Events(msgs, Readings(msgs, known, n)) == Events(msgs, known))
      <==> SameLate(msgs, known, LearnAll(msgs, known))
  {
    EventsAgreeIff(msgs, known, LearnAll(msgs, known));
    hide Events, SameLate, LearnAll;
    if SameLate(msgs, known, LearnAll(msgs, known)) {
      forall n: nat ensures Events(msgs, Readings(msgs, known, n)) == Events(msgs, known) {
        ReadingsSettle(msgs, known, n);
      }
    } else {
      ReadingsSettle(msgs, known, 1);
      assert Events(msgs, Readings(msgs, known, 1)) != Events(msgs, known);
    }
  }

  /** The table after readings that stop after so many messages each. */
  function PartReadings(msgs: seq<Message>, known: Infomap, stops: seq<nat>): Infomap {
    if stops == [] then known
    else
      var n := |stops| - 1;
      LearnAll(if stops[n] <= |msgs| then msgs[..stops[n]] else msgs, PartReadings(msgs, known, stops[..n]))
  }

  /** No message of the log would change what a call before any explanation of its index means. */
  ghost predicate NoLateMeaning(msgs: seq<Message>, known: Infomap) {
    forall i, j ::
      0 <= i < |msgs| && 0 <= j < |msgs| && Late(msgs, i) && msgs[j].Info? && msgs[j].index == msgs[i].index ==>
        Decode(msgs[i], Learn(msgs[j], known)) == Decode(msgs[i], known)
  }

  lemma {:induction false} PartReadingsFromLog(msgs: seq<Message>, known: Infomap, stops: seq<nat>)
    ensures FromLog(msgs, known, PartReadings(msgs, known, stops))
    decreases |stops|
  {
    if stops != [] {
      var n := |stops| - 1;
      PartReadingsFromLog(msgs, known, stops[..n]);
      var upTo := if stops[n] <= |msgs| then stops[n] else |msgs|;
      assert msgs[..|msgs|] == msgs;
      FromLogAll(msgs, upTo, known, PartReadings(msgs, known, stops[..n]));
    }
  }

  /** Where no message changes a meaning, any table the log can leave reads it alike. */
  lemma {:induction false} NoLateMeaningReads(msgs: seq<Message>, known: Infomap, later: Infomap)
    requires NoLateMeaning(msgs, known) && FromLog(msgs, known, later)
    ensures Events(msgs, later) == Events(msgs, known)
  {
    EventsAgreeIff(msgs, later, known);
    forall i | 0 <= i < |msgs| && Late(msgs, i) ensures Decode(msgs[i], later) == Decode(msgs[i], known) {
      var x := msgs[i].index;
      if x in later && ExplainedAs(msgs, x, later[x]) {
        var j :| 0 <= j < |msgs| && msgs[j] == Info(x, later[x]);
        DecodeAt(msgs[i], later, Learn(msgs[j], known));
      } else {
        DecodeAt(msgs[i], later, known);
      }
    }
  }

  lemma {:induction false} OnePart(msgs: seq<Message>, known: Infomap, j: nat)
    requires j < |msgs|
    ensures PartReadings(msgs, known, [j + 1]) == Learn(msgs[j], LearnAll(msgs[..j], known))
  {
    assert msgs[..j + 1] == msgs[..j] + [msgs[j]];
    LearnAllSnoc(msgs[..j], msgs[j], known);
    assert [j + 1][..0] == [];
  }

  /** Readings that may each stop anywhere leave the meaning of the log alone exactly when no message
      of it changes what a call before any explanation of its index means. */
  lemma {:induction false} AnyReadingIff(msgs: seq<Message>, known: Infomap)
    ensures (forall stops :: Events(msgs, PartReadings(msgs, known, stops)) == Events(msgs, known))
      <==> NoLateMeaning(msgs, known)
  {
    if NoLateMeaning(msgs, known) {
      forall stops ensures Events(msgs, PartReadings(msgs, known, stops)) == Events(msgs, known) {
        PartReadingsFromLog(msgs, known, stops);
        NoLateMeaningReads(msgs, known, PartReadings(msgs, known, stops));
      }
    } else {
      var i, j :| 0 <= i < |msgs| && 0 <= j < |msgs| && Late(msgs, i) && msgs[j].Info? && msgs[j].index == msgs[i].index
        && Decode(msgs[i], Learn(msgs[j], known)) != Decode(msgs[i], known);
      var k := PartReadings(msgs, known, [j + 1]);
      OnePart(msgs, known, j);
      DecodeAt(msgs[i], k, Learn(msgs[j], known));
      EventsAgreeIff(msgs, k, known);
    }
  }

  /** A log that explains its calls first meets both conditions. */
  lemma {:induction false} ExplainedIsStable(msgs: seq<Message>, known: Infomap)
    requires ExplainedFirst(msgs)
    ensures NoLateMeaning(msgs, known) && forall k1, k2 :: Events(msgs, k1) == Events(msgs, k2)
  {
    forall k1, k2 ensures Events(msgs, k1) == Events(msgs, k2) {
      EventsAgreeIff(msgs, k1, k2);
    }
  }
}
