/** The rooter's inetsim and drop routes: scripts of iptables commands over ordered rule chains. */
module Rooter {
  import opened Strings

  datatype Chain = Prerouting | Input | Output

  /** The rules the scripts name; `Foreign` is any other rule. Rules written through `run` instead
      of `run_iptables` carry no comment, which is why the redirections are a shape of their own. */
  datatype Rule =
    | Redirect(source: string, dport: string, to: string)
    | Hijack(source: string, exceptPort: string, to: string)
    | Dns(proto: string, source: string, to: string)
    | DropInvalidConntrack
    | DropInvalidState
    | DropSource(source: string)
    | DropDestination(dest: string)
    | AcceptSyn(source: string, dport: string)
    | AcceptToPort(dest: string, dport: string)
    | AcceptFromPort(dest: string, sport: string)
    | Foreign(text: string)

  datatype Action = Append | Insert | Delete

  datatype Command = Command(action: Action, chain: Chain, rule: Rule)

  datatype Tables = Tables(prerouting: seq<Rule>, input: seq<Rule>, output: seq<Rule>) {
    function Of(chain: Chain): seq<Rule> {
      match chain
      case Prerouting => prerouting
      case Input => input
      case Output => output
    }

    function With(chain: Chain, rules: seq<Rule>): (t: Tables)
      ensures forall c :: t.Of(c) == if c == chain then rules else Of(c)
    {
      match chain
      case Prerouting => this.(prerouting := rules)
      case Input => this.(input := rules)
      case Output => this.(output := rules)
    }
  }

  // ---- iptables

  /** Deleting by specification takes the first match, and is an error without effect if there is none. */
  function DeleteFirst(rules: seq<Rule>, r: Rule): seq<Rule> {
    if rules == [] then []
    else if rules[0] == r then rules[1..]
    else [rules[0]] + DeleteFirst(rules[1..], r)
  }

  lemma {:induction false} DeleteStep(rules: seq<Rule>, i: nat, r: Rule)
    requires i <= |rules|
    ensures i == |rules| ==> rules[..i] + DeleteFirst(rules[i..], r) == rules
    ensures i < |rules| && rules[i] == r ==> DeleteFirst(rules[i..], r) == rules[i + 1..]
    ensures i < |rules| && rules[i] != r ==>
      rules[..i] + DeleteFirst(rules[i..], r) == rules[..i + 1] + DeleteFirst(rules[i + 1..], r)
  {
    if i < |rules| {
      assert rules[i..][1..] == rules[i + 1..] && rules[..i + 1] == rules[..i] + [rules[i]];
    }
  }

  function Edit(action: Action, rules: seq<Rule>, r: Rule): seq<Rule> {
    match action
    case Append => rules + [r]
    case Insert => [r] + rules
    case Delete => DeleteFirst(rules, r)
  }

  function Exec(t: Tables, c: Command): Tables {
    t.With(c.chain, Edit(c.action, t.Of(c.chain), c.rule))
  }

  function ExecAll(t: Tables, cs: seq<Command>): Tables {
    if cs == [] then t else Exec(ExecAll(t, cs[..|cs| - 1]), cs[|cs| - 1])
  }

  lemma {:induction false} ExecLast(t: Tables, cs: seq<Command>, chain: Chain)
    requires cs != []
    ensures var front, c := cs[..|cs| - 1], cs[|cs| - 1];
            ExecAll(t, cs).Of(chain) ==
              if c.chain == chain then Edit(c.action, ExecAll(t, front).Of(chain), c.rule)
              else ExecAll(t, front).Of(chain)
  {}

  lemma {:induction false} ExecAppend(t: Tables, a: seq<Command>, b: seq<Command>)
    ensures ExecAll(t, a + b) == ExecAll(ExecAll(t, a), b)
  {
    hide Exec;
    if b == [] {
      assert a + b == a;
    } else {
      ExecAppend(t, a, b[..|b| - 1]);
      assert (a + b)[..|a + b| - 1] == a + b[..|b| - 1];
    }
  }

  lemma {:induction false} ExecOne(t: Tables, c: Command)
    ensures ExecAll(t, [c]) == Exec(t, c) && ExecAll(t, []) == t
  {}

  // ---- the routes

  datatype Route =
    | Inetsim(ip: string, inetsimIp: string, dnsPort: string, resultPort: string, ports: string)
    | Drop(ip: string, resultPort: string)

  /** str.split() */
  function Words(s: string, word: string): seq<string> {
    if s == [] then (if word == [] then [] else [word])
    else if Space(s[0]) then (if word == [] then [] else [word]) + Words(s[1..], [])
    else Words(s[1..], word + [s[0]])
  }

  function CountColons(s: string): nat {
    if s == [] then 0 else (if s[0] == ':' then 1 else 0) + CountColons(s[1..])
  }

  function BeforeColon(s: string): (r: string)
    ensures |r| <= |s|
  {
    if s == [] || s[0] == ':' then [] else [s[0]] + BeforeColon(s[1..])
  }

  predicate IsDigit(s: string) {
    s != [] && forall i :: 0 <= i < |s| ==> '0' <= s[i] <= '9'
  }

  predicate ValidEntry(entry: string) {
    CountColons(entry) == 1
    && var src := BeforeColon(entry);
       |src| < |entry| && IsDigit(src) && IsDigit(entry[|src| + 1..])
  }

  function RedirectRule(entry: string, srcip: string, dstip: string): Rule
    requires ValidEntry(entry)
  {
    var src := BeforeColon(entry);
    Redirect(srcip, src, dstip + ":" + entry[|src| + 1..])
  }

  /** Entries that are not "port:port" are skipped. */
  function RedirectScript(action: Action, entries: seq<string>, srcip: string, dstip: string): seq<Command> {
    if entries == [] then []
    else
      var n := |entries| - 1;
      RedirectScript(action, entries[..n], srcip, dstip) +
      if ValidEntry(entries[n]) then [Command(action, Prerouting, RedirectRule(entries[n], srcip, dstip))] else []
  }

  function DnsScript(action: Action, r: Route): seq<Command>
    requires r.Inetsim?
  {
    [ Command(action, Prerouting, Dns("tcp", r.ip, r.inetsimIp + ":" + r.dnsPort)),
      Command(action, Prerouting, Dns("udp", r.ip, r.inetsimIp + ":" + r.dnsPort)) ]
  }

  /** The commands of a route, with the action each is added by. */
  function Script(r: Route): seq<Command> {
    match r
    case Inetsim(ip, inetsimIp, dnsPort, resultPort, ports) =>
      RedirectScript(Append, Words(ports, []), ip, inetsimIp)
      + [ Command(Insert, Prerouting, Hijack(ip, resultPort, inetsimIp)),
          Command(Append, Output, DropInvalidConntrack),
          Command(Append, Output, DropInvalidState) ]
      + DnsScript(Append, r)
      + [ Command(Append, Output, DropSource(ip)) ]
    case Drop(ip, resultPort) =>
      [ Command(Insert, Prerouting, AcceptSyn(ip, resultPort)),
        Command(Append, Input, AcceptToPort(ip, "8000")),
        Command(Append, Input, AcceptFromPort(ip, resultPort)),
        Command(Append, Output, AcceptToPort(ip, "8000")),
        Command(Append, Output, AcceptFromPort(ip, resultPort)),
        Command(Append, Output, DropDestination(ip)) ]
  }

  // ---- the entries of a port list

  /** A list is cut at every white-space character, and a piece without any is one word if it is not
      empty. */
  lemma {:induction false} WordsAre(a: string, c: char, b: string)
    ensures Space(c) ==> Words(a + [c] + b, []) == Words(a, []) + Words(b, [])
    ensures (forall x :: x in a ==> !Space(x)) ==> Words(a, []) == if a == [] then [] else [a]
  {
    if Space(c) {
      WordsCut(a, [], c, b);
    }
    if forall x :: x in a ==> !Space(x) {
      WordsOne(a, []);
      assert [] + a == a;
    }
  }

  lemma {:induction false} WordsCut(a: string, word: string, c: char, b: string)
    requires Space(c)
    ensures Words(a + [c] + b, word) == Words(a, word) + Words(b, [])
    decreases |a|
  {
    var s := a + [c] + b;
    hide Space;
    if a == [] {
      assert s[1..] == b;
    } else {
      assert s[0] == a[0] && s[1..] == a[1..] + [c] + b;
      if Space(a[0]) {
        WordsCut(a[1..], [], c, b);
      } else {
        WordsCut(a[1..], word + [a[0]], c, b);
      }
    }
  }

  lemma {:induction false} WordsOne(a: string, word: string)
    requires forall x :: x in a ==> !Space(x)
    ensures Words(a, word) == if word + a == [] then [] else [word + a]
    decreases |a|
  {
    hide Space;
    if a == [] {
      assert word + a == word;
    } else {
      assert a[0] in a;
      WordsOne(a[1..], word + [a[0]]);
      assert word + [a[0]] + a[1..] == word + a;
    }
  }

  lemma {:induction false} ColonBefore(a: string, b: string)
    requires ':' !in a
    ensures BeforeColon(a + ":" + b) == a && CountColons(a + ":" + b) == 1 + CountColons(b)
  {
    var s := a + ":" + b;
    if a == [] {
      assert s[1..] == b;
    } else {
      ColonBefore(a[1..], b);
      assert s[1..] == a[1..] + ":" + b && s[0] == a[0] != ':';
    }
  }

  lemma {:induction false} NoColons(s: string)
    requires ':' !in s
    ensures CountColons(s) == 0
  {
    if s != [] { NoColons(s[1..]); }
  }

  lemma {:induction false} ColonAt(s: string)
    requires CountColons(s) > 0
    ensures var a := BeforeColon(s); |a| < |s| && s == a + ":" + s[|a| + 1..]
  {
    if s[0] != ':' {
      ColonAt(s[1..]);
    }
  }

  /** An entry counts exactly if it is two numbers with one colon between them, and redirects the first
      port to the second at the other host. */
  lemma {:induction false} EntryIff(entry: string, srcip: string, dstip: string)
    ensures ValidEntry(entry) <==> exists a, b :: IsEntry(entry, a, b)
    ensures forall a, b :: IsEntry(entry, a, b) ==>
      ValidEntry(entry) && RedirectRule(entry, srcip, dstip) == Redirect(srcip, a, dstip + ":" + b)
  {
    if ValidEntry(entry) {
      ColonAt(entry);
      assert IsEntry(entry, BeforeColon(entry), entry[|BeforeColon(entry)| + 1..]);
    }
    forall a, b | IsEntry(entry, a, b)
      ensures ValidEntry(entry) && RedirectRule(entry, srcip, dstip) == Redirect(srcip, a, dstip + ":" + b)
    {
      ColonBefore(a, b);
      NoColons(b);
      assert entry[|a| + 1..] == b;
    }
  }

  /** Every number in its usual form is made of digits. */
  lemma {:induction false} NumberIsDigit(n: nat)
    ensures IsDigit(Str(n))
  {
    DigitInRange(n % 10);
    OneMoreDigit("", Digit(n % 10));
    if n < 10 {
      assert "" + [Digit(n % 10)] == [Digit(n)] == Str(n);
    } else {
      NumberIsDigit(n / 10);
      OneMoreDigit(Str(n / 10), Digit(n % 10));
      assert Str(n) == Str(n / 10) + [Digit(n % 10)];
    }
  }

  lemma {:induction false} OneMoreDigit(s: string, c: char)
    requires '0' <= c <= '9' && (s == "" || IsDigit(s))
    ensures IsDigit(s + [c])
  {}

  lemma {:induction false} DigitInRange(d: nat)
    requires d < 10
    ensures '0' <= Digit(d) <= '9'
  {}

  predicate IsEntry(entry: string, a: string, b: string) {
    entry == a + ":" + b && IsDigit(a) && IsDigit(b)
  }

  // ---- the tables a route leaves

  /** The redirections of a port list, in its order. */
  function Redirections(entries: seq<string>, srcip: string, dstip: string): seq<Rule> {
    if entries == [] then []
    else
      var n := |entries| - 1;
      Redirections(entries[..n], srcip, dstip) +
      if ValidEntry(entries[n]) then [RedirectRule(entries[n], srcip, dstip)] else []
  }

  lemma {:induction false} RedirectTables(t: Tables, entries: seq<string>, srcip: string, dstip: string)
    ensures ExecAll(t, RedirectScript(Append, entries, srcip, dstip)) ==
      t.(prerouting := t.prerouting + Redirections(entries, srcip, dstip))
  {
    hide ValidEntry, RedirectRule;
    NoCommands(t);
    if entries != [] {
      var n := |entries| - 1;
      RedirectTables(t, entries[..n], srcip, dstip);
      var cs := RedirectScript(Append, entries[..n], srcip, dstip);
      if ValidEntry(entries[n]) {
        var c := Command(Append, Prerouting, RedirectRule(entries[n], srcip, dstip));
        ExecAppend(t, cs, [c]);
        ExecOne(ExecAll(t, cs), c);
      } else {
        assert cs + [] == cs;
      }
    }
  }

  /** Enabling a drop route: the accepting rule for the result server comes before all that was there,
      everything else behind it, in this order. */
  lemma {:induction false} DropTables(t: Tables, r: Route)
    requires r.Drop?
    ensures var t' := Enable(t, r);
      && t'.prerouting == [AcceptSyn(r.ip, r.resultPort)] + t.prerouting
      && t'.input == t.input + [AcceptToPort(r.ip, "8000"), AcceptFromPort(r.ip, r.resultPort)]
      && t'.output == t.output
           + [AcceptToPort(r.ip, "8000"), AcceptFromPort(r.ip, r.resultPort), DropDestination(r.ip)]
  {
    DropShape(t, AcceptSyn(r.ip, r.resultPort), AcceptToPort(r.ip, "8000"), AcceptFromPort(r.ip, r.resultPort),
              DropDestination(r.ip));
    hide ExecAll;
  }

  lemma {:induction false} DropShape(t: Tables, x: Rule, a: Rule, b: Rule, c: Rule)
    ensures var cs := [Command(Insert, Prerouting, x), Command(Append, Input, a), Command(Append, Input, b),
                       Command(Append, Output, a), Command(Append, Output, b), Command(Append, Output, c)];
      ExecAll(t, cs) == Tables([x] + t.prerouting, t.input + [a, b], t.output + [a, b, c])
  {
    var cs := [Command(Insert, Prerouting, x), Command(Append, Input, a), Command(Append, Input, b),
               Command(Append, Output, a), Command(Append, Output, b), Command(Append, Output, c)];
    hide Exec, ExecAll;
    ExecSix(t, cs);
    var t1 := Exec(t, cs[0]);
    ExecIs(t, cs[0]);
    var t2 := Exec(t1, cs[1]);
    ExecIs(t1, cs[1]);
    var t3 := Exec(t2, cs[2]);
    ExecIs(t2, cs[2]);
    var t4 := Exec(t3, cs[3]);
    ExecIs(t3, cs[3]);
    var t5 := Exec(t4, cs[4]);
    ExecIs(t4, cs[4]);
    ExecIs(t5, cs[5]);
    assert t.input + [a] + [b] == t.input + [a, b];
    assert t.output + [a] + [b] + [c] == t.output + [a, b, c];
  }

  lemma {:induction false} ExecIs(t: Tables, c: Command)
    ensures Exec(t, c) == match c.chain
      case Prerouting => t.(prerouting := Edit(c.action, t.prerouting, c.rule))
      case Input => t.(input := Edit(c.action, t.input, c.rule))
      case Output => t.(output := Edit(c.action, t.output, c.rule))
  {}

  /** Enabling an inetsim route: the rule that takes everything comes first, the redirections and the two
      for name service last, and the output chain ends by dropping the machine's own traffic. */
  lemma {:induction false} InetsimTables(t: Tables, r: Route)
    requires r.Inetsim?
    ensures var t', dns := Enable(t, r), r.inetsimIp + ":" + r.dnsPort;
      && t'.prerouting == [Hijack(r.ip, r.resultPort, r.inetsimIp)] + t.prerouting
           + Redirections(Words(r.ports, []), r.ip, r.inetsimIp) + [Dns("tcp", r.ip, dns), Dns("udp", r.ip, dns)]
      && t'.input == t.input
      && t'.output == t.output + [DropInvalidConntrack, DropInvalidState, DropSource(r.ip)]
  {
    hide ExecAll, Exec, RedirectScript, Redirections, Words, Enable;
    var entries, dns := Words(r.ports, []), r.inetsimIp + ":" + r.dnsPort;
    var t1 := ExecAll(t, RedirectScript(Append, entries, r.ip, r.inetsimIp));
    RedirectTables(t, entries, r.ip, r.inetsimIp);
    InetsimShape(t1, Hijack(r.ip, r.resultPort, r.inetsimIp), DropInvalidConntrack, DropInvalidState,
                 Dns("tcp", r.ip, dns), Dns("udp", r.ip, dns), DropSource(r.ip));
    var t2 := Exec(Exec(Exec(t1, Middle(r)[0]), Middle(r)[1]), Middle(r)[2]);
    var t3 := ExecAll(t2, DnsScript(Append, r));
    InetsimScript(t, t1, t2, t3, Exec(t3, Command(Append, Output, DropSource(r.ip))), r);
    InFront(Hijack(r.ip, r.resultPort, r.inetsimIp), t.prerouting, Redirections(entries, r.ip, r.inetsimIp));
  }

  lemma {:induction false} InFront(x: Rule, a: seq<Rule>, b: seq<Rule>)
    ensures [x] + (a + b) == [x] + a + b
  {}

  lemma {:induction false} InetsimShape(t: Tables, h: Rule, x: Rule, y: Rule, tcp: Rule, udp: Rule, z: Rule)
    ensures var t2 := Exec(Exec(Exec(t, Command(Insert, Prerouting, h)), Command(Append, Output, x)),
                           Command(Append, Output, y));
      var t3 := ExecAll(t2, [Command(Append, Prerouting, tcp), Command(Append, Prerouting, udp)]);
      Exec(t3, Command(Append, Output, z))
        == Tables([h] + t.prerouting + [tcp, udp], t.input, t.output + [x, y, z])
  {
    hide Exec, ExecAll;
    ExecIs(t, Command(Insert, Prerouting, h));
    var m1 := Exec(t, Command(Insert, Prerouting, h));
    ExecIs(m1, Command(Append, Output, x));
    var m2 := Exec(m1, Command(Append, Output, x));
    ExecIs(m2, Command(Append, Output, y));
    var t2 := Exec(m2, Command(Append, Output, y));
    ExecTwo(t2, Command(Append, Prerouting, tcp), Command(Append, Prerouting, udp));
    ExecIs(t2, Command(Append, Prerouting, tcp));
    var d := Exec(t2, Command(Append, Prerouting, tcp));
    ExecIs(d, Command(Append, Prerouting, udp));
    ExecIs(Exec(d, Command(Append, Prerouting, udp)), Command(Append, Output, z));
    assert [h] + t.prerouting + [tcp] + [udp] == [h] + t.prerouting + [tcp, udp];
    assert t.output + [x] + [y] + [z] == t.output + [x, y, z];
  }

  /** The same commands, each deleting its rule. */
  function Undo(cs: seq<Command>): (r: seq<Command>)
    ensures |r| == |cs| && forall i :: 0 <= i < |cs| ==> r[i] == Command(Delete, cs[i].chain, cs[i].rule)
  {
    seq(|cs|, i requires 0 <= i < |cs| => Command(Delete, cs[i].chain, cs[i].rule))
  }

  function Enable(t: Tables, r: Route): Tables {
    ExecAll(t, Script(r))
  }

  function Disable(t: Tables, r: Route): Tables {
    ExecAll(t, Undo(Script(r)))
  }

  lemma {:induction false} EnableIs(t: Tables, r: Route)
    ensures Enable(t, r) == ExecAll(t, Script(r)) && Disable(t, r) == ExecAll(t, Undo(Script(r)))
  {}

  // ---- what a script adds and takes away

  /** The rules a script names in one chain. */
  function RulesOf(cs: seq<Command>, chain: Chain): multiset<Rule> {
    if cs == [] then multiset{}
    else
      var last := cs[|cs| - 1];
      RulesOf(cs[..|cs| - 1], chain) + if last.chain == chain then multiset{last.rule} else multiset{}
  }

  function Added(r: Route, chain: Chain): multiset<Rule> {
    RulesOf(Script(r), chain)
  }

  lemma {:induction false} DeleteMultiset(rules: seq<Rule>, r: Rule)
    ensures multiset(DeleteFirst(rules, r)) == multiset(rules) - multiset{r}
  {
    if rules != [] {
      assert rules == [rules[0]] + rules[1..];
      if rules[0] != r {
        DeleteMultiset(rules[1..], r);
      }
    }
  }

  predicate Deletes(cs: seq<Command>) {
    forall i :: 0 <= i < |cs| ==> cs[i].action.Delete?
  }

  predicate Adds(cs: seq<Command>) {
    forall i :: 0 <= i < |cs| ==> !cs[i].action.Delete?
  }

  lemma {:induction false} ExecAdds(t: Tables, cs: seq<Command>, chain: Chain)
    requires Adds(cs)
    ensures multiset(ExecAll(t, cs).Of(chain)) == multiset(t.Of(chain)) + RulesOf(cs, chain)
  {
    hide ExecAll, Tables.Of;
    if cs != [] {
      ExecAdds(t, cs[..|cs| - 1], chain);
      ExecLast(t, cs, chain);
    } else {
      NoCommands(t);
    }
  }

  lemma {:induction false} NoCommands(t: Tables)
    ensures ExecAll(t, []) == t
  {}

  lemma {:induction false} ExecDeletes(t: Tables, cs: seq<Command>, chain: Chain)
    requires Deletes(cs)
    ensures multiset(ExecAll(t, cs).Of(chain)) == multiset(t.Of(chain)) - RulesOf(cs, chain)
  {
    hide ExecAll, Tables.Of, DeleteFirst;
    if cs != [] {
      var n := |cs| - 1;
      ExecDeletes(t, cs[..n], chain);
      ExecLast(t, cs, chain);
      DeleteMultiset(ExecAll(t, cs[..n]).Of(chain), cs[n].rule);
    } else {
      NoCommands(t);
    }
  }

  lemma {:induction false} UndoRules(cs: seq<Command>, chain: Chain)
    ensures RulesOf(Undo(cs), chain) == RulesOf(cs, chain)
  {
    if cs != [] {
      var n := |cs| - 1;
      UndoRules(cs[..n], chain);
      assert Undo(cs)[..n] == Undo(cs[..n]);
    }
  }

  lemma {:induction false} RedirectAdds(entries: seq<string>, srcip: string, dstip: string)
    ensures Adds(RedirectScript(Append, entries, srcip, dstip))
  {
    if entries != [] { RedirectAdds(entries[..|entries| - 1], srcip, dstip); }
  }

  lemma {:induction false} ScriptAdds(r: Route)
    ensures Adds(Script(r))
  {
    if r.Inetsim? { RedirectAdds(Words(r.ports, []), r.ip, r.inetsimIp); }
  }

  /** Enabling a route adds its rules to a chain's, disabling takes them away, as far as there are any. */
  lemma {:induction false} EnableDisable(t: Tables, r: Route, chain: Chain)
    ensures multiset(Enable(t, r).Of(chain)) == multiset(t.Of(chain)) + Added(r, chain)
    ensures multiset(Disable(t, r).Of(chain)) == multiset(t.Of(chain)) - Added(r, chain)
  {
    ScriptAdds(r);
    ExecAdds(t, Script(r), chain);
    ExecDeletes(t, Undo(Script(r)), chain);
    UndoRules(Script(r), chain);
  }

  // ---- rules of others keep their order

  /** The rules outside `s`, in order. */
  function Others(rules: seq<Rule>, s: set<Rule>): seq<Rule> {
    if rules == [] then []
    else (if rules[0] in s then [] else [rules[0]]) + Others(rules[1..], s)
  }

  lemma {:induction false} OthersCons(r: Rule, rules: seq<Rule>, s: set<Rule>)
    ensures Others([r] + rules, s) == (if r in s then [] else [r]) + Others(rules, s)
    ensures Others([], s) == []
  {}

  lemma {:induction false} OthersAppend(a: seq<Rule>, b: seq<Rule>, s: set<Rule>)
    ensures Others(a + b, s) == Others(a, s) + Others(b, s)
  {
    if a == [] {
      assert a + b == b;
    } else {
      hide Others;
      OthersAppend(a[1..], b, s);
      OthersCons(a[0], a[1..], s);
      OthersCons(a[0], a[1..] + b, s);
      assert a == [a[0]] + a[1..] && a + b == [a[0]] + (a[1..] + b);
    }
  }

  lemma {:induction false} OthersDelete(rules: seq<Rule>, r: Rule, s: set<Rule>)
    requires r in s
    ensures Others(DeleteFirst(rules, r), s) == Others(rules, s)
  {
    if rules != [] && rules[0] != r {
      OthersDelete(rules[1..], r, s);
      assert ([rules[0]] + DeleteFirst(rules[1..], r))[1..] == DeleteFirst(rules[1..], r);
    }
  }

  lemma {:induction false} ExecKeepsOthers(t: Tables, cs: seq<Command>, chain: Chain, s: set<Rule>)
    requires forall c :: c in cs ==> c.rule in s
    ensures Others(ExecAll(t, cs).Of(chain), s) == Others(t.Of(chain), s)
  {
    hide ExecAll, Tables.Of;
    if cs != [] {
      var n := |cs| - 1;
      ExecKeepsOthers(t, cs[..n], chain, s);
      ExecLast(t, cs, chain);
      assert cs[n] in cs;
      EditKeepsOthers(cs[n].action, ExecAll(t, cs[..n]).Of(chain), cs[n].rule, s);
    } else {
      NoCommands(t);
    }
  }

  lemma {:induction false} EditKeepsOthers(action: Action, rules: seq<Rule>, r: Rule, s: set<Rule>)
    requires r in s
    ensures Others(Edit(action, rules, r), s) == Others(rules, s)
  {
    OthersAppend(rules, [r], s);
    OthersAppend([r], rules, s);
    OthersDelete(rules, r, s);
    assert Others([r], s) == [];
  }

  // ---- interleavings

  datatype Op = Enabling(route: Route) | Disabling(route: Route)

  function RunOps(t: Tables, ops: seq<Op>): Tables {
    if ops == [] then t
    else
      var before := RunOps(t, ops[..|ops| - 1]);
      match ops[|ops| - 1]
      case Enabling(r) => Enable(before, r)
      case Disabling(r) => Disable(before, r)
  }

  /** The routes enabled and not disabled since. */
  function Open(ops: seq<Op>): multiset<Route> {
    if ops == [] then multiset{}
    else
      match ops[|ops| - 1]
      case Enabling(r) => Open(ops[..|ops| - 1]) + multiset{r}
      case Disabling(r) => Open(ops[..|ops| - 1]) - multiset{r}
  }

  /** Every disable has an enable of the same route open before it. */
  ghost predicate Matched(ops: seq<Op>) {
    forall i :: 0 <= i < |ops| && ops[i].Disabling? ==> ops[i].route in Open(ops[..i])
  }

  /** The rules the enabled routes account for are those of the open routes, route by route. */
  function SumOf(routes: seq<Route>, chain: Chain): multiset<Rule> {
    if routes == [] then multiset{} else Added(routes[0], chain) + SumOf(routes[1..], chain)
  }

  lemma {:induction false} SumTakeOut(routes: seq<Route>, r: Route, chain: Chain) returns (rest: seq<Route>)
    requires r in routes
    ensures multiset(routes) == multiset{r} + multiset(rest)
    ensures SumOf(routes, chain) == Added(r, chain) + SumOf(rest, chain)
  {
    hide Added, SumOf;
    assert routes == [routes[0]] + routes[1..];
    SumCons(routes[0], routes[1..], chain);
    if routes[0] == r {
      rest := routes[1..];
    } else {
      var tail := SumTakeOut(routes[1..], r, chain);
      rest := [routes[0]] + tail;
      SumCons(routes[0], tail, chain);
    }
  }

  lemma {:induction false} SumCons(r: Route, routes: seq<Route>, chain: Chain)
    ensures SumOf([r] + routes, chain) == Added(r, chain) + SumOf(routes, chain)
  {}

  lemma {:induction false} Regroup<T>(a: multiset<T>, b: multiset<T>, c: multiset<T>)
    ensures (a + c) + b == a + (b + c)
    ensures a + (b + c) - b == a + c
  {}

  lemma {:induction false} MatchedPrefix(ops: seq<Op>)
    requires Matched(ops) && ops != []
    ensures Matched(ops[..|ops| - 1])
    ensures ops[|ops| - 1].Disabling? ==> ops[|ops| - 1].route in Open(ops[..|ops| - 1])
  {
    var front := ops[..|ops| - 1];
    forall i | 0 <= i < |front| && front[i].Disabling? ensures front[i].route in Open(front[..i]) {
      assert ops[i] == front[i] && ops[..i] == front[..i];
    }
  }

  lemma {:induction false} RunLast(t: Tables, ops: seq<Op>)
    requires ops != []
    ensures var front, op := ops[..|ops| - 1], ops[|ops| - 1];
            RunOps(t, ops) == (if op.Enabling? then Enable(RunOps(t, front), op.route)
                               else Disable(RunOps(t, front), op.route))
            && Open(ops) == if op.Enabling? then Open(front) + multiset{op.route} else Open(front) - multiset{op.route}
  {}

  /** The chain holds its initial rules and those of the routes `open`, which are the open ones. */
  ghost predicate Balanced(t: Tables, ops: seq<Op>, chain: Chain, open: seq<Route>) {
    && multiset(open) == Open(ops)
    && multiset(RunOps(t, ops).Of(chain)) == multiset(t.Of(chain)) + SumOf(open, chain)
  }

  lemma {:induction false} BalanceEnabling(t: Tables, ops: seq<Op>, chain: Chain, before: seq<Route>)
    requires ops != [] && ops[|ops| - 1].Enabling? && Balanced(t, ops[..|ops| - 1], chain, before)
    ensures Balanced(t, ops, chain, [ops[|ops| - 1].route] + before)
  {
    hide RunOps, Open, Enable, Disable, Added, SumOf, Tables.Of;
    var r := ops[|ops| - 1].route;
    RunLast(t, ops);
    EnableDisable(RunOps(t, ops[..|ops| - 1]), r, chain);
    SumCons(r, before, chain);
    Regroup(multiset(t.Of(chain)), Added(r, chain), SumOf(before, chain));
  }

  lemma {:induction false} BalanceDisabling(t: Tables,
      ops: seq<Op>, chain: Chain, before: seq<Route>) returns (open: seq<Route>)
    requires ops != [] && ops[|ops| - 1].Disabling? && Balanced(t, ops[..|ops| - 1], chain, before)
    requires ops[|ops| - 1].route in before
    ensures Balanced(t, ops, chain, open)
  {
    hide RunOps, Open, Enable, Disable, Added, SumOf, Tables.Of;
    var r := ops[|ops| - 1].route;
    RunLast(t, ops);
    EnableDisable(RunOps(t, ops[..|ops| - 1]), r, chain);
    open := SumTakeOut(before, r, chain);
    Regroup(multiset(t.Of(chain)), Added(r, chain), SumOf(open, chain));
    assert multiset(before) - multiset{r} == multiset(open);
  }

  /** Main result. After any interleaving in which disables match earlier enables, each chain holds
      its initial rules and those of the routes still open, nothing more and nothing less. */
  lemma {:induction false} RuleBalance(t: Tables, ops: seq<Op>, chain: Chain) returns (open: seq<Route>)
    requires Matched(ops)
    ensures multiset(open) == Open(ops)
    ensures multiset(RunOps(t, ops).Of(chain)) == multiset(t.Of(chain)) + SumOf(open, chain)
  {
    if ops == [] {
      open := [];
    } else {
      MatchedPrefix(ops);
      var before := RuleBalance(t, ops[..|ops| - 1], chain);
      if ops[|ops| - 1].Enabling? {
        open := [ops[|ops| - 1].route] + before;
        BalanceEnabling(t, ops, chain, before);
      } else {
        assert ops[|ops| - 1].route in multiset(before);
        open := BalanceDisabling(t, ops, chain, before);
      }
    }
  }

  /** Rules that no route of the run names keep their order in every chain, matched or not. */
  lemma {:induction false} OthersKeepOrder(t: Tables, ops: seq<Op>, chain: Chain, s: set<Rule>)
    requires forall op :: op in ops ==> forall c :: c in Script(op.route) ==> c.rule in s
    ensures Others(RunOps(t, ops).Of(chain), s) == Others(t.Of(chain), s)
  {
    hide Script;
    if ops != [] {
      var n := |ops| - 1;
      assert ops[n] in ops;
      OthersKeepOrder(t, ops[..n], chain, s);
      var before := RunOps(t, ops[..n]);
      var cs := Script(ops[n].route);
      ExecKeepsOthers(before, cs, chain, s);
      forall c | c in Undo(cs) ensures c.rule in s {
        var i :| 0 <= i < |cs| && Undo(cs)[i] == c;
        assert cs[i] in cs;
      }
      ExecKeepsOthers(before, Undo(cs), chain, s);
    }
  }

  lemma {:induction false} AllOthers(rules: seq<Rule>, s: set<Rule>)
    requires forall r :: r in rules ==> r !in s
    ensures Others(rules, s) == rules
  {
    if rules != [] { AllOthers(rules[1..], s); }
  }

  lemma {:induction false} ScriptRules(cs: seq<Command>, chain: Chain, r: Rule)
    ensures r in RulesOf(cs, chain) ==> exists c :: c in cs && c.rule == r && c.chain == chain
  {
    if cs != [] {
      var n := |cs| - 1;
      ScriptRules(cs[..n], chain, r);
      if r in RulesOf(cs[..n], chain) {
        var c :| c in cs[..n] && c.rule == r && c.chain == chain;
        assert c in cs;
      } else if r in RulesOf(cs, chain) {
        assert cs[n] in cs && cs[n].rule == r;
      }
    }
  }

  /** Where no rule of a route is present beforehand, disabling the route undoes its enabling rule
      for rule, order included. */
  lemma {:induction false} DisableUndoes(t: Tables, r: Route, chain: Chain)
    requires forall c :: c in Script(r) ==> c.rule !in t.Of(chain)
    ensures Disable(Enable(t, r), r).Of(chain) == t.Of(chain)
  {
    hide Script, Added, Enable, Disable, Tables.Of, ExecAll;
    var s := set c | c in Script(r) :: c.rule;
    var cs, end := Script(r), Disable(Enable(t, r), r);
    EnableDisable(t, r, chain);
    EnableDisable(Enable(t, r), r, chain);
    Regroup(multiset(t.Of(chain)), Added(r, chain), multiset{});
    EnableIs(t, r);
    EnableIs(Enable(t, r), r);
    ExecKeepsOthers(t, cs, chain, s);
    forall c | c in Undo(cs) ensures c.rule in s {
      var i :| 0 <= i < |cs| && Undo(cs)[i] == c;
      assert cs[i] in cs;
    }
    ExecKeepsOthers(Enable(t, r), Undo(cs), chain, s);
    forall x | x in t.Of(chain) ensures x !in s {}
    forall x | x in end.Of(chain) ensures x !in s {
      assert x in multiset(end.Of(chain));
      assert x in t.Of(chain);
    }
    AllOthers(t.Of(chain), s);
    AllOthers(end.Of(chain), s);
  }

  // ---- the handlers

  class Handlers {
    var tables: Tables

    constructor (t: Tables)
      ensures tables == t
    {
      tables := t;
    }

    method Run(action: Action, chain: Chain, rule: Rule)
      modifies this
      ensures tables == Exec(old(tables), Command(action, chain, rule))
    {
      var rules := tables.Of(chain);
      match action {
        case Append => rules := rules + [rule];
        case Insert => rules := [rule] + rules;
        case Delete => rules := RemoveFirst(rules, rule);
      }
      tables := tables.With(chain, rules);
    }

    static method RemoveFirst(rules: seq<Rule>, rule: Rule) returns (r: seq<Rule>)
      ensures r == DeleteFirst(rules, rule)
    {
      hide DeleteFirst;
      var i := 0;
      assert rules[0..] == rules;
      while i < |rules| && rules[i] != rule
        invariant 0 <= i <= |rules|
        invariant DeleteFirst(rules, rule) == rules[..i] + DeleteFirst(rules[i..], rule)
      {
        DeleteStep(rules, i, rule);
        i := i + 1;
      }
      DeleteStep(rules, i, rule);
      if i < |rules| {
        r := rules[..i] + rules[i + 1..];
      } else {
        r := rules;
      }
    }

    /** inetsim_redirect_port */
    method InetsimRedirectPort(action: Action, srcip: string, dstip: string, ports: string)
      modifies this
      ensures tables == ExecAll(old(tables), RedirectScript(action, Words(ports, []), srcip, dstip))
    {
      hide ExecAll, Exec, RedirectRule, ValidEntry, Words;
      var entries := Words(ports, []);
      NoCommands(tables);
      for i := 0 to |entries|
        invariant tables == ExecAll(old(tables), RedirectScript(action, entries[..i], srcip, dstip))
      {
        assert entries[..i + 1][..i] == entries[..i] && entries[..i + 1][i] == entries[i];
        ghost var cs := RedirectScript(action, entries[..i], srcip, dstip);
        assert cs + [] == cs;
        if !ValidEntry(entries[i]) {
          continue;
        }
        ghost var c := Command(action, Prerouting, RedirectRule(entries[i], srcip, dstip));
        ExecAppend(old(tables), cs, [c]);
        ExecOne(tables, c);
        Run(action, Prerouting, RedirectRule(entries[i], srcip, dstip));
      }
      assert entries[..|entries|] == entries;
    }

    /** dns_forward */
    method DnsForward(action: Action, r: Route)
      requires r.Inetsim?
      modifies this
      ensures tables == ExecAll(old(tables), DnsScript(action, r))
    {
      hide Exec;
      var to := r.inetsimIp + ":" + r.dnsPort;
      Run(action, Prerouting, Dns("tcp", r.ip, to));
      Run(action, Prerouting, Dns("udp", r.ip, to));
      ExecTwo(old(tables), Command(action, Prerouting, Dns("tcp", r.ip, to)),
              Command(action, Prerouting, Dns("udp", r.ip, to)));
    }

    /** inetsim_enable */
    method InetsimEnable(r: Route)
      requires r.Inetsim?
      modifies this
      ensures tables == Enable(old(tables), r)
    {
      hide Exec, ExecAll, DnsScript, RedirectScript, Words;
      InetsimRedirectPort(Append, r.ip, r.inetsimIp, r.ports);
      ghost var t1 := tables;
      Run(Insert, Prerouting, Hijack(r.ip, r.resultPort, r.inetsimIp));
      Run(Append, Output, DropInvalidConntrack);
      Run(Append, Output, DropInvalidState);
      ghost var t2 := tables;
      DnsForward(Append, r);
      ghost var t3 := tables;
      Run(Append, Output, DropSource(r.ip));
      InetsimScript(old(tables), t1, t2, t3, tables, r);
    }

    /** drop_enable */
    method DropEnable(r: Route)
      requires r.Drop?
      modifies this
      ensures tables == Enable(old(tables), r)
    {
      hide Exec;
      Run(Insert, Prerouting, AcceptSyn(r.ip, r.resultPort));
      Run(Append, Input, AcceptToPort(r.ip, "8000"));
      Run(Append, Input, AcceptFromPort(r.ip, r.resultPort));
      Run(Append, Output, AcceptToPort(r.ip, "8000"));
      Run(Append, Output, AcceptFromPort(r.ip, r.resultPort));
      Run(Append, Output, DropDestination(r.ip));
      ExecSix(old(tables), Script(r));
    }

    /** drop_disable */
    method DropDisable(r: Route)
      requires r.Drop?
      modifies this
      ensures tables == Disable(old(tables), r)
    {
      hide Exec;
      Run(Delete, Prerouting, AcceptSyn(r.ip, r.resultPort));
      Run(Delete, Input, AcceptToPort(r.ip, "8000"));
      Run(Delete, Input, AcceptFromPort(r.ip, r.resultPort));
      Run(Delete, Output, AcceptToPort(r.ip, "8000"));
      Run(Delete, Output, AcceptFromPort(r.ip, r.resultPort));
      Run(Delete, Output, DropDestination(r.ip));
      ExecSix(old(tables), Undo(Script(r)));
    }

    /** inetsim_disable */
    method InetsimDisable(r: Route)
      requires r.Inetsim?
      modifies this
      ensures tables == Disable(old(tables), r)
    {
      hide Exec, ExecAll, DnsScript, RedirectScript, Words;
      InetsimRedirectPort(Delete, r.ip, r.inetsimIp, r.ports);
      ghost var t1 := tables;
      Run(Delete, Prerouting, Hijack(r.ip, r.resultPort, r.inetsimIp));
      Run(Delete, Output, DropInvalidConntrack);
      Run(Delete, Output, DropInvalidState);
      ghost var t2 := tables;
      DnsForward(Delete, r);
      ghost var t3 := tables;
      Run(Delete, Output, DropSource(r.ip));
      InetsimUndo(old(tables), t1, t2, t3, tables, r);
    }
  }

  // ---- from commands run one by one to scripts

  lemma {:induction false} ExecTwo(t: Tables, a: Command, b: Command)
    ensures ExecAll(t, [a, b]) == Exec(Exec(t, a), b)
  {
    hide Exec, ExecAll;
    assert [a, b] == [a] + [b];
    ExecAppend(t, [a], [b]);
    ExecOne(t, a);
    ExecOne(Exec(t, a), b);
  }

  lemma {:induction false} ExecThree(t: Tables, a: Command, b: Command, c: Command)
    ensures ExecAll(t, [a, b, c]) == Exec(Exec(Exec(t, a), b), c)
  {
    hide Exec;
    ExecTwo(t, a, b);
    assert [a, b, c][..2] == [a, b];
  }

  lemma {:induction false} ExecSix(t: Tables, cs: seq<Command>)
    requires |cs| == 6
    ensures ExecAll(t, cs) == Exec(Exec(Exec(Exec(Exec(Exec(t, cs[0]), cs[1]), cs[2]), cs[3]), cs[4]), cs[5])
  {
    hide Exec;
    var x, y := [cs[0], cs[1], cs[2]], [cs[3], cs[4], cs[5]];
    assert cs == x + y;
    ExecAppend(t, x, y);
    ExecThree(t, cs[0], cs[1], cs[2]);
    ExecThree(ExecAll(t, x), cs[3], cs[4], cs[5]);
  }

  /** The three commands in the middle of the inetsim scripts. */
  function Middle(r: Route): seq<Command>
    requires r.Inetsim?
  {
    [ Command(Insert, Prerouting, Hijack(r.ip, r.resultPort, r.inetsimIp)),
      Command(Append, Output, DropInvalidConntrack),
      Command(Append, Output, DropInvalidState) ]
  }

  lemma {:induction false} InetsimScript(t0: Tables, t1: Tables, t2: Tables, t3: Tables, t4: Tables, r: Route)
    requires r.Inetsim?
    requires t1 == ExecAll(t0, RedirectScript(Append, Words(r.ports, []), r.ip, r.inetsimIp))
    requires t2 == Exec(Exec(Exec(t1, Middle(r)[0]), Middle(r)[1]), Middle(r)[2])
    requires t3 == ExecAll(t2, DnsScript(Append, r))
    requires t4 == Exec(t3, Command(Append, Output, DropSource(r.ip)))
    ensures t4 == Enable(t0, r)
  {
    hide Exec, ExecAll, RedirectScript, Words, DnsScript;
    var a, b, c, d := RedirectScript(Append, Words(r.ports, []), r.ip, r.inetsimIp), Middle(r), DnsScript(Append, r),
                      [Command(Append, Output, DropSource(r.ip))];
    ExecThree(t1, b[0], b[1], b[2]);
    ExecOne(t3, d[0]);
    ExecFour(t0, a, b, c, d);
  }

  lemma {:induction false} ExecFour(t: Tables, a: seq<Command>, b: seq<Command>, c: seq<Command>, d: seq<Command>)
    ensures ExecAll(t, a + b + c + d) == ExecAll(ExecAll(ExecAll(ExecAll(t, a), b), c), d)
  {
    ExecAppend(t, a, b);
    ExecAppend(t, a + b, c);
    ExecAppend(t, a + b + c, d);
  }

  lemma {:induction false} UndoAppend(a: seq<Command>, b: seq<Command>)
    ensures Undo(a + b) == Undo(a) + Undo(b)
  {}

  lemma {:induction false} UndoRedirect(entries: seq<string>, srcip: string, dstip: string)
    ensures Undo(RedirectScript(Append, entries, srcip, dstip)) == RedirectScript(Delete, entries, srcip, dstip)
  {
    hide ValidEntry, RedirectRule;
    if entries != [] {
      var n := |entries| - 1;
      UndoRedirect(entries[..n], srcip, dstip);
      if ValidEntry(entries[n]) {
        UndoAppend(RedirectScript(Append, entries[..n], srcip, dstip),
                   [Command(Append, Prerouting, RedirectRule(entries[n], srcip, dstip))]);
      }
    }
  }

  lemma {:induction false} InetsimUndo(t0: Tables, t1: Tables, t2: Tables, t3: Tables, t4: Tables, r: Route)
    requires r.Inetsim?
    requires t1 == ExecAll(t0, RedirectScript(Delete, Words(r.ports, []), r.ip, r.inetsimIp))
    requires t2 == Exec(Exec(Exec(t1, Undo(Middle(r))[0]), Undo(Middle(r))[1]), Undo(Middle(r))[2])
    requires t3 == ExecAll(t2, DnsScript(Delete, r))
    requires t4 == Exec(t3, Command(Delete, Output, DropSource(r.ip)))
    ensures t4 == Disable(t0, r)
  {
    hide Exec, ExecAll, RedirectScript, Words;
    var a, b, c, d := RedirectScript(Append, Words(r.ports, []), r.ip, r.inetsimIp), Middle(r), DnsScript(Append, r),
                      [Command(Append, Output, DropSource(r.ip))];
    UndoRedirect(Words(r.ports, []), r.ip, r.inetsimIp);
    UndoAppend(a, b);
    UndoAppend(a + b, c);
    UndoAppend(a + b + c, d);
    ExecThree(t1, Undo(b)[0], Undo(b)[1], Undo(b)[2]);
    assert Undo(b) == [Undo(b)[0], Undo(b)[1], Undo(b)[2]];
    assert Undo(c) == DnsScript(Delete, r);
    assert Undo(d) == [Command(Delete, Output, DropSource(r.ip))];
    ExecOne(t3, Undo(d)[0]);
    ExecFour(t0, Undo(a), Undo(b), Undo(c), Undo(d));
  }
}
