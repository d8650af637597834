/** ParseProcessLog: the restartable iterator over one process log, with and without the cache
    that the `ram_boost` setting turns on. */
module ProcessLog {
  import opened Wrappers
  import opened CallRuns
  import opened LogTables

  /** The specification of a pass: folded calls up to the limit, numbered from zero. */
  function FullPass(msgs: seq<Message>, known: Infomap, limit: nat): seq<Emitted> {
    Number(Limited(PassOf(Events(msgs, known)), limit), 0)
  }

  /** What a pass tells: the calls are numbered from zero, and each is the call that some message of
      the log makes, its count raised by what was folded into it. */
  lemma {:induction false} PassTells(msgs: seq<Message>, known: Infomap, limit: nat, k: nat)
    returns (i: nat, made: Call)
    requires k < |FullPass(msgs, known, limit)|
    ensures var e := FullPass(msgs, known, limit)[k];
      && e.id == k && Makes(msgs, known, i, made)
      && made.sig == e.call.sig && made.context == e.call.context && made.repeated <= e.call.repeated
    ensures limit > 0 ==> |FullPass(msgs, known, limit)| <= limit
  {
    hide Events, Makes, Delivered, Segments;
    var evs := Events(msgs, known);
    var c := FullPass(msgs, known, limit)[k].call;
    assert c in PassOf(evs);
    made := DeliveredOrigin(Segments(evs), c);
    SegmentsCalls(evs);
    CallsMember(evs, made);
    EventsLength(msgs, known);
    i :| 0 <= i < |evs| && evs[i] == Called(made);
    EventIff(msgs, known, i, made);
  }

  /** A limit cuts the pass off after so many calls and changes nothing before. */
  lemma {:induction false} PassLimit(msgs: seq<Message>, known: Infomap, limit: nat)
    ensures var all := FullPass(msgs, known, 0);
      FullPass(msgs, known, limit) == if limit == 0 || |all| <= limit then all else all[..limit]
  {
    hide PassOf, Events;
  }

  /** Without broken messages and without a limit the pass loses nothing: expanded, it is every call
      that the messages of the log make, in order. */
  lemma {:induction false} PassTellsAll(msgs: seq<Message>, known: Infomap)
    requires Broken !in msgs
    ensures Expand(Folded(FullPass(msgs, known, 0))) == Expand(Calls(Events(msgs, known)))
    ensures forall c :: c in Calls(Events(msgs, known)) <==> exists i :: Makes(msgs, known, i, c)
  {
    hide Events, Makes, Segments, RunMerge, Delivered, Expand;
    var evs := Events(msgs, known);
    EventsLength(msgs, known);
    forall j | 0 <= j < |evs| ensures !evs[j].Refused? {
      assert msgs[j] in msgs;
      EventIff(msgs, known, j, Call(Sig("", false, [], ""), "", 0));
    }
    PassWithoutRefusals(evs);
    SegmentsCalls(evs);
    MergeExpand(Segments(evs)[0]);
    FoldedNumber(PassOf(evs), 0);
    forall c ensures c in Calls(evs) <==> exists i :: Makes(msgs, known, i, c) {
      CallsMade(msgs, known, c);
    }
  }

  lemma {:induction false} CallsMade(msgs: seq<Message>, known: Infomap, c: Call)
    ensures c in Calls(Events(msgs, known)) <==> exists i :: Makes(msgs, known, i, c)
  {
    hide Events, Makes, Calls;
    var evs := Events(msgs, known);
    EventsLength(msgs, known);
    CallsMember(evs, c);
    if i :| Makes(msgs, known, i, c) {
      MakesWithin(msgs, known, i, c);
      EventIff(msgs, known, i, c);
    }
    if i :| 0 <= i < |evs| && evs[i] == Called(c) {
      EventIff(msgs, known, i, c);
    }
  }

  lemma {:induction false} MakesWithin(msgs: seq<Message>, known: Infomap, i: nat, c: Call)
    requires Makes(msgs, known, i, c)
    ensures i < |msgs|
  {}

  /** The calls of a pass without their numbers. */
  function Folded(s: seq<Emitted>): seq<Call> {
    if s == [] then [] else [s[0].call] + Folded(s[1..])
  }

  lemma {:induction false} FoldedNumber(s: seq<Call>, start: nat)
    ensures Folded(Number(s, start)) == s
  {
    if s != [] {
      FoldedNumber(s[1..], start + 1);
      assert Number(s, start)[1..] == Number(s[1..], start + 1);
    }
  }

  // ---- what is still to come in a pass

  /** The rest of a pass with `last` looked ahead and `evs` unread. */
  function Coming(last: Option<Call>, evs: seq<Event>): seq<Call> {
    if last.None? then PassOf(evs) else Delivered(Prepend(last.value, Segments(evs)))
  }

  /** The rest under the limit, `count` calls having been delivered. */
  function Allowed(s: seq<Call>, limit: nat, count: nat): seq<Call> {
    if limit == 0 then s
    else if count >= limit then []
    else Limited(s, limit - count)
  }

  lemma {:induction false} EventsUnfold(msgs: seq<Message>, pos: nat, known: Infomap)
    requires pos < |msgs|
    ensures Events(msgs[pos..], known)
         == [Decode(msgs[pos], known)] + Events(msgs[pos + 1..], Learn(msgs[pos], known))
  {}

  lemma {:induction false} NoEvents(known: Infomap)
    ensures Events([], known) == [] && Segments([]) == [[]]
    ensures Delivered(Segments([])[1..]) == PassOf([])
  {}

  lemma {:induction false} SegmentsUnfold(e: Event, evs: seq<Event>)
    ensures Segments([e] + evs) == match e
      case Quiet => Segments(evs)
      case Called(c) => Prepend(c, Segments(evs))
      case Refused => [[]] + Segments(evs)
  {}

  datatype Outcome = Yield(e: Emitted) | StopIteration | AttributeError

  class ParseProcessLog {
    const msgs: seq<Message>
    const hasFile: bool
    const apiLimit: nat
    const ramBoost: bool
    var pos: nat
    var infomap: Infomap
    var lastcall: Option<Call>
    var apiCount: nat
    var callId: nat
    var apiPointer: nat
    var apiCallCache: seq<Option<Emitted>>

    ghost predicate Valid()
      reads this`pos, this`apiCount, this`callId
    {
      && pos <= |msgs|
      && (apiLimit > 0 ==> apiCount <= apiLimit)
      && apiCount == callId
    }

    ghost predicate AtStart()
      reads this
    {
      pos == 0 && lastcall == None && apiCount == callId == 0
    }

    ghost function Unread(): seq<Event>
      requires Valid()
      reads this`pos, this`infomap, this`apiCount, this`callId
    {
      Events(msgs[pos..], infomap)
    }

    /** The table once everything unread is read. */
    ghost function Final(): Infomap
      requires Valid()
      reads this`pos, this`infomap, this`apiCount, this`callId
    {
      LearnAll(msgs[pos..], infomap)
    }

    /** What the uncached iterator delivers before it next stops. */
    ghost function Upcoming(): seq<Emitted>
      requires Valid()
      reads this`pos, this`infomap, this`lastcall, this`apiCount, this`callId
    {
      Number(Allowed(Coming(lastcall, Unread()), apiLimit, apiCount), callId)
    }

    /** With the cache on: the calls of one pass, closed by a None that the pointer never passes. */
    ghost predicate Cached()
      reads this
    {
      && apiPointer < |apiCallCache|
      && apiCallCache[|apiCallCache| - 1].None?
      && (forall i :: 0 <= i < |apiCallCache| - 1 ==> apiCallCache[i].Some?)
    }

    ghost predicate Ready()
      reads this
    {
      Valid() && (ramBoost ==> Cached())
    }

    /** What the iterator delivers before it next stops, whichever way it works. */
    ghost function Pending(): seq<Emitted>
      requires Ready()
      reads this
    {
      if ramBoost then Values(apiCallCache[apiPointer..])
      else if hasFile then Upcoming()
      else []
    }

    /** What the pass after that starts with. */
    ghost function NextPass(): seq<Emitted>
      reads this
    {
      if ramBoost then Values(apiCallCache) else FullPass(msgs, infomap, apiLimit)
    }

    lemma {:induction false} UpcomingAtStart()
      requires Valid() && AtStart()
      ensures Upcoming() == FullPass(msgs, infomap, apiLimit)
    {}

    /** `reset` seeks to the start of the log; without a log file there is nothing to seek in. */
    method Reset()
      requires hasFile && Valid()
      modifies this`pos, this`apiCount, this`lastcall, this`callId, this`apiPointer
      ensures Valid() && AtStart() && apiPointer == 0
    {
      pos := 0;
      apiCount := 0;
      lastcall := None;
      callId := 0;
      apiPointer := 0;
    }

    /** Reads messages until one gives a call, the parser refuses one, or the log ends. */
    method WaitForLastcall() returns (found: bool)
      requires Valid()
      modifies this`pos, this`infomap, this`lastcall
      ensures Valid() && found == lastcall.Some?
      ensures old(lastcall).Some? ==> lastcall == old(lastcall) && Unread() == old(Unread()) && infomap == old(infomap)
      ensures old(lastcall).None? && found ==>
        Segments(old(Unread())) == Prepend(lastcall.value, Segments(Unread()))
      ensures !found ==> Segments(old(Unread()))[0] == []
      ensures !found ==> Delivered(Segments(old(Unread()))[1..]) == PassOf(Unread())
      ensures pos >= old(pos) && (old(lastcall).None? && found ==> pos > old(pos))
      ensures FromLog(msgs, old(infomap), infomap) && Final() == old(Final())
      ensures !found && Broken !in msgs ==> infomap == Final()
    {
      hide Delivered, Segments, Events, Decode, Learn, FromLog, LearnAll;
      FromLogSelf(msgs, infomap);
      found := lastcall.Some?;
      while lastcall.None?
        invariant Valid() && found == lastcall.Some?
        invariant pos >= old(pos) && (old(lastcall).None? && found ==> pos > old(pos))
        invariant old(lastcall).Some? ==>
          lastcall == old(lastcall) && Unread() == old(Unread()) && infomap == old(infomap)
        invariant old(lastcall).None? && lastcall.None? ==> Segments(Unread()) == Segments(old(Unread()))
        invariant old(lastcall).None? && lastcall.Some? ==>
          Segments(old(Unread())) == Prepend(lastcall.value, Segments(Unread()))
        invariant FromLog(msgs, old(infomap), infomap) && Final() == old(Final())
        decreases |msgs| - pos, lastcall.None?
      {
        if pos == |msgs| {
          NoEvents(infomap);
          NothingLearnt(infomap);
          assert msgs[pos..] == [];
          return false;
        }
        EventsUnfold(msgs, pos, infomap);
        var m := msgs[pos];
        var e := Decode(m, infomap);
        FromLogLearn(msgs, old(infomap), infomap, pos);
        LearnUnfold(msgs, pos, infomap);
        RefusedIsBroken(m, infomap);
        SegmentsUnfold(e, Events(msgs[pos + 1..], Learn(m, infomap)));
        infomap := Learn(m, infomap);
        pos := pos + 1;
        match e
        case Quiet =>
        case Refused =>
          assert ([[]] + Segments(Unread()))[1..] == Segments(Unread());
          return false;
        case Called(c) =>
          lastcall := Some(c);
          found := true;
      }
    }

    /** The state after the log's process was identified: its file is back at the start, and `known`
        holds what the parser learnt on the way. With the cache on, one pass fills it. */
    constructor (msgs: seq<Message>, hasFile: bool, known: Infomap, apiLimit: nat, ramBoost: bool)
      ensures Ready() && this.msgs == msgs && this.hasFile == hasFile
      ensures this.apiLimit == apiLimit && this.ramBoost == ramBoost
      ensures Pending() == if hasFile then FullPass(msgs, known, apiLimit) else []
      ensures hasFile ==> NextPass() == FullPass(msgs, known, apiLimit)
      ensures FromLog(msgs, known, infomap) && (!ramBoost ==> AtStart() && infomap == known)
    {
      this.msgs, this.hasFile, this.apiLimit, this.ramBoost := msgs, hasFile, apiLimit, ramBoost;
      pos, infomap, lastcall, apiCount, callId, apiPointer, apiCallCache := 0, known, None, 0, 0, 0, [];
      new;
      FromLogSelf(msgs, known);
      UpcomingAtStart();
      if ramBoost && hasFile {
        FillCache();
      } else if ramBoost {
        apiCallCache := [None];  // the loop that fills the cache stops at its first call
      }
    }

    method FillCache()
      requires hasFile && Valid() && AtStart() && apiPointer == 0 && apiCallCache == []
      modifies this
      ensures Valid() && Cached() && apiPointer == 0
      ensures Values(apiCallCache) == old(Upcoming()) && FromLog(msgs, old(infomap), infomap)
    {
      hide Values, Upcoming, FullPass, Number, Cached, FromLog, LearnAll;
      ValuesOfEnd();
      FromLogSelf(msgs, infomap);
      while true
        invariant Valid() && apiPointer == 0
        invariant forall i :: 0 <= i < |apiCallCache| ==> apiCallCache[i].Some?
        invariant Values(apiCallCache) + Upcoming() == old(Upcoming()) && FromLog(msgs, old(infomap), infomap)
        decreases |Upcoming()|
      {
        ghost var known := infomap;
        var i := CachelessNext();
        FromLogTwice(msgs, old(infomap), known, infomap);
        if i.None? {
          assert Values(apiCallCache) == old(Upcoming());
          break;
        }
        Append(i.value);
      }
      ValuesSnoc(apiCallCache, [None]);
      apiCallCache := apiCallCache + [None];
      EndMarked();
    }

    method Append(e: Emitted)
      requires Valid() && forall i :: 0 <= i < |apiCallCache| ==> apiCallCache[i].Some?
      modifies this`apiCallCache
      ensures Upcoming() == old(Upcoming())
      ensures forall i :: 0 <= i < |apiCallCache| ==> apiCallCache[i].Some?
      ensures Values(apiCallCache) == old(Values(apiCallCache)) + [e]
    {
      hide Values, Upcoming;
      ValuesSnoc(apiCallCache, [Some(e)]);
      ValuesOfOne(e);
      apiCallCache := apiCallCache + [Some(e)];
    }

    lemma {:induction false} EndMarked()
      requires apiPointer == 0 && |apiCallCache| > 0 && apiCallCache[|apiCallCache| - 1].None?
      requires forall i :: 0 <= i < |apiCallCache| - 1 ==> apiCallCache[i].Some?
      ensures Cached()
    {}

    /** Takes the call looked ahead and folds the run it starts, looking one call further. */
    method FoldRun() returns (nextcall: Call)
      requires Valid() && lastcall.Some?
      modifies this`pos, this`infomap, this`lastcall
      ensures Valid()
      ensures Coming(old(lastcall), old(Unread())) == [nextcall] + Coming(lastcall, Unread())
      ensures FromLog(msgs, old(infomap), infomap) && Final() == old(Final())
    {
      hide Delivered, Segments, PassOf, Events, FromLog, LearnAll;
      ghost var total := Coming(lastcall, Unread());
      nextcall := lastcall.value;
      ghost var mid := Unread();
      lastcall := None;
      var found := WaitForLastcall();
      LookedAhead(nextcall, mid, lastcall, Unread());
      while lastcall.Some? && CompareCalls(nextcall, lastcall.value)
        invariant Valid()
        invariant total == Held(nextcall, lastcall, Unread())
        invariant FromLog(msgs, old(infomap), infomap) && Final() == old(Final())
        decreases |msgs| - pos, lastcall.Some?
      {
        HeldAbsorb(nextcall, lastcall.value, Unread());
        nextcall := nextcall.(repeated := nextcall.repeated + lastcall.value.repeated + 1);
        mid := Unread();
        ghost var known := infomap;
        lastcall := None;
        found := WaitForLastcall();
        FromLogTwice(msgs, old(infomap), known, infomap);
        LookedAhead(nextcall, mid, lastcall, Unread());
      }
      HeldKeep(nextcall, lastcall, Unread());
    }

    /** One call of the uncached iterator. */
    method CachelessNext() returns (r: Option<Emitted>)
      requires hasFile && Valid()
      modifies this`pos, this`infomap, this`lastcall, this`apiCount, this`callId, this`apiPointer
      ensures Valid()
      ensures old(Upcoming()) == [] ==> r == None && AtStart() && apiPointer == 0
      ensures old(Upcoming()) != [] ==> r == Some(old(Upcoming())[0])
      ensures old(Upcoming()) != [] ==> Upcoming() == old(Upcoming())[1..] && apiPointer == old(apiPointer)
      ensures FromLog(msgs, old(infomap), infomap) && (r.Some? ==> Final() == old(Final()))
      ensures r.None? && apiLimit == 0 && Broken !in msgs ==> infomap == old(Final())
    {
      hide Delivered, Segments, PassOf, Events, Coming, Allowed, Number, FromLog, LearnAll;
      ghost var total := Coming(lastcall, Unread());
      ghost var unread := Unread();
      UpcomingStep(total, apiLimit, apiCount, callId);
      var found := WaitForLastcall();
      WaitKeepsComing(old(lastcall), unread, lastcall, Unread());
      if !found {
        Reset();
        return None;
      }
      ComingHead(lastcall.value, Unread());
      if apiLimit > 0 && apiCount + 1 > apiLimit {
        Reset();
        return None;
      }
      ghost var known := infomap;
      var nextcall := FoldRun();
      FromLogTwice(msgs, old(infomap), known, infomap);
      assert total[1..] == Coming(lastcall, Unread());
      r := Some(Emitted(nextcall, callId));
      apiCount := apiCount + 1;
      callId := callId + 1;
    }

    /** __next__ */
    method Next() returns (r: Outcome)
      requires Ready()
      modifies this`pos, this`infomap, this`lastcall, this`apiCount, this`callId, this`apiPointer
      ensures Ready()
      ensures old(Pending()) != [] ==> r == Yield(old(Pending())[0]) && Pending() == old(Pending())[1..]
      ensures old(Pending()) == [] && hasFile ==> r == StopIteration && Pending() == NextPass()
      ensures old(Pending()) == [] && !hasFile ==> r == (if ramBoost then AttributeError else StopIteration)
      ensures FromLog(msgs, old(infomap), infomap) && (!ramBoost && r.Yield? ==> Final() == old(Final()))
      ensures !ramBoost && hasFile && r.StopIteration? ==> AtStart()
      ensures !ramBoost && hasFile && r.StopIteration? && apiLimit == 0 && Broken !in msgs ==> infomap == old(Final())
    {
      FromLogSelf(msgs, infomap);
      if !ramBoost {
        if !hasFile {
          return StopIteration;
        }
        var n := CachelessNext();
        if n.None? {
          UpcomingAtStart();
          return StopIteration;
        }
        return Yield(n.value);
      }
      var res := apiCallCache[apiPointer];
      assert apiCallCache[apiPointer..][0] == res;
      if res.None? {
        if !hasFile {
          return AttributeError;
        }
        Reset();
        assert apiCallCache[0..] == apiCallCache;
        return StopIteration;
      }
      assert apiCallCache[apiPointer..][1..] == apiCallCache[apiPointer + 1..];
      apiPointer := apiPointer + 1;
      r := Yield(res.value);
    }

    /** A consumer's loop over the iterator. */
    method Pass() returns (calls: seq<Emitted>)
      requires Ready() && hasFile
      modifies this`pos, this`infomap, this`lastcall, this`apiCount, this`callId, this`apiPointer
      ensures Ready() && calls == old(Pending()) && Pending() == NextPass() && FromLog(msgs, old(infomap), infomap)
      ensures !ramBoost ==> AtStart()
      ensures !ramBoost && apiLimit == 0 && Broken !in msgs ==> infomap == old(Final())
    {
      hide Events, LearnAll, FullPass, Coming, Allowed, Number, Values, FromLog, ParseProcessLog.Pending,
           ParseProcessLog.NextPass, ParseProcessLog.Upcoming, ParseProcessLog.Final, ParseProcessLog.Cached;
      calls := [];
      FromLogSelf(msgs, infomap);
      while true
        invariant Ready() && calls + Pending() == old(Pending()) && FromLog(msgs, old(infomap), infomap)
        invariant !ramBoost ==> Final() == old(Final())
        decreases |Pending()|
      {
        ghost var known := infomap;
        var r := Next();
        FromLogTwice(msgs, old(infomap), known, infomap);
        if r.StopIteration? {
          return;
        }
        calls := calls + [r.e];
      }
    }
  }

  /** The entries of the cache up to its end mark. */
  function Values(cache: seq<Option<Emitted>>): seq<Emitted> {
    if cache == [] || cache[0].None? then [] else [cache[0].value] + Values(cache[1..])
  }

  lemma {:induction false} ValuesOfEnd()
    ensures Values([]) == [] && Values([None]) == []
  {}

  lemma {:induction false} ValuesOfOne(e: Emitted)
    ensures Values([Some(e)]) == [e]
  {}

  lemma {:induction false} ValuesSnoc(cache: seq<Option<Emitted>>, tail: seq<Option<Emitted>>)
    requires forall i :: 0 <= i < |cache| ==> cache[i].Some?
    ensures Values(cache + tail) == Values(cache) + Values(tail)
  {
    if cache == [] {
      assert cache + tail == tail;
    } else {
      ValuesSnoc(cache[1..], tail);
      assert (cache + tail)[1..] == cache[1..] + tail;
    }
  }

  lemma {:induction false} WaitKeepsComing(before: Option<Call>,
      unread: seq<Event>, last: Option<Call>, after: seq<Event>)
    requires before.Some? ==> last == before && after == unread
    requires before.None? && last.Some? ==> Segments(unread) == Prepend(last.value, Segments(after))
    requires last.None? ==> Segments(unread)[0] == []
    ensures Coming(before, unread) == if last.None? then [] else Coming(last, after)
  {}

  lemma {:induction false} UpcomingStep(s: seq<Call>, limit: nat, count: nat, id: nat)
    ensures Number(Allowed(s, limit, count), id) ==
      if s == [] || (limit > 0 && count >= limit) then []
      else [Emitted(s[0], id)] + Number(Allowed(s[1..], limit, count + 1), id + 1)
  {}

  /** The rest of a pass with `n` in hand, not yet delivered, and `last` looked ahead. */
  function Held(n: Call, last: Option<Call>, evs: seq<Event>): seq<Call> {
    if last.None? then [n] + PassOf(evs) else Delivered(Prepend(n, Prepend(last.value, Segments(evs))))
  }

  lemma {:induction false} ComingHead(c: Call, evs: seq<Event>)
    ensures Coming(Some(c), evs) != []
  {}

  lemma {:induction false} LookedAhead(n: Call, mid: seq<Event>, last: Option<Call>, after: seq<Event>)
    requires last.Some? ==> Segments(mid) == Prepend(last.value, Segments(after))
    requires last.None? ==> Segments(mid)[0] == [] && Delivered(Segments(mid)[1..]) == PassOf(after)
    ensures Delivered(Prepend(n, Segments(mid))) == Held(n, last, after)
  {
    if last.None? {
      assert [n] + Segments(mid)[0] == [n];
      assert RunMerge([n]) == [n];
    }
  }

  lemma {:induction false} HeldAbsorb(n: Call, l: Call, evs: seq<Event>)
    requires CompareCalls(n, l)
    ensures Held(n, Some(l), evs) == Delivered(Prepend(n.(repeated := n.repeated + l.repeated + 1), Segments(evs)))
  {
    MergeAbsorb(n, l, Segments(evs)[0]);
  }

  lemma {:induction false} HeldKeep(n: Call, last: Option<Call>, evs: seq<Event>)
    requires last.Some? ==> !CompareCalls(n, last.value)
    ensures Held(n, last, evs) == [n] + Coming(last, evs)
  {}

  lemma {:induction false} FromLogSelf(msgs: seq<Message>, known: Infomap)
    ensures FromLog(msgs, known, known)
  {}

  lemma {:induction false} LearnUnfold(msgs: seq<Message>, pos: nat, known: Infomap)
    requires pos < |msgs|
    ensures LearnAll(msgs[pos..], known) == LearnAll(msgs[pos + 1..], Learn(msgs[pos], known))
  {}

  lemma {:induction false} RefusedIsBroken(m: Message, known: Infomap)
    ensures Decode(m, known).Refused? ==> m == Broken
  {}

  // ---- opening a log

  /** parse_first_and_reset reads up to the message that identifies the process. */
  method ParseFirst(msgs: seq<Message>) returns (known: Option<Infomap>)
    ensures known == FirstKnown(msgs, map[])
  {
    var table: Infomap := map[];
    assert msgs[0..] == msgs;
    for pos := 0 to |msgs|
      invariant FirstKnown(msgs[pos..], table) == FirstKnown(msgs, map[])
    {
      if Identifies(msgs[pos], table) {
        return Some(table);
      }
      table := Learn(msgs[pos], table);
    }
    known := None;
  }

  /** Opening a log: a file that ends before its process message raises EOFError, here None. */
  method Open(msgs: seq<Message>, hasFile: bool, apiLimit: nat, ramBoost: bool) returns (log: Option<ParseProcessLog>)
    ensures log.None? <==> hasFile && FirstKnown(msgs, map[]).None?
    ensures log.Some? ==>
      && fresh(log.value) && log.value.Ready() && log.value.msgs == msgs && log.value.hasFile == hasFile
      && log.value.apiLimit == apiLimit && log.value.ramBoost == ramBoost
    ensures log.Some? && hasFile ==>
      && log.value.Pending() == log.value.NextPass() == FullPass(msgs, FirstKnown(msgs, map[]).value, apiLimit)
      && FromLog(msgs, FirstKnown(msgs, map[]).value, log.value.infomap)
      && (!ramBoost ==> log.value.AtStart() && log.value.infomap == FirstKnown(msgs, map[]).value)
    ensures log.Some? && !hasFile ==> log.value.Pending() == []
  {
    var known: Infomap := map[];
    if hasFile {
      var first := ParseFirst(msgs);
      if first.None? {
        return None;
      }
      known := first.value;
    }
    var reader := new ParseProcessLog(msgs, hasFile, known, apiLimit, ramBoost);
    log := Some(reader);
  }

  // ---- many passes

  /** Any number of passes over a log in which nothing changes what a call means: each delivers the
      folded calls up to the limit, numbered from zero, with the cache or without. */
  method ManyPasses(log: ParseProcessLog, ghost known: Infomap, n: nat) returns (results: seq<seq<Emitted>>)
    requires log.Ready() && log.hasFile && NoLateMeaning(log.msgs, known) && FromLog(log.msgs, known, log.infomap)
    requires log.Pending() == log.NextPass() == FullPass(log.msgs, known, log.apiLimit)
    modifies log
    ensures |results| == n && forall i :: 0 <= i < n ==> results[i] == FullPass(log.msgs, known, log.apiLimit)
  {
    hide NoLateMeaning, FromLog, Events;
    results := [];
    while |results| < n
      invariant log.Ready() && |results| <= n && FromLog(log.msgs, known, log.infomap)
      invariant log.Pending() == log.NextPass() == FullPass(log.msgs, known, log.apiLimit)
      invariant forall i :: 0 <= i < |results| ==> results[i] == FullPass(log.msgs, known, log.apiLimit)
    {
      ghost var before := log.infomap;
      var calls := log.Pass();
      FromLogTwice(log.msgs, known, before, log.infomap);
      NoLateMeaningReads(log.msgs, known, log.infomap);
      results := results + [calls];
    }
  }

  /** One pass over a whole log. */
  method WholePass(log: ParseProcessLog) returns (calls: seq<Emitted>)
    requires log.Ready() && log.hasFile && !log.ramBoost && log.AtStart() && log.apiLimit == 0 && Broken !in log.msgs
    modifies log
    ensures log.Ready() && log.AtStart() && calls == FullPass(log.msgs, old(log.infomap), 0)
    ensures log.infomap == LearnAll(log.msgs, old(log.infomap))
  {
    hide LearnAll, FullPass, Events, FromLog;
    log.UpcomingAtStart();
    assert log.msgs[0..] == log.msgs;
    calls := log.Pass();
  }

  /** Passes over a whole log, with no limit and nothing refused: the first reads it under the table
      it was opened with, all later ones under the table that the whole log leaves. */
  method WholePasses(log: ParseProcessLog, n: nat) returns (results: seq<seq<Emitted>>)
    requires log.Ready() && log.hasFile && !log.ramBoost && log.AtStart() && log.apiLimit == 0 && Broken !in log.msgs
    modifies log
    ensures |results| == n
    ensures forall i :: 0 <= i < n ==> results[i] == FullPass(log.msgs, Readings(log.msgs, old(log.infomap), i), 0)
    ensures forall i :: 0 < i < n ==>
      results[i] == FullPass(log.msgs, LearnAll(log.msgs, old(log.infomap)), 0)
  {
    hide LearnAll, FullPass, Events, FromLog;
    results := [];
    while |results| < n
      invariant log.Ready() && log.AtStart() && |results| <= n
      invariant log.infomap == Readings(log.msgs, old(log.infomap), |results|)
      invariant forall i :: 0 <= i < |results| ==>
        results[i] == FullPass(log.msgs, Readings(log.msgs, old(log.infomap), i), 0)
      invariant forall i :: 0 < i < |results| ==>
        results[i] == FullPass(log.msgs, LearnAll(log.msgs, old(log.infomap)), 0)
    {
      ReadingsSettle(log.msgs, old(log.infomap), |results|);
      var calls := WholePass(log);
      results := results + [calls];
    }
  }

  /** With the cache, passes agree even over a log that explains its calls late. */
  method ManyCachedPasses(log: ParseProcessLog, n: nat) returns (results: seq<seq<Emitted>>)
    requires log.Ready() && log.hasFile && log.ramBoost && log.Pending() == log.NextPass()
    modifies log
    ensures |results| == n && forall i :: 0 <= i < n ==> results[i] == old(log.Pending())
  {
    ghost var cache := log.apiCallCache;
    results := [];
    while |results| < n
      invariant log.Ready() && |results| <= n && log.apiCallCache == cache
      invariant log.Pending() == log.NextPass() == old(log.Pending())
      invariant forall i :: 0 <= i < |results| ==> results[i] == old(log.Pending())
    {
      var calls := log.Pass();
      results := results + [calls];
    }
  }

  // ---- a late explanation

  const PROCESS_INFO := Info(0, ApiInfo("__process__", ["ProcessIdentifier"]))
  const PROCESS := Api(0, ["1234"], true, "0", 0, "")
  const EARLY_CALL := Api(1, [], true, "0", 0, "")
  const LATE_INFO := Info(1, ApiInfo("NtClose", []))

  /** A log that opens with its process, makes a call and explains it afterwards. */
  function LateLog(): seq<Message> {
    [PROCESS_INFO, PROCESS, EARLY_CALL, LATE_INFO]
  }

  lemma {:induction false} LateEvents(known: Infomap)
    requires 0 in known && known[0] == PROCESS_INFO.info
    ensures Events(LateLog(), known) == [Quiet, Quiet, Decode(EARLY_CALL, known), Quiet]
    ensures LearnAll(LateLog(), known) == known[1 := LATE_INFO.info]
  {
    var l := LateLog();
    assert l[0..] == l && l[4..] == [];
    assert known[0 := PROCESS_INFO.info] == known;
    var later := known[1 := LATE_INFO.info];
    EventsUnfold(l, 0, known);
    EventsUnfold(l, 1, known);
    EventsUnfold(l, 2, known);
    EventsUnfold(l, 3, known);
    LearnUnfold(l, 0, known);
    LearnUnfold(l, 1, known);
    LearnUnfold(l, 2, known);
    LearnUnfold(l, 3, known);
    NoEvents(later);
    NothingLearnt(later);
    hide Events, LearnAll;
  }

  lemma {:induction false} LateOpens()
    ensures FirstKnown(LateLog(), map[]) == Some(map[0 := PROCESS_INFO.info])
  {
    var l := LateLog();
    assert l[1..][0] == PROCESS;
    assert ["ProcessIdentifier"][0] == "ProcessIdentifier";
    assert Field(["ProcessIdentifier"], ["1234"], "ProcessIdentifier") == Some("1234");
  }

  lemma {:induction false} LatePasses(call: Call)
    ensures PassOf([Quiet, Quiet, Quiet, Quiet]) == [] && PassOf([Quiet, Quiet, Called(call), Quiet]) == [call]
  {
    SegmentsOfQuiet([Quiet]);
    SegmentsOfQuiet([Quiet, Quiet, Quiet, Quiet]);
    SegmentsUnfold(Called(call), [Quiet]);
    SegmentsUnfold(Quiet, [Called(call), Quiet]);
    SegmentsUnfold(Quiet, [Quiet, Called(call), Quiet]);
    assert [Called(call)] + [Quiet] == [Called(call), Quiet];
    assert [Quiet] + [Called(call), Quiet] == [Quiet, Called(call), Quiet];
    assert [Quiet] + [Quiet, Called(call), Quiet] == [Quiet, Quiet, Called(call), Quiet];
    hide Segments;
    assert Prepend(call, [[]]) == [[call]] by {
      assert [call] + [] == [call];
    }
    assert [[call]][1..] == [] && RunMerge([call]) == [call];
    assert Delivered([[call]]) == [call] + [];
  }

  lemma {:induction false} SegmentsOfQuiet(evs: seq<Event>)
    requires forall i :: 0 <= i < |evs| ==> evs[i] == Quiet
    ensures Segments(evs) == [[]]
  {
    if evs != [] {
      SegmentsOfQuiet(evs[1..]);
    }
  }

  /** Opened and read twice without the cache, it misses the call the first time and delivers it the
      second time. */
  method LateExplanation() returns (first: seq<Emitted>, second: seq<Emitted>)
    ensures first == [] && second == [Emitted(Call(Sig("NtClose", true, [], "0"), "", 0), 0)]
  {
    hide Events, LearnAll, FirstKnown, PassOf, FromLog, LateLog;
    ghost var known: Infomap := map[0 := PROCESS_INFO.info];
    ghost var call := Call(Sig("NtClose", true, [], "0"), "", 0);
    LateOpens();
    LateIsWhole();
    LateEvents(known);
    LateEvents(known[1 := LATE_INFO.info]);
    assert Decode(EARLY_CALL, known) == Quiet;
    assert Zip([], []) == [];
    assert Decode(EARLY_CALL, known[1 := LATE_INFO.info]) == Called(call);
    LatePasses(call);
    var log := Open(LateLog(), true, 0, false);
    var results := WholePasses(log.value, 2);
    assert Readings(LateLog(), known, 0) == known;
    first, second := results[0], results[1];
  }

  lemma {:induction false} LateIsWhole()
    ensures Broken !in LateLog()
  {}
}
