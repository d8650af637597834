/** Which finished results the distributed master can still fetch: a row is copied in some
    continuation exactly when it can be, and a copy that fails is tried again only if it is queued. */
module DistFetch {
  import opened Wrappers
  import opened DistMaster
  import opened DistSafety

  // ---- results that will never be fetched

  /** The pair is still on its worker, and a thread has the row in hand, or the row is open and its
      pair is queued for fetching or not stuck in current_queue. */
  ghost predicate Fetchable(s: State, id: nat) {
    && Submitted(s.rows, id) && Key(s.rows[id]) !in s.removed
    && (id in s.working
        || (!s.rows[id].finished && (Key(s.rows[id]) in s.fetching || Key(s.rows[id]) !in s.busy)))
  }

  /** Submitted, not copied and not to be fetched any more. */
  ghost predicate Abandoned(s: State, id: nat) {
    Submitted(s.rows, id) && id !in s.copied && !Fetchable(s, id)
  }

  lemma {:induction false} NotRequeued(s: State, step: Step, p: Pair)
    requires Enabled(s, step) && p !in s.fetching && (p in s.removed || p in s.busy)
    ensures p !in Apply(s, step).fetching
  {
    hide Purged, FailedIn, DeletedIn, Newest, Key, Has, Finish, PutOnce;
  }

  lemma {:induction false} NotRestarted(s: State, step: Step, id: nat)
    requires Table(s.rows) && Enabled(s, step) && Submitted(s.rows, id) && id !in s.working && id !in s.copied
    requires Key(s.rows[id]) !in s.fetching || s.rows[id].finished
    ensures id !in Apply(s, step).working && id !in Apply(s, step).copied
  {
    if step.Fetch? {
      NewestOwned(s.rows, s.fetching[0], Open, step.found);
      NewestOpen(s.rows, s.fetching[0], step.found);
    }
    if id in Apply(s, step).working || id in Apply(s, step).copied {
      TakenNew(s, step, id);
    }
    hide Apply, Newest, Has, Table;
  }

  lemma {:induction false} NewestOpen(rows: map<nat, Row>, p: Pair, found: Option<nat>)
    requires Newest(rows, p, Open, found)
    ensures found.Some? ==> found.value in rows && !rows[found.value].finished
  {}

  lemma {:induction false} TakenNew(s: State, step: Step, id: nat)
    requires Enabled(s, step) && (id in Apply(s, step).working || id in Apply(s, step).copied)
    ensures id in s.working || id in s.copied || (step.Fetch? && step.found == Some(id))
  {
    hide Purged, FailedIn, DeletedIn, Newest, Key, Has, Finish, PutOnce;
  }

  lemma {:induction false} CopyBusy(s: State, other: nat, outcome: Outcome, id: nat)
    requires Table(s.rows) && Enabled(s, Copy(other, outcome)) && Submitted(s.rows, id) && id != other
    requires Key(s.rows[id]) in s.busy
    ensures Key(s.rows[id]) in Apply(s, Copy(other, outcome)).busy
  {
    assert Submitted(s.rows, other);
    hide Has, RowOk, Finish;
  }

  lemma {:induction false} StaysBusy(s: State, step: Step, id: nat)
    requires Table(s.rows) && Enabled(s, step) && Submitted(s.rows, id) && id !in s.working
    requires var p := Key(s.rows[id]); p in s.removed || p in s.busy
    ensures var p := Key(s.rows[id]); p in Apply(s, step).removed || p in Apply(s, step).busy
  {
    hide Purged, FailedIn, DeletedIn, Newest, Has, Finish, PutOnce, Table, RowOk, Key;
    if step.Copy? && Key(s.rows[id]) in s.busy {
      CopyBusy(s, step.id, step.outcome, id);
    }
  }

  /** What is off its worker is not copied. */
  lemma {:induction false} RemovedNotCopied(s: State, step: Step, id: nat)
    requires Enabled(s, step) && Submitted(s.rows, id) && Key(s.rows[id]) in s.removed && id !in s.copied
    ensures id !in Apply(s, step).copied && Key(s.rows[id]) in Apply(s, step).removed
  {
    hide Purged, FailedIn, DeletedIn, Newest, Has, Finish, PutOnce;
  }

  lemma {:induction false} StepAbandoned(s: State, step: Step, id: nat)
    requires Inv(s) && Enabled(s, step) && Abandoned(s, id)
    ensures Abandoned(Apply(s, step), id)
  {
    hide Apply, Enabled, Table, Known, InFlight, Held, Counted, Earned;
    OwnedStays(s, step, id);
    if Key(s.rows[id]) in s.removed {
      RemovedNotCopied(s, step, id);
    } else {
      NotRestarted(s, step, id);
      if !s.rows[id].finished {
        NotRequeued(s, step, Key(s.rows[id]));
        StaysBusy(s, step, id);
      }
    }
  }

  /** An abandoned row stays so in any continuation. */
  lemma {:induction false} NeverCopied(s: State, steps: seq<Step>, id: nat)
    requires Inv(s) && Runs(s, steps) && Abandoned(s, id)
    ensures Abandoned(After(s, steps), id)
    decreases |steps|
  {
    hide Inv, Enabled, Apply, Abandoned;
    if steps != [] {
      StepInv(s, steps[0]);
      StepAbandoned(s, steps[0], id);
      NeverCopied(Apply(s, steps[0]), steps[1..], id);
    }
  }

  // ---- results that can be fetched

  /** The query has an answer, the pair being on one row at most. */
  lemma {:induction false} Answer(rows: map<nat, Row>, p: Pair, f: Filter) returns (found: Option<nat>)
    requires Table(rows)
    ensures Newest(rows, p, f, found)
    ensures forall id :: id in rows && Matches(rows[id], p, f) ==> found == Some(id)
  {
    if id :| id in rows && Matches(rows[id], p, f) {
      found := Some(id);
      forall other | other in rows && Matches(rows[other], p, f) ensures other == id {
        assert Submitted(rows, id) && Submitted(rows, other) && Key(rows[id]) == Key(rows[other]);
      }
    } else {
      found := None;
    }
  }

  lemma {:induction false} RunsCons(s: State, step: Step, t: State, rest: seq<Step>)
    requires Goes(s, step, t) && Runs(t, rest)
    ensures Runs(s, [step] + rest) && After(s, [step] + rest) == After(t, rest)
    ensures AlwaysSafe(s, [step] + rest) ==> Safe(s) && AlwaysSafe(t, rest)
  {
    hide Enabled, Apply, Safe;
    assert ([step] + rest)[1..] == rest;
  }

  ghost predicate Goes(s: State, step: Step, t: State) {
    Enabled(s, step) && Apply(s, step) == t
  }

  ghost predicate CanCopy(s: State, id: nat) {
    exists steps :: Runs(s, steps) && id in After(s, steps).copied
  }

  lemma {:induction false} CanCopyBefore(s: State, step: Step, t: State, id: nat)
    requires Goes(s, step, t) && CanCopy(t, id)
    ensures CanCopy(s, id)
  {
    hide Goes, Runs, After;
    var rest :| Runs(t, rest) && id in After(t, rest).copied;
    RunsCons(s, step, t, rest);
  }

  lemma {:induction false} CanCopyNow(s: State, id: nat)
    requires id in s.copied
    ensures CanCopy(s, id)
  {
    assert Runs(s, []) && After(s, []) == s;
  }

  lemma {:induction false} CopyInHand(s: State, id: nat)
    requires Submitted(s.rows, id) && Key(s.rows[id]) !in s.removed && id in s.working
    ensures CanCopy(s, id)
  {
    var t := Apply(s, Copy(id, Done));
    assert id in t.copied;
    CanCopyNow(t, id);
    CanCopyBefore(s, Copy(id, Done), t, id);
  }

  /** One fetch: the head is taken, by its row if that is open. */
  lemma {:induction false} FetchHead(s: State, id: nat) returns (t: State, step: Step)
    requires Table(s.rows) && Submitted(s.rows, id) && !s.rows[id].finished && RowOk(s.rows[id]) && s.fetching != []
    ensures Goes(s, step, t) && t.rows == s.rows && t.removed == s.removed && t.fetching == s.fetching[1..]
    ensures s.fetching[0] == Key(s.rows[id]) ==> id in t.working
  {
    var found := Answer(s.rows, s.fetching[0], Open);
    hide Newest, Table;
    step := Fetch(found);
    t := Apply(s, step);
  }

  lemma {:induction false} CopyQueued(s: State, id: nat)
    requires Table(s.rows) && Submitted(s.rows, id) && Key(s.rows[id]) !in s.removed
    requires !s.rows[id].finished && Key(s.rows[id]) in s.fetching
    ensures CanCopy(s, id)
    decreases |s.fetching|
  {
    var t, step := FetchHead(s, id);
    hide Table, Goes, CanCopy;
    if s.fetching[0] == Key(s.rows[id]) {
      CopyInHand(t, id);
    } else {
      CopyQueued(t, id);
    }
    CanCopyBefore(s, step, t, id);
  }

  /** The worker reports the task, and the fetcher queues it. */
  lemma {:induction false} PollOpen(s: State, id: nat) returns (report: State, t: State, step: Step)
    requires Table(s.rows) && Submitted(s.rows, id) && Key(s.rows[id]) in s.used && Key(s.rows[id]) !in s.removed
    requires !s.rows[id].finished && Key(s.rows[id]) !in s.busy
    ensures Goes(s, Report(Key(s.rows[id])), report) && Goes(report, step, t)
    ensures t.rows == s.rows && t.removed == s.removed && Key(s.rows[id]) in t.fetching
  {
    var p := Key(s.rows[id]);
    assert RowOk(s.rows[id]);
    report := Apply(s, Report(p));
    var found := Answer(s.rows, p, OpenUndeleted);
    assert Matches(s.rows[id], p, OpenUndeleted);
    hide Newest, Table;
    step := Poll(p, found);
    t := Apply(report, step);
  }

  /** Main result. A submitted row that is not copied yet is copied in some continuation exactly when
      it is fetchable. */
  lemma {:induction false} CopyableIff(s: State, id: nat)
    requires Inv(s) && Submitted(s.rows, id) && id !in s.copied
    ensures CanCopy(s, id) <==> Fetchable(s, id)
  {
    if Fetchable(s, id) {
      FetchableCopies(s, id);
    } else {
      forall steps | Runs(s, steps) ensures id !in After(s, steps).copied {
        NeverCopied(s, steps, id);
      }
    }
  }

  lemma {:induction false} FetchableCopies(s: State, id: nat)
    requires Inv(s) && Fetchable(s, id)
    ensures CanCopy(s, id)
  {
    hide CanCopy, Table, InFlight, Held, Counted, Earned;
    if id in s.working {
      CopyInHand(s, id);
    } else if Key(s.rows[id]) in s.fetching {
      CopyQueued(s, id);
    } else {
      var report, t, step := PollOpen(s, id);
      CopyQueued(t, id);
      CanCopyBefore(report, step, t, id);
      CanCopyBefore(s, Report(Key(s.rows[id])), report, id);
    }
  }

  /** A failed copy abandons the row exactly when nothing else has it: its pair is off the worker, or
      no other thread is copying it and it is finished or not queued. */
  lemma {:induction false} FailedCopyAbandonsIff(s: State, id: nat)
    requires Inv(s) && Enabled(s, Copy(id, NoCopy))
    ensures Abandoned(Apply(s, Copy(id, NoCopy)), id) <==>
      id !in s.copied
      && (Key(s.rows[id]) in s.removed
          || (s.working[id] == 1 && (s.rows[id].finished || Key(s.rows[id]) !in s.fetching)))
  {
    hide Table, Known, Earned, InFlight;
    assert Submitted(s.rows, id);
  }

  // ---- the race

  const RACED := Pair(1, 1)

  /** The worker reports the task before the master commits its id. */
  function RaceRun(): seq<Step> {
    [Insert(0, 7)] + ([Accept(0, RACED)] + ([Report(RACED)]
      + ([Poll(RACED, None)] + ([Commit(true)] + ([Remove({RACED})] + [])))))
  }

  function RaceState(rows: map<nat, Row>, submitter: Submitter, used: set<Pair>, reported: set<Pair>,
                     removed: set<Pair>, cleaner: seq<Pair>): State {
    State(rows, submitter, used, reported, {}, removed, [], multiset{}, multiset{}, cleaner, {}, {})
  }

  const FRESH_ROW := Row(7, None, None, false, false, false, false)
  const SENT_ROW := Row(7, Some(1), Some(1), false, false, false, false)

  lemma {:induction false} RaceToReport(s0: State, s1: State, s2: State, s3: State)
    requires s0 == RaceState(map[], Idle, {}, {}, {}, [])
    requires s1 == RaceState(map[0 := FRESH_ROW], Idle, {}, {}, {}, [])
    requires s2 == RaceState(map[0 := FRESH_ROW], Posted(0, RACED), {RACED}, {}, {}, [])
    requires s3 == RaceState(map[0 := FRESH_ROW], Posted(0, RACED), {RACED}, {RACED}, {}, [])
    ensures Goes(s0, Insert(0, 7), s1) && Goes(s1, Accept(0, RACED), s2) && Goes(s2, Report(RACED), s3)
  {}

  lemma {:induction false} RaceToRemoval(s3: State, s4: State, s5: State, s6: State)
    requires s3 == RaceState(map[0 := FRESH_ROW], Posted(0, RACED), {RACED}, {RACED}, {}, [])
    requires s4 == RaceState(map[0 := FRESH_ROW], Posted(0, RACED), {RACED}, {RACED}, {}, [RACED])
    requires s5 == RaceState(map[0 := SENT_ROW], Idle, {RACED}, {RACED}, {}, [RACED])
    requires s6 == RaceState(map[0 := SENT_ROW], Idle, {RACED}, {RACED}, {RACED}, [])
    ensures Goes(s3, Poll(RACED, None), s4) && Goes(s4, Commit(true), s5) && Goes(s5, Remove({RACED}), s6)
  {}

  /** A late commit can happen, and then the finished report is deleted from the worker uncopied and
      no continuation ever copies it. */
  lemma {:induction false} RaceLoses(s0: State)
    requires Init(s0)
    ensures Runs(s0, RaceRun()) && !AlwaysSafe(s0, RaceRun())
    ensures var t := After(s0, RaceRun()); Abandoned(t, 0) && !t.rows[0].finished && RACED !in t.broken
  {
    var s1 := RaceState(map[0 := FRESH_ROW], Idle, {}, {}, {}, []);
    var s2 := RaceState(map[0 := FRESH_ROW], Posted(0, RACED), {RACED}, {}, {}, []);
    var s3 := RaceState(map[0 := FRESH_ROW], Posted(0, RACED), {RACED}, {RACED}, {}, []);
    var s4 := RaceState(map[0 := FRESH_ROW], Posted(0, RACED), {RACED}, {RACED}, {}, [RACED]);
    var s5 := RaceState(map[0 := SENT_ROW], Idle, {RACED}, {RACED}, {}, [RACED]);
    var s6 := RaceState(map[0 := SENT_ROW], Idle, {RACED}, {RACED}, {RACED}, []);
    RaceToReport(s0, s1, s2, s3);
    RaceToRemoval(s3, s4, s5, s6);
    RaceEnd(s5, s6);
    hide *;
    RunsCons(s5, Remove({RACED}), s6, []);
    RunsCons(s4, Commit(true), s5, [Remove({RACED})] + []);
    RunsCons(s3, Poll(RACED, None), s4, [Commit(true)] + ([Remove({RACED})] + []));
    RunsCons(s2, Report(RACED), s3, [Poll(RACED, None)] + ([Commit(true)] + ([Remove({RACED})] + [])));
    RunsCons(s1, Accept(0, RACED), s2,
             [Report(RACED)] + ([Poll(RACED, None)] + ([Commit(true)] + ([Remove({RACED})] + []))));
    RunsCons(s0, Insert(0, 7), s1,
             [Accept(0, RACED)]
             + ([Report(RACED)] + ([Poll(RACED, None)] + ([Commit(true)] + ([Remove({RACED})] + [])))));
    RaceRunIs();
  }

  lemma {:induction false} RaceRunIs()
    ensures RaceRun() == [Insert(0, 7)] + ([Accept(0, RACED)] + ([Report(RACED)]
      + ([Poll(RACED, None)] + ([Commit(true)] + ([Remove({RACED})] + [])))))
  {}

  lemma {:induction false} RaceEnd(s5: State, s6: State)
    requires s5 == RaceState(map[0 := SENT_ROW], Idle, {RACED}, {RACED}, {}, [RACED])
    requires s6 == RaceState(map[0 := SENT_ROW], Idle, {RACED}, {RACED}, {RACED}, [])
    ensures !Safe(s5) && Abandoned(s6, 0) && !s6.rows[0].finished && RACED !in s6.broken
    ensures Runs(s6, []) && After(s6, []) == s6
  {
    assert Submitted(s5.rows, 0) && Key(s5.rows[0]) == RACED;
    assert Submitted(s6.rows, 0) && Key(s6.rows[0]) == RACED;
  }
}
