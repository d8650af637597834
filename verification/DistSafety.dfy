/** No result of the distributed master is lost: which steps can put a task on the way to its removal,
    and over which runs everything removed was fetched or had failed. */
module DistSafety {
  import opened Wrappers
  import opened DistMaster

  // ---- no result is lost

  /** The pairs that are to be removed from their worker, or already are. */
  ghost predicate Doomed(s: State, p: Pair) {
    p in s.cleaner || p in s.removed
  }

  /** A doomed pair has only rows that are finished and retrieved, or that the failed cleaner is
      about to commit so. */
  ghost predicate Safe(s: State) {
    forall id :: Submitted(s.rows, id) && Doomed(s, Key(s.rows[id])) ==>
      (s.rows[id].finished && s.rows[id].retrieved) || id in s.marked
  }

  /** The commit of a submission whose worker task was listed, finished or failed, before the commit. */
  ghost predicate Late(s: State, step: Step) {
    step.Commit? && step.ok && s.submitter.Posted? && Doomed(s, s.submitter.pair)
  }

  /** In a safe state every doomed row has been copied, or its worker listed it as failed. */
  lemma {:induction false} NothingLost(s: State, id: nat)
    requires Inv(s) && Safe(s) && Submitted(s.rows, id) && Doomed(s, Key(s.rows[id]))
    ensures id in s.copied || Key(s.rows[id]) in s.broken
  {}

  /** What dooms a pair. */
  lemma {:induction false} DoomedBefore(s: State, step: Step, p: Pair)
    requires Enabled(s, step) && Doomed(Apply(s, step), p) && !Doomed(s, p)
    ensures (step.Poll? && p == step.pair && step.found.None?)
      || (step.Fetch? && p == s.fetching[0] && step.found.None?)
      || (step.ListFailed? && p == step.pair)
      || (step.CronClean? && p in step.gone)
  {
    hide Newest, Purged, FailedIn, DeletedIn, PutOnce, Key, Has, Finish;
    match step
    case Fetch(found) => PutOnceIn(s.cleaner, s.fetching[0], p);
    case ListFailed(q, found) => PutOnceIn(s.cleaner, q, p);
    case _ =>
  }

  lemma {:induction false} NewestNone(rows: map<nat, Row>, id: nat, f: Filter)
    requires Table(rows) && Submitted(rows, id) && f != Any && Newest(rows, Key(rows[id]), f, None)
    ensures rows[id].finished
  {}

  lemma {:induction false} NewestAny(rows: map<nat, Row>, id: nat, found: Option<nat>)
    requires Table(rows) && Submitted(rows, id) && Newest(rows, Key(rows[id]), Any, found)
    ensures found == Some(id)
  {
    assert Matches(rows[id], Key(rows[id]), Any);
    NewestOwned(rows, Key(rows[id]), Any, found);
  }

  lemma {:induction false} GoneFinished(s: State, step: Step, id: nat)
    requires Table(s.rows) && Enabled(s, step) && step.CronClean? && Submitted(s.rows, id)
    requires Key(s.rows[id]) in step.gone
    ensures s.rows[id].finished
  {
    var other :| other in step.ids && Has(s.rows[other], Key(s.rows[id]));
    assert Submitted(s.rows, other) && Key(s.rows[other]) == Key(s.rows[id]);
  }

  /** A pair becomes doomed only when it has no open row, or when a worker listed it as failed. */
  lemma {:induction false} DoomedNow(s: State, step: Step, id: nat)
    requires Inv(s) && Enabled(s, step) && Submitted(s.rows, id)
    requires !Doomed(s, Key(s.rows[id])) && Doomed(Apply(s, step), Key(s.rows[id]))
    ensures s.rows[id].finished || id in Apply(s, step).marked
  {
    DoomedBefore(s, step, Key(s.rows[id]));
    hide Doomed, Table, Known, Earned, InFlight, Held, Counted, Newest, Purged, FailedIn, DeletedIn, PutOnce, Has;
    match step
    case Poll(p, found) => NewestNone(s.rows, id, OpenUndeleted);
    case Fetch(found) => NewestNone(s.rows, id, Open);
    case ListFailed(p, found) => NewestAny(s.rows, id, found);
    case CronClean(ids, gone, kept) => GoneFinished(s, step, id);
    case _ =>
  }

  lemma {:induction false} MarkedKept(s: State, step: Step, id: nat)
    requires Enabled(s, step) && id in s.marked && id in s.rows
    ensures var t := Apply(s, step);
      id in t.marked || (step.CommitFailed? && id in t.rows && t.rows[id].finished)
  {
    hide Purged, DeletedIn, Newest, Key, PutOnce, Has;
  }

  lemma {:induction false} StaysDone(s: State, step: Step, id: nat)
    requires Inv(s) && Enabled(s, step) && Submitted(s.rows, id) && (s.rows[id].finished || id in s.marked)
    ensures var t := Apply(s, step); id in t.rows && (t.rows[id].finished || id in t.marked)
  {
    hide Apply, Table, InFlight, Known, Held, Earned, Enabled;
    OwnedStays(s, step, id);
    if id in s.marked {
      MarkedKept(s, step, id);
    }
  }

  lemma {:induction false} SafeIf(s: State)
    requires Table(s.rows)
    requires forall id :: Submitted(s.rows, id) && Doomed(s, Key(s.rows[id])) ==> s.rows[id].finished || id in s.marked
    ensures Safe(s)
  {}

  /** A commit that is not late leads to a safe state. */
  lemma {:induction false} CommitSafe(s: State, step: Step, id: nat)
    requires Inv(s) && Enabled(s, step) && step.Commit? && step.ok && id == s.submitter.row && !Late(s, step)
    ensures var t := Apply(s, step); Submitted(t.rows, id) && !Doomed(t, Key(t.rows[id]))
  {
    hide Table, Known, Earned, Held;
  }

  lemma {:induction false} LateUnsafe(s: State, step: Step)
    requires Inv(s) && Enabled(s, step) && Late(s, step)
    ensures !Safe(Apply(s, step))
  {
    hide Table, Known, Earned;
    var t, id := Apply(s, step), s.submitter.row;
    assert Submitted(t.rows, id) && Key(t.rows[id]) == s.submitter.pair;
    assert id !in t.marked && !t.rows[id].finished;
  }

  /** From a safe state exactly one kind of step leads to an unsafe one: a late commit. */
  lemma {:induction false} StepSafeIff(s: State, step: Step)
    requires Inv(s) && Safe(s) && Enabled(s, step)
    ensures Safe(Apply(s, step)) <==> !Late(s, step)
  {
    if Late(s, step) {
      LateUnsafe(s, step);
    } else {
      StepSafe(s, step);
    }
  }

  lemma {:induction false} StepSafe(s: State, step: Step)
    requires Inv(s) && Safe(s) && Enabled(s, step) && !Late(s, step)
    ensures Safe(Apply(s, step))
  {
    var t := Apply(s, step);
    hide Apply, Enabled, Late, Doomed, Table, InFlight, Known, Held, Earned;
    forall id | Submitted(t.rows, id) && Doomed(t, Key(t.rows[id])) ensures t.rows[id].finished || id in t.marked {
      OwnedBefore(s, step, id);
      if Submitted(s.rows, id) {
        OwnedStays(s, step, id);
        if Doomed(s, Key(s.rows[id])) {
          StaysDone(s, step, id);
        } else {
          DoomedNow(s, step, id);
          OwnedStays(s, step, id);
        }
      } else {
        CommitSafe(s, step, id);
      }
    }
    StepTable(s, step);
    SafeIf(t);
  }

  // ---- runs

  /** Every step of the run can be taken when its turn comes. */
  ghost predicate Runs(s: State, steps: seq<Step>)
    decreases |steps|
  {
    steps != [] ==> Enabled(s, steps[0]) && Runs(Apply(s, steps[0]), steps[1..])
  }

  ghost function After(s: State, steps: seq<Step>): State
    requires Runs(s, steps)
    decreases |steps|
  {
    if steps == [] then s else After(Apply(s, steps[0]), steps[1..])
  }

  ghost predicate AlwaysSafe(s: State, steps: seq<Step>)
    requires Runs(s, steps)
    decreases |steps|
  {
    Safe(s) && (steps != [] ==> AlwaysSafe(Apply(s, steps[0]), steps[1..]))
  }

  ghost predicate NeverLate(s: State, steps: seq<Step>)
    requires Runs(s, steps)
    decreases |steps|
  {
    steps != [] ==> !Late(s, steps[0]) && NeverLate(Apply(s, steps[0]), steps[1..])
  }

  /** The task-table invariant holds after any interleaving of the steps. */
  lemma {:induction false} RunInv(s: State, steps: seq<Step>)
    requires Inv(s) && Runs(s, steps)
    ensures Inv(After(s, steps))
    decreases |steps|
  {
    hide Inv, Enabled, Apply;
    if steps != [] {
      StepInv(s, steps[0]);
      RunInv(Apply(s, steps[0]), steps[1..]);
    }
  }

  /** In every run a copied row is finished and retrieved, and a finished row that was submitted was copied
      or listed as failed. */
  lemma {:induction false} RunCopied(s: State, steps: seq<Step>, id: nat)
    requires Init(s) && Runs(s, steps)
    ensures var t := After(s, steps);
      && (id in t.copied ==> id in t.rows && t.rows[id].finished && t.rows[id].retrieved)
      && (Submitted(t.rows, id) && t.rows[id].finished ==> id in t.copied || Key(t.rows[id]) in t.broken)
  {
    InitInv(s);
    RunInv(s, steps);
    hide Runs, After;
  }

  lemma {:induction false} InitInv(s: State)
    requires Init(s)
    ensures Inv(s) && Safe(s)
  {}

  /** No result is lost in a run, at any time in it, exactly when no commit in it is late. */
  lemma {:induction false} RunSafeIff(s: State, steps: seq<Step>)
    requires Inv(s) && Safe(s) && Runs(s, steps)
    ensures AlwaysSafe(s, steps) <==> NeverLate(s, steps)
    decreases |steps|
  {
    hide Inv, Safe, Late, Enabled, Apply;
    if steps != [] {
      StepInv(s, steps[0]);
      StepSafeIff(s, steps[0]);
      var t := Apply(s, steps[0]);
      if Safe(t) {
        RunSafeIff(t, steps[1..]);
      }
    }
  }

  /** A submission is one step: nothing happens between a worker's reply and the commit. */
  ghost predicate AtOnce(steps: seq<Step>) {
    forall i :: 0 <= i < |steps| - 1 && steps[i].Accept? ==> steps[i + 1].Commit?
  }

  lemma {:induction false} AcceptFresh(s: State, step: Step)
    requires Inv(s) && Enabled(s, step) && step.Accept?
    ensures var t := Apply(s, step); t.submitter.Posted? && !Doomed(t, t.submitter.pair)
  {
    hide Table, Earned, Held, InFlight;
  }

  lemma {:induction false} AcceptOnly(s: State, step: Step)
    requires Enabled(s, step)
    ensures step.Accept? || s.submitter.Posted? || Apply(s, step).submitter.Idle?
    ensures step.Commit? ==> Apply(s, step).submitter.Idle?
  {
    hide Newest;
  }

  lemma {:induction false} AtOnceNeverLate(s: State, steps: seq<Step>)
    requires Inv(s) && Runs(s, steps) && AtOnce(steps)
    requires s.submitter.Posted? && steps != [] ==> steps[0].Commit? && !Doomed(s, s.submitter.pair)
    ensures NeverLate(s, steps)
    decreases |steps|
  {
    hide Inv, Enabled, Apply, Doomed;
    if steps != [] {
      var step, rest := steps[0], steps[1..];
      var t := Apply(s, step);
      StepInv(s, step);
      AcceptOnly(s, step);
      if step.Accept? {
        AcceptFresh(s, step);
        assert rest != [] ==> steps[1] == rest[0];
      }
      forall i | 0 <= i < |rest| - 1 && rest[i].Accept? ensures rest[i + 1].Commit? {
        assert steps[i + 1] == rest[i] && steps[i + 2] == rest[i + 1];
      }
      AtOnceNeverLate(t, rest);
    }
  }

  /** With submissions taken as one step, every run from the start is safe throughout. */
  lemma {:induction false} AtOnceSafe(s: State, steps: seq<Step>)
    requires Init(s) && Runs(s, steps) && AtOnce(steps)
    ensures AlwaysSafe(s, steps)
  {
    InitInv(s);
    AtOnceNeverLate(s, steps);
    RunSafeIff(s, steps);
  }
}
