/** Which tasks the distributed master can still bring to their end: notified, and marked as deleted. */
module DistSettle {
  import opened Wrappers
  import opened DistMaster
  import opened DistSafety
  import opened DistFetch

  /** In some continuation the row is notified and deleted, and its pair is off the worker. */
  ghost predicate CanSettle(s: State, id: nat) {
    exists steps :: Runs(s, steps) && Settled(After(s, steps), id)
  }

  ghost predicate Settled(s: State, id: nat) {
    Submitted(s.rows, id) && s.rows[id].notificated && s.rows[id].deleted && Key(s.rows[id]) in s.removed
  }

  /** The row is finished, or about to be, or its worker still has the task. */
  ghost predicate Live(s: State, id: nat) {
    Submitted(s.rows, id) && (s.rows[id].finished || id in s.marked || Key(s.rows[id]) !in s.removed)
  }

  lemma {:induction false} SettleBefore(s: State, step: Step, t: State, id: nat)
    requires Goes(s, step, t) && CanSettle(t, id)
    ensures CanSettle(s, id)
  {
    hide Goes, Runs, After, Settled;
    var rest :| Runs(t, rest) && Settled(After(t, rest), id);
    RunsCons(s, step, t, rest);
  }

  /** The cron cleaner takes the row and deletes the task. */
  lemma {:induction false} SettleNotified(s: State, id: nat)
    requires Submitted(s.rows, id) && s.rows[id].notificated
    ensures CanSettle(s, id)
  {
    var p := Key(s.rows[id]);
    var step := CronClean({id}, {p}, true);
    assert Has(s.rows[id], p);
    var t := Apply(s, step);
    assert t.rows[id] == s.rows[id].(deleted := true);
    assert Settled(t, id);
    assert Runs(t, []) && After(t, []) == t;
    SettleBefore(s, step, t, id);
  }

  lemma {:induction false} SettleFinished(s: State, id: nat)
    requires Table(s.rows) && Submitted(s.rows, id) && s.rows[id].finished
    ensures CanSettle(s, id)
  {
    assert RowOk(s.rows[id]);
    hide CanSettle, Table;
    if s.rows[id].notificated {
      SettleNotified(s, id);
    } else {
      var t := Apply(s, Notify(id));
      SettleNotified(t, id);
      SettleBefore(s, Notify(id), t, id);
    }
  }

  lemma {:induction false} SettleMarked(s: State, id: nat)
    requires Submitted(s.rows, id) && id in s.marked
    ensures CanSettle(s, id)
  {
    var t := Apply(s, CommitFailed);
    assert t.rows[id] == s.rows[id].(finished := true, retrieved := true, notificated := true);
    hide CanSettle;
    SettleNotified(t, id);
    SettleBefore(s, CommitFailed, t, id);
  }

  /** A task still on its worker can fail there, and is then listed as failed. */
  lemma {:induction false} SettleFailed(s: State, id: nat)
    requires Table(s.rows) && Submitted(s.rows, id) && Key(s.rows[id]) in s.used && Key(s.rows[id]) !in s.removed
    ensures CanSettle(s, id)
  {
    var p := Key(s.rows[id]);
    var broken := Apply(s, Break(p));
    var found := Answer(s.rows, p, Any);
    assert Matches(s.rows[id], p, Any);
    hide CanSettle, Newest, Table;
    var t := Apply(broken, ListFailed(p, found));
    SettleMarked(t, id);
    SettleBefore(broken, ListFailed(p, found), t, id);
    SettleBefore(s, Break(p), broken, id);
  }

  lemma {:induction false} StepDead(s: State, step: Step, id: nat)
    requires Inv(s) && Enabled(s, step) && Submitted(s.rows, id) && !Live(s, id)
    ensures Submitted(Apply(s, step).rows, id) && !Live(Apply(s, step), id)
  {
    OwnedStays(s, step, id);
    FinishedEffects(s, step, id);
    HandEffects(s, step, id);
    WorkerEffects(s, step, Key(s.rows[id]));
    if step.ListFailed? && step.found == Some(id) {
      NewestOwned(s.rows, step.pair, Any, step.found);
    }
    hide Apply, Newest, Table, InFlight, Known, Held, Counted, Earned, Fetched;
  }

  lemma {:induction false} DeadForGood(s: State, steps: seq<Step>, id: nat)
    requires Inv(s) && Runs(s, steps) && Submitted(s.rows, id) && !Live(s, id)
    ensures !Settled(After(s, steps), id)
    decreases |steps|
  {
    if steps == [] {
      assert RowOk(s.rows[id]);
    } else {
      hide Inv, Enabled, Apply, Live, Settled;
      StepInv(s, steps[0]);
      StepDead(s, steps[0], id);
      DeadForGood(Apply(s, steps[0]), steps[1..], id);
    }
  }

  /** Main result. A submitted row can still be settled exactly when it is finished, marked as failed, or
      its task still on the worker: one that is removed unread stays open for good. */
  lemma {:induction false} SettleIff(s: State, id: nat)
    requires Inv(s) && Submitted(s.rows, id)
    ensures CanSettle(s, id) <==> Live(s, id)
  {
    if Live(s, id) {
      hide CanSettle, InFlight, Held, Counted, Earned, Fetched, Table;
      if s.rows[id].finished {
        SettleFinished(s, id);
      } else if id in s.marked {
        SettleMarked(s, id);
      } else {
        SettleFailed(s, id);
      }
    } else {
      forall steps | Runs(s, steps) ensures !Settled(After(s, steps), id) {
        DeadForGood(s, steps, id);
      }
    }
  }

  /** A row not yet submitted can be submitted under any task id its worker has not used, be finished for
      want of its sample, be dropped, or be purged. */
  lemma {:induction false} UnsubmittedCan(s: State, id: nat, p: Pair)
    requires Inv(s) && s.submitter.Idle? && id in s.rows && Unsubmitted(s.rows[id])
    ensures !s.rows[id].finished && p !in s.used ==>
      && Enabled(s, Accept(id, p)) && Enabled(Apply(s, Accept(id, p)), Commit(true))
      && var t := Apply(Apply(s, Accept(id, p)), Commit(true)); Submitted(t.rows, id) && Key(t.rows[id]) == p
    ensures Enabled(s, MissingFile(id)) && Apply(s, MissingFile(id)).rows[id].finished
    ensures Enabled(s, Drop(id)) && id !in Apply(s, Drop(id)).rows
    ensures Enabled(s, Purge) && id !in Apply(s, Purge).rows
  {
    hide Table, Known, InFlight, Held, Counted, Earned, Fetched;
  }
}
