/** The distributed master (utils/dist.py) in NFS fetch mode: the submitting thread, the fetcher, the
    copying threads, the failed-task cleaner, the notifier, the remover and the cron cleaner work on
    one task table and two queues. Every interleaving of their steps is a run. */
module DistMaster {
  import opened Wrappers

  /** A task as a worker knows it. Workers never use a task id twice. */
  datatype Pair = Pair(node: nat, task: nat)

  datatype Row = Row(main: nat, node: Option<nat>, task: Option<nat>,
                     finished: bool, retrieved: bool, notificated: bool, deleted: bool)

  /** The submitting thread: between a worker's reply and the commit it holds the row and the reply. */
  datatype Submitter = Idle | Posted(row: nat, pair: Pair)

  /** `busy` is current_queue; `marked` holds the rows that failed_cleaner has changed and not yet
      committed; `copied` is every row whose report was copied. The workers' own state is what they
      ever accepted, reported, failed and were told to remove. */
  datatype State = State(
    rows: map<nat, Row>,
    submitter: Submitter,
    used: set<Pair>,
    reported: set<Pair>,
    broken: set<Pair>,
    removed: set<Pair>,
    fetching: seq<Pair>,
    busy: multiset<Pair>,
    working: multiset<nat>,
    cleaner: seq<Pair>,
    marked: set<nat>,
    copied: set<nat>)

  datatype Outcome = Done | NoCopy | Raised

  /** The atomic steps. `found` is the row a query came back with.
      Purge: a submission pass opens by deleting every unsubmitted row.
      Insert: a row for a pending main task that has none.
      MissingFile, Drop: a submission whose sample is gone; an unsubmitted row deleted after a refusal.
      Accept, Commit: the worker's reply with its task id; the commit of that reply, or its rollback.
      Stray, Report, Break: a worker gets a task from elsewhere, finishes one, fails one.
      Poll: the fetcher meets a pair in a worker's list of reported tasks.
      Fetch, Copy: a copying thread takes a queued pair; its copy ends.
      ListFailed, CommitFailed: failed_cleaner meets a pair in a worker's list of failed tasks, and
      commits the rows it changed only at the end of the list.
      Notify: the callback for a finished row went through.
      CronClean: the pairs of notified rows are deleted from the workers, `gone` being those really
      deleted; a failing request rolls the rows back.
      Remove: the cleaner queue is emptied into delete requests, of which `gone` succeed. */
  datatype Step =
    | Purge
    | Insert(id: nat, main: nat)
    | MissingFile(id: nat)
    | Drop(id: nat)
    | Accept(id: nat, pair: Pair)
    | Stray(pair: Pair)
    | Commit(ok: bool)
    | Report(pair: Pair)
    | Break(pair: Pair)
    | Poll(pair: Pair, found: Option<nat>)
    | Fetch(found: Option<nat>)
    | Copy(id: nat, outcome: Outcome)
    | ListFailed(pair: Pair, found: Option<nat>)
    | CommitFailed
    | Notify(id: nat)
    | CronClean(ids: set<nat>, gone: set<Pair>, kept: bool)
    | Remove(gone: set<Pair>)

  // ---- queries

  predicate Unsubmitted(r: Row) {
    r.node.None? && r.task.None?
  }

  predicate Has(r: Row, p: Pair) {
    r.node == Some(p.node) && r.task == Some(p.task)
  }

  datatype Filter = OpenUndeleted | Open | Any

  predicate Matches(r: Row, p: Pair, f: Filter) {
    && Has(r, p)
    && (f != Any ==> !r.finished && !r.retrieved)
    && (f == OpenUndeleted ==> !r.deleted)
  }

  /** What order_by(id desc).first() gives. */
  ghost predicate Newest(rows: map<nat, Row>, p: Pair, f: Filter, found: Option<nat>) {
    match found
    case None => forall id :: id in rows ==> !Matches(rows[id], p, f)
    case Some(last) =>
      && last in rows && Matches(rows[last], p, f)
      && forall id :: id in rows && Matches(rows[id], p, f) ==> id <= last
  }

  // ---- the steps

  ghost predicate Enabled(s: State, step: Step) {
    match step
    case Purge => s.submitter.Idle?
    case Insert(id, main) =>
      s.submitter.Idle? && id !in s.rows && forall i :: i in s.rows ==> s.rows[i].main != main
    case MissingFile(id) => s.submitter.Idle? && id in s.rows && Unsubmitted(s.rows[id])
    case Drop(id) => s.submitter.Idle? && id in s.rows && Unsubmitted(s.rows[id])
    case Accept(id, p) =>
      s.submitter.Idle? && id in s.rows && Unsubmitted(s.rows[id]) && !s.rows[id].finished && p !in s.used
    case Stray(p) => p !in s.used
    case Commit(ok) => s.submitter.Posted? && s.submitter.row in s.rows
    case Report(p) => p in s.used && p !in s.removed
    case Break(p) => p in s.used && p !in s.removed
    case Poll(p, found) => p in s.reported && p !in s.removed && Newest(s.rows, p, OpenUndeleted, found)
    case Fetch(found) => s.fetching != [] && Newest(s.rows, s.fetching[0], Open, found)
    case Copy(id, outcome) =>
      && id in s.working && id in s.rows && s.rows[id].node.Some? && s.rows[id].task.Some?
      && (outcome == Done ==> Key(s.rows[id]) !in s.removed)
    case ListFailed(p, found) => p in s.broken && p !in s.removed && Newest(s.rows, p, Any, found)
    case CommitFailed => true
    case Notify(id) =>
      id in s.rows && s.rows[id].finished && s.rows[id].retrieved && !s.rows[id].notificated
    case CronClean(ids, gone, kept) =>
      && (forall id :: id in ids ==>
            id in s.rows && s.rows[id].notificated && s.rows[id].node.Some? && s.rows[id].task.Some?)
      && forall p :: p in gone ==> exists id :: id in ids && Has(s.rows[id], p)
    case Remove(gone) => forall p :: p in gone ==> p in s.cleaner
  }

  function Key(r: Row): Pair
    requires r.node.Some? && r.task.Some?
  {
    Pair(r.node.value, r.task.value)
  }

  function PutOnce(q: seq<Pair>, p: Pair): seq<Pair> {
    if p in q then q else q + [p]
  }

  function Finish(r: Row): Row {
    r.(finished := true, retrieved := true)
  }

  function Purged(rows: map<nat, Row>): map<nat, Row> {
    map id | id in rows && !Unsubmitted(rows[id]) :: rows[id]
  }

  function FailedIn(rows: map<nat, Row>, marked: set<nat>): map<nat, Row> {
    map id | id in rows :: if id in marked then Finish(rows[id]).(notificated := true) else rows[id]
  }

  function DeletedIn(rows: map<nat, Row>, ids: set<nat>): map<nat, Row> {
    map id | id in rows :: if id in ids then rows[id].(deleted := true) else rows[id]
  }

  /** What a step does to the task table. */
  ghost function NextRows(s: State, step: Step): map<nat, Row>
    requires Enabled(s, step)
  {
    match step
    case Purge => Purged(s.rows)
    case Insert(id, main) => s.rows[id := Row(main, None, None, false, false, false, false)]
    case MissingFile(id) => s.rows[id := Finish(s.rows[id])]
    case Drop(id) => s.rows - {id}
    case Commit(ok) =>
      var id, p := s.submitter.row, s.submitter.pair;
      if ok then s.rows[id := s.rows[id].(node := Some(p.node), task := Some(p.task))] else s.rows
    case Copy(id, outcome) => if outcome == Done then s.rows[id := Finish(s.rows[id])] else s.rows
    case CommitFailed => FailedIn(s.rows, s.marked)
    case Notify(id) => s.rows[id := s.rows[id].(notificated := true)]
    case CronClean(ids, gone, kept) => if kept then DeletedIn(s.rows, ids) else s.rows
    case _ => s.rows
  }

  /** What it does to everything else. */
  ghost function NextHands(s: State, step: Step): State
    requires Enabled(s, step)
  {
    match step
    case Accept(id, p) => s.(submitter := Posted(id, p), used := s.used + {p})
    case Stray(p) => s.(used := s.used + {p})
    case Commit(ok) => s.(submitter := Idle)
    case Report(p) => s.(reported := s.reported + {p})
    case Break(p) => s.(broken := s.broken + {p})
    case Poll(p, found) =>
      if found.None? then s.(cleaner := s.cleaner + [p])
      else if p in s.busy then s
      else s.(fetching := s.fetching + [p])
    case Fetch(found) =>
      var p := s.fetching[0];
      var t := s.(fetching := s.fetching[1..], busy := s.busy + multiset{p});
      (match found
       case None => t.(cleaner := PutOnce(s.cleaner, p))
       case Some(id) => t.(working := s.working + multiset{id}))
    case Copy(id, outcome) =>
      var p := Key(s.rows[id]);
      var t := s.(working := s.working - multiset{id});
      (match outcome
       case NoCopy => t
       case Raised => t.(busy := s.busy - multiset{p})
       case Done => t.(busy := s.busy - multiset{p}, copied := s.copied + {id}))
    case ListFailed(p, found) =>
      s.(cleaner := PutOnce(s.cleaner, p), marked := if found.Some? then s.marked + {found.value} else s.marked)
    case CommitFailed => s.(marked := {})
    case CronClean(ids, gone, kept) => s.(removed := s.removed + gone)
    case Remove(gone) => s.(cleaner := [], removed := s.removed + gone)
    case _ => s
  }

  ghost function Apply(s: State, step: Step): State
    requires Enabled(s, step)
  {
    NextHands(s, step).(rows := NextRows(s, step))
  }

  // ---- the task-table invariant

  predicate RowOk(r: Row) {
    && (r.node.Some? <==> r.task.Some?)
    && r.finished == r.retrieved
    && (r.deleted ==> r.notificated)
    && (r.notificated ==> r.finished)
  }

  /** One row per main task, one row per worker task, and sound flags. */
  ghost predicate Table(rows: map<nat, Row>) {
    && (forall id :: id in rows ==> RowOk(rows[id]))
    && (forall i, j :: i in rows && j in rows && rows[i].main == rows[j].main ==> i == j)
    && (forall i, j :: Submitted(rows, i) && Submitted(rows, j) && Key(rows[i]) == Key(rows[j]) ==> i == j)
  }

  predicate Submitted(rows: map<nat, Row>, id: nat) {
    id in rows && rows[id].node.Some? && rows[id].task.Some?
  }

  /** The submitter's row is still unsubmitted and open, and nobody else has its pair. */
  ghost predicate InFlight(s: State) {
    s.submitter.Posted? ==>
      && s.submitter.row in s.rows && Unsubmitted(s.rows[s.submitter.row]) && !s.rows[s.submitter.row].finished
      && s.submitter.pair in s.used
      && forall id :: id in s.rows ==> !Has(s.rows[id], s.submitter.pair)
  }

  ghost predicate Owned(rows: map<nat, Row>, p: Pair) {
    exists id :: Submitted(rows, id) && Key(rows[id]) == p
  }

  /** Every pair the master knows was given out by a worker. */
  ghost predicate Known(s: State) {
    && (forall id :: Submitted(s.rows, id) ==> Key(s.rows[id]) in s.used)
    && s.reported <= s.used && s.broken <= s.used && s.removed <= s.used
    && (forall p :: p in s.cleaner ==> p in s.used)
    && (forall p :: p in s.fetching ==> Owned(s.rows, p))
  }

  /** The threads hold only submitted rows. */
  ghost predicate Held(s: State) {
    forall id :: id in s.working || id in s.marked || id in s.copied ==> Submitted(s.rows, id)
  }

  /** current_queue counts every copy under way. */
  ghost predicate Counted(s: State) {
    forall id :: Submitted(s.rows, id) ==> s.working[id] <= s.busy[Key(s.rows[id])]
  }

  /** A submitted row is finished, or about to be, only if its report was copied or its worker listed
      it as failed. */
  ghost predicate Earned(s: State) {
    forall id :: Submitted(s.rows, id) && (s.rows[id].finished || id in s.marked) ==>
      id in s.copied || Key(s.rows[id]) in s.broken
  }

  /** And the other way round: a copied row is finished and retrieved. */
  ghost predicate Fetched(s: State) {
    forall id :: id in s.copied ==> id in s.rows && s.rows[id].finished && s.rows[id].retrieved
  }

  ghost predicate Inv(s: State) {
    Table(s.rows) && InFlight(s) && Known(s) && Held(s) && Counted(s) && Earned(s) && Fetched(s)
  }

  ghost predicate Init(s: State) {
    s == State(map[], Idle, {}, {}, {}, {}, [], multiset{}, multiset{}, [], {}, {})
  }

  // ---- every step keeps the invariant

  /** What all steps but an insertion and a commit do to the table: drop unsubmitted rows, raise flags. */
  ghost predicate FlagsOnly(rows: map<nat, Row>, next: map<nat, Row>) {
    && (forall id :: id in next ==>
          && id in rows && RowOk(next[id])
          && next[id].main == rows[id].main && next[id].node == rows[id].node && next[id].task == rows[id].task
          && (rows[id].finished ==> next[id].finished))
    && (forall id :: Submitted(rows, id) ==> id in next)
  }

  lemma {:induction false} FlagsSame(rows: map<nat, Row>)
    requires Table(rows)
    ensures FlagsOnly(rows, rows)
  {}

  lemma {:induction false} FlagsOne(rows: map<nat, Row>, id: nat, r: Row)
    requires Table(rows) && id in rows && RowOk(r)
    requires r.main == rows[id].main && r.node == rows[id].node && r.task == rows[id].task
    requires rows[id].finished ==> r.finished
    ensures FlagsOnly(rows, rows[id := r])
  {}

  lemma {:induction false} FlagsFewer(rows: map<nat, Row>, id: nat)
    requires Table(rows)
    ensures FlagsOnly(rows, Purged(rows))
    ensures id in rows && Unsubmitted(rows[id]) ==> FlagsOnly(rows, rows - {id})
  {}

  lemma {:induction false} FlagsMany(rows: map<nat, Row>, ids: set<nat>)
    requires Table(rows)
    ensures FlagsOnly(rows, FailedIn(rows, ids))
    ensures (forall id :: id in ids ==> id in rows && rows[id].notificated) ==> FlagsOnly(rows, DeletedIn(rows, ids))
  {}

  lemma {:induction false} StepFlags(s: State, step: Step)
    requires Table(s.rows) && Enabled(s, step) && !step.Insert? && !step.Commit?
    ensures FlagsOnly(s.rows, Apply(s, step).rows)
  {
    hide Newest, Key, Has, FlagsOnly, Purged, FailedIn, DeletedIn;
    FlagsSame(s.rows);
    match step
    case Purge => FlagsFewer(s.rows, 0);
    case Drop(id) => FlagsFewer(s.rows, id);
    case MissingFile(id) => FlagsOne(s.rows, id, Finish(s.rows[id]));
    case Copy(id, outcome) => FlagsOne(s.rows, id, Finish(s.rows[id]));
    case Notify(id) => FlagsOne(s.rows, id, s.rows[id].(notificated := true));
    case CommitFailed => FlagsMany(s.rows, s.marked);
    case CronClean(ids, gone, kept) => FlagsMany(s.rows, ids);
    case _ =>
  }

  lemma {:induction false} FlagsTable(rows: map<nat, Row>, next: map<nat, Row>)
    requires Table(rows) && FlagsOnly(rows, next)
    ensures Table(next)
  {}

  lemma {:induction false} InsertTable(s: State, id: nat, main: nat)
    requires Table(s.rows) && Enabled(s, Insert(id, main))
    ensures Table(Apply(s, Insert(id, main)).rows)
  {}

  lemma {:induction false} CommitTable(s: State, ok: bool)
    requires Table(s.rows) && InFlight(s) && Enabled(s, Commit(ok))
    ensures Table(Apply(s, Commit(ok)).rows)
  {}

  lemma {:induction false} StepTable(s: State, step: Step)
    requires Inv(s) && Enabled(s, step)
    ensures Table(Apply(s, step).rows)
  {
    hide Table, FlagsOnly, Apply, InFlight, Known, Earned;
    match step
    case Insert(id, main) => InsertTable(s, id, main);
    case Commit(ok) => CommitTable(s, ok);
    case _ =>
      StepFlags(s, step);
      FlagsTable(s.rows, Apply(s, step).rows);
  }

  lemma {:induction false} StepInv(s: State, step: Step)
    requires Inv(s) && Enabled(s, step)
    ensures Inv(Apply(s, step))
  {
    hide Table, InFlight, Known, Held, Counted, Earned, Fetched, Apply, Enabled;
    StepCounted(s, step);
    StepTable(s, step);
    StepInFlight(s, step);
    StepKnown(s, step);
    StepHeld(s, step);
    StepEarned(s, step);
    StepFetched(s, step);
  }

  /** A row once submitted stays, with the same pair. */
  lemma {:induction false} OwnedStays(s: State, step: Step, id: nat)
    requires Table(s.rows) && InFlight(s) && Enabled(s, step) && Submitted(s.rows, id)
    ensures Submitted(Apply(s, step).rows, id) && Key(Apply(s, step).rows[id]) == Key(s.rows[id])
    ensures s.rows[id].finished ==> Apply(s, step).rows[id].finished
  {
    if step.Insert? || step.Commit? {
      hide Newest, Table;
    } else {
      StepFlags(s, step);
      hide Apply, Table;
    }
  }

  /** A submitted row was one before, or the submitter commits it. */
  lemma {:induction false} OwnedBefore(s: State, step: Step, id: nat)
    requires Table(s.rows) && InFlight(s) && Enabled(s, step) && Submitted(Apply(s, step).rows, id)
    ensures Submitted(s.rows, id)
      || (step.Commit? && step.ok && s.submitter.Posted? && s.submitter.row == id
          && Apply(s, step).rows[id]
             == s.rows[id].(node := Some(s.submitter.pair.node), task := Some(s.submitter.pair.task)))
  {
    if step.Insert? || step.Commit? {
      hide Newest, Table;
    } else {
      StepFlags(s, step);
      hide Apply, Table;
    }
  }

  /** The steps that leave the task table alone. */
  predicate KeepsRows(step: Step) {
    step.Accept? || step.Stray? || step.Report? || step.Break? || step.Poll? || step.Fetch? || step.ListFailed?
    || step.Remove?
  }

  lemma {:induction false} RowsSame(s: State, step: Step)
    requires Enabled(s, step) && KeepsRows(step)
    ensures Apply(s, step).rows == s.rows
  {
    hide Newest, Has, Key, PutOnce, Finish, Purged, FailedIn, DeletedIn;
  }

  /** Nothing but its own commit touches the row in flight. */
  lemma {:induction false} InFlightUntouched(s: State, step: Step)
    requires Table(s.rows) && InFlight(s) && Held(s) && Enabled(s, step) && s.submitter.Posted? && !step.Commit?
    ensures s.submitter.row in Apply(s, step).rows
    ensures Apply(s, step).rows[s.submitter.row] == s.rows[s.submitter.row]
    ensures Apply(s, step).submitter == s.submitter && s.used <= Apply(s, step).used
  {
    UsedGrows(s, step);
    if !step.Accept? {
      SubmitterKept(s, step);
    }
    if KeepsRows(step) {
      RowsSame(s, step);
      hide Apply;
    }
    hide Newest, Table, Has, Purged, FailedIn, DeletedIn, PutOnce, Key;
    match step
    case CommitFailed => NotFailed(s.rows, s.marked, s.submitter.row);
    case CronClean(ids, gone, kept) => NotDeleted(s.rows, ids, s.submitter.row);
    case _ =>
  }

  lemma {:induction false} NotFailed(rows: map<nat, Row>, marked: set<nat>, id: nat)
    requires id in rows && id !in marked
    ensures id in FailedIn(rows, marked) && FailedIn(rows, marked)[id] == rows[id]
  {}

  lemma {:induction false} NotDeleted(rows: map<nat, Row>, ids: set<nat>, id: nat)
    requires id in rows && id !in ids
    ensures id in DeletedIn(rows, ids) && DeletedIn(rows, ids)[id] == rows[id]
  {}

  /** A new submission's pair is on no row, as no worker has given it out before. */
  lemma {:induction false} AcceptInFlight(s: State, id: nat, p: Pair)
    requires Known(s) && Enabled(s, Accept(id, p))
    ensures InFlight(Apply(s, Accept(id, p)))
  {
    forall other | other in s.rows ensures !Has(s.rows[other], p) {
      assert Submitted(s.rows, other) ==> Key(s.rows[other]) != p;
    }
  }

  lemma {:induction false} PairStaysFree(s: State, step: Step, id: nat)
    requires Table(s.rows) && InFlight(s) && Enabled(s, step) && s.submitter.Posted? && !step.Commit?
    requires id in Apply(s, step).rows
    ensures !Has(Apply(s, step).rows[id], s.submitter.pair)
  {
    if Has(Apply(s, step).rows[id], s.submitter.pair) {
      OwnedBefore(s, step, id);
      OwnedStays(s, step, id);
      hide Apply, Table, Enabled;
    }
  }

  lemma {:induction false} SubmitterKept(s: State, step: Step)
    requires Enabled(s, step) && !step.Accept? && !step.Commit?
    ensures Apply(s, step).submitter == s.submitter
  {
    hide Purged, FailedIn, DeletedIn, Newest, Key, Has, Finish, PutOnce;
  }

  lemma {:induction false} StepInFlight(s: State, step: Step)
    requires Inv(s) && Enabled(s, step)
    ensures InFlight(Apply(s, step))
  {
    if step.Accept? {
      AcceptInFlight(s, step.id, step.pair);
    } else if !step.Commit? {
      SubmitterKept(s, step);
      if s.submitter.Posted? {
        InFlightUntouched(s, step);
        var t := Apply(s, step);
        forall id | id in t.rows ensures !Has(t.rows[id], s.submitter.pair) {
          PairStaysFree(s, step, id);
        }
      }
      hide Apply, Enabled, Table, Known, Held, Counted, Earned, Has;
    }
  }

  lemma {:induction false} FetchingBefore(s: State, step: Step, p: Pair)
    requires Enabled(s, step) && p in Apply(s, step).fetching
    ensures p in s.fetching || (step.Poll? && p == step.pair && step.found.Some?)
  {
    hide Newest, Purged, FailedIn, DeletedIn, PutOnce, Key, Has, Finish;
  }

  lemma {:induction false} StepFetching(s: State, step: Step, p: Pair)
    requires Inv(s) && Enabled(s, step) && p in Apply(s, step).fetching
    ensures Owned(Apply(s, step).rows, p)
  {
    FetchingBefore(s, step, p);
    hide Apply, InFlight, Table, Held, Counted, Earned, Newest, Has;
    if step.Poll? && p !in s.fetching {
      NewestOwned(s.rows, p, OpenUndeleted, step.found);
    }
    var id :| Submitted(s.rows, id) && Key(s.rows[id]) == p;
    OwnedStays(s, step, id);
  }

  lemma {:induction false} StepKeys(s: State, step: Step, id: nat)
    requires Inv(s) && Enabled(s, step) && Submitted(Apply(s, step).rows, id)
    ensures Key(Apply(s, step).rows[id]) in Apply(s, step).used
  {
    UsedGrows(s, step);
    hide Apply, Table, Earned, Held, Enabled;
    OwnedBefore(s, step, id);
    if Submitted(s.rows, id) {
      OwnedStays(s, step, id);
    }
  }

  lemma {:induction false} UsedGrows(s: State, step: Step)
    requires Enabled(s, step)
    ensures s.used <= Apply(s, step).used
  {
    hide Newest;
  }

  lemma {:induction false} StepSets(s: State, step: Step)
    requires Inv(s) && Enabled(s, step)
    ensures var t := Apply(s, step); t.reported <= t.used && t.broken <= t.used && t.removed <= t.used
  {
    hide Newest, InFlight, Earned, Fetched, Table, Held, Counted, Purged, FailedIn, DeletedIn, PutOnce, Finish, Owned;
    if step.CronClean? {
      GoneUsed(s, step.ids, step.gone, step.kept);
    }
    hide Key, Has, Submitted;
  }

  lemma {:induction false} GoneUsed(s: State, ids: set<nat>, gone: set<Pair>, kept: bool)
    requires Known(s) && Enabled(s, CronClean(ids, gone, kept))
    ensures gone <= s.used
  {
    forall p | p in gone ensures p in s.used {
      var id :| id in ids && Has(s.rows[id], p);
      assert Submitted(s.rows, id) && Key(s.rows[id]) == p;
    }
  }

  lemma {:induction false} PutOnceIn(q: seq<Pair>, p: Pair, x: Pair)
    ensures x in PutOnce(q, p) <==> x in q || x == p
  {}

  /** Only a listing or a fetch dooms a pair to the cleaner queue. */
  lemma {:induction false} CleanerBefore(s: State, step: Step, p: Pair)
    requires Enabled(s, step) && p in Apply(s, step).cleaner
    ensures p in s.cleaner || (step.Fetch? && p == s.fetching[0])
      || (step.Poll? && p == step.pair && p in s.reported) || (step.ListFailed? && p == step.pair && p in s.broken)
  {
    hide Newest, Purged, FailedIn, DeletedIn, PutOnce, Key, Has, Finish;
    match step
    case Fetch(found) => PutOnceIn(s.cleaner, s.fetching[0], p);
    case ListFailed(q, found) => PutOnceIn(s.cleaner, q, p);
    case _ =>
  }

  lemma {:induction false} StepCleaner(s: State, step: Step, p: Pair)
    requires Inv(s) && Enabled(s, step) && p in Apply(s, step).cleaner
    ensures p in Apply(s, step).used
  {
    CleanerBefore(s, step, p);
    UsedGrows(s, step);
    hide Apply, InFlight, Earned, Table, Held, Counted;
    if step.Fetch? && p == s.fetching[0] {
      assert Owned(s.rows, p);
    }
  }

  lemma {:induction false} StepKnown(s: State, step: Step)
    requires Inv(s) && Enabled(s, step)
    ensures Known(Apply(s, step))
  {
    hide Apply, Inv, Enabled, Owned;
    var t := Apply(s, step);
    forall id | Submitted(t.rows, id) ensures Key(t.rows[id]) in t.used {
      StepKeys(s, step, id);
    }
    forall p | p in t.cleaner ensures p in t.used {
      StepCleaner(s, step, p);
    }
    forall p | p in t.fetching ensures Owned(t.rows, p) {
      StepFetching(s, step, p);
    }
    StepSets(s, step);
  }

  lemma {:induction false} HeldNew(s: State, step: Step, id: nat)
    requires Enabled(s, step)
    requires var t := Apply(s, step); id in t.working || id in t.marked || id in t.copied
    ensures id in s.working || id in s.marked || id in s.copied
      || ((step.Fetch? || step.ListFailed?) && step.found == Some(id))
  {
    hide Purged, FailedIn, DeletedIn, Newest, Key, Finish, PutOnce, Has;
  }

  /** What a step newly takes in hand. */
  lemma {:induction false} HeldBefore(s: State, step: Step, id: nat)
    requires Held(s) && Enabled(s, step)
    requires var t := Apply(s, step); id in t.working || id in t.marked || id in t.copied
    ensures Submitted(s.rows, id)
  {
    HeldNew(s, step, id);
    hide Apply, Newest;
    match step
    case Fetch(found) => NewestOwned(s.rows, s.fetching[0], Open, found);
    case ListFailed(p, found) => NewestOwned(s.rows, p, Any, found);
    case _ =>
  }

  lemma {:induction false} NewestOwned(rows: map<nat, Row>, p: Pair, f: Filter, found: Option<nat>)
    requires Newest(rows, p, f, found)
    ensures found.Some? ==> Submitted(rows, found.value) && Key(rows[found.value]) == p
  {}

  lemma {:induction false} StepHeld(s: State, step: Step)
    requires Inv(s) && Enabled(s, step)
    ensures Held(Apply(s, step))
  {
    hide Apply, Enabled, Table, InFlight, Known, Earned, Held;
    var t := Apply(s, step);
    forall id | id in t.working || id in t.marked || id in t.copied ensures Submitted(t.rows, id) {
      HeldBefore(s, step, id);
      OwnedStays(s, step, id);
    }
    HeldIf(t);
  }

  lemma {:induction false} HeldIf(s: State)
    requires forall id :: id in s.working || id in s.marked || id in s.copied ==> Submitted(s.rows, id)
    ensures Held(s)
  {}

  lemma {:induction false} FetchCounts(s: State, found: Option<nat>, id: nat)
    requires Enabled(s, Fetch(found)) && Submitted(s.rows, id) && s.working[id] <= s.busy[Key(s.rows[id])]
    ensures var t := Apply(s, Fetch(found)); t.working[id] <= t.busy[Key(s.rows[id])]
  {
    NewestOwned(s.rows, s.fetching[0], Open, found);
    hide Newest, Has, RowOk, PutOnce, Key;
  }

  lemma {:induction false} CopyCounts(s: State, other: nat, outcome: Outcome, id: nat)
    requires Table(s.rows) && Enabled(s, Copy(other, outcome)) && Submitted(s.rows, id)
    requires s.working[id] <= s.busy[Key(s.rows[id])]
    ensures var t := Apply(s, Copy(other, outcome)); t.working[id] <= t.busy[Key(s.rows[id])]
  {
    assert Submitted(s.rows, other);
    assert Key(s.rows[id]) == Key(s.rows[other]) ==> id == other;
    hide Has, RowOk, Finish, Table, Submitted, Key;
  }

  /** How one step changes the two counts. */
  lemma {:induction false} CountsMove(s: State, step: Step, id: nat)
    requires Table(s.rows) && Enabled(s, step) && Submitted(s.rows, id) && s.working[id] <= s.busy[Key(s.rows[id])]
    ensures var t := Apply(s, step); t.working[id] <= t.busy[Key(s.rows[id])]
  {
    if step.Fetch? {
      FetchCounts(s, step.found, id);
    } else if step.Copy? {
      CopyCounts(s, step.id, step.outcome, id);
    } else {
      hide Purged, FailedIn, DeletedIn, Has, RowOk, PutOnce, Finish, Newest, Table, Key;
    }
  }

  lemma {:induction false} NewlyCounted(s: State, step: Step, id: nat)
    requires Held(s) && InFlight(s) && Enabled(s, step) && step.Commit? && s.submitter.Posted? && s.submitter.row == id
    ensures Apply(s, step).working[id] == 0
  {
    assert !Submitted(s.rows, id);
    assert id !in s.working;
  }

  lemma {:induction false} StepCounted(s: State, step: Step)
    requires Inv(s) && Enabled(s, step)
    ensures Counted(Apply(s, step))
  {
    hide Apply, Enabled, Table, Known, InFlight, Held, Earned;
    var t := Apply(s, step);
    forall id | Submitted(t.rows, id) ensures t.working[id] <= t.busy[Key(t.rows[id])] {
      OwnedBefore(s, step, id);
      if Submitted(s.rows, id) {
        OwnedStays(s, step, id);
        CountsMove(s, step, id);
      } else {
        NewlyCounted(s, step, id);
      }
    }
  }

  lemma {:induction false} StepEarned(s: State, step: Step)
    requires Inv(s) && Enabled(s, step)
    ensures Earned(Apply(s, step))
  {
    hide Apply, Enabled, Table, Known;
    var t := Apply(s, step);
    forall id | Submitted(t.rows, id) && (t.rows[id].finished || id in t.marked)
      ensures id in t.copied || Key(t.rows[id]) in t.broken {
      OwnedBefore(s, step, id);
      if Submitted(s.rows, id) {
        OwnedStays(s, step, id);
        EarnedNow(s, step, id);
      } else {
        NewlyOwned(s, step, id);
      }
    }
  }

  lemma {:induction false} EarnedNow(s: State, step: Step, id: nat)
    requires Inv(s) && Enabled(s, step) && Submitted(s.rows, id)
    requires var t := Apply(s, step); id in t.rows && (t.rows[id].finished || id in t.marked)
    ensures id in Apply(s, step).copied || Key(s.rows[id]) in Apply(s, step).broken
  {
    FinishedEffects(s, step, id);
    HandEffects(s, step, id);
    WorkerEffects(s, step, Key(s.rows[id]));
    if step.ListFailed? && step.found == Some(id) {
      NewestOwned(s.rows, step.pair, Any, step.found);
    }
    hide Apply, Newest, Table, Known, Held, InFlight, Counted, Fetched;
  }

  /** A row just committed is neither finished nor marked. */
  lemma {:induction false} NewlyOwned(s: State, step: Step, id: nat)
    requires Inv(s) && Enabled(s, step) && step.Commit? && step.ok && s.submitter.Posted? && s.submitter.row == id
    ensures var t := Apply(s, step); id in t.rows && !t.rows[id].finished && id !in t.marked
  {
    hide Table, Known, Earned, Newest;
  }

  lemma {:induction false} CopiedNew(s: State, step: Step, id: nat)
    requires Enabled(s, step) && id in Apply(s, step).copied
    ensures id in s.copied || step == Copy(id, Done)
    ensures step == Copy(id, Done) ==> id in Apply(s, step).rows && Apply(s, step).rows[id].finished
  {
    hide Purged, FailedIn, DeletedIn, Newest, Key, Has, PutOnce;
  }

  lemma {:induction false} StepFetched(s: State, step: Step)
    requires Inv(s) && Enabled(s, step)
    ensures Fetched(Apply(s, step))
  {
    hide Apply, Enabled, InFlight, Known, Counted, Earned;
    var t := Apply(s, step);
    StepTable(s, step);
    forall id | id in t.copied ensures id in t.rows && t.rows[id].finished && t.rows[id].retrieved {
      CopiedNew(s, step, id);
      if id in s.copied {
        OwnedStays(s, step, id);
      }
      assert RowOk(t.rows[id]);
    }
  }

  // ---- which step changes what

  /** Rows come by an insertion and go by a purge or a drop. */
  lemma {:induction false} RowsEffects(s: State, step: Step, id: nat)
    requires Enabled(s, step)
    ensures id in Apply(s, step).rows <==>
      || (id in s.rows && !(step.Purge? && Unsubmitted(s.rows[id])) && step != Drop(id))
      || (step.Insert? && step.id == id)
    ensures step.Insert? && step.id == id ==>
      id !in s.rows && Apply(s, step).rows[id] == Row(step.main, None, None, false, false, false, false)
  {
    hide NextHands, Newest, Has, Key, Finish;
    if step.CommitFailed? || step.CronClean? {
      TableEffects(s.rows, s.marked, id);
      if step.CronClean? {
        TableEffects(s.rows, step.ids, id);
      }
    }
    hide FailedIn, DeletedIn;
  }

  /** A row is finished, and retrieved, by the steps named here; no step takes that back. */
  lemma {:induction false} FinishedEffects(s: State, step: Step, id: nat)
    requires Enabled(s, step) && id in s.rows && id in Apply(s, step).rows
    ensures var r, r', failed := s.rows[id], Apply(s, step).rows[id], step.CommitFailed? && id in s.marked;
      && (r'.finished <==> r.finished || step == MissingFile(id) || step == Copy(id, Done) || failed)
      && (r'.retrieved <==> r.retrieved || step == MissingFile(id) || step == Copy(id, Done) || failed)
  {
    hide NextHands, Newest, Has, Key;
    match step
    case CommitFailed => TableEffects(s.rows, s.marked, id); hide FailedIn;
    case CronClean(ids, _, _) => TableEffects(s.rows, ids, id); hide DeletedIn;
    case _ =>
  }

  /** Likewise it is notified by these, and deleted by the cron cleaner alone. */
  lemma {:induction false} NotifiedEffects(s: State, step: Step, id: nat)
    requires Enabled(s, step) && id in s.rows && id in Apply(s, step).rows
    ensures var r, r' := s.rows[id], Apply(s, step).rows[id];
      && (r'.notificated <==> r.notificated || step == Notify(id) || (step.CommitFailed? && id in s.marked))
      && (r'.deleted <==> r.deleted || (step.CronClean? && step.kept && id in step.ids))
  {
    hide NextHands, Newest, Has, Key;
    match step
    case CommitFailed => TableEffects(s.rows, s.marked, id); hide FailedIn;
    case CronClean(ids, _, _) => TableEffects(s.rows, ids, id); hide DeletedIn;
    case _ =>
  }

  /** A row's main task never changes, its node and task only by the commit of its own submission. */
  lemma {:induction false} PairEffects(s: State, step: Step, id: nat)
    requires Enabled(s, step) && id in s.rows && id in Apply(s, step).rows
    ensures var r, r' := s.rows[id], Apply(s, step).rows[id];
      && r'.main == r.main
      && (if step == Commit(true) && s.submitter.Posted? && s.submitter.row == id
          then r'.node == Some(s.submitter.pair.node) && r'.task == Some(s.submitter.pair.task)
          else r'.node == r.node && r'.task == r.task)
  {
    hide NextHands, Newest, Has, Key;
    match step
    case CommitFailed => TableEffects(s.rows, s.marked, id); hide FailedIn;
    case CronClean(ids, _, _) => TableEffects(s.rows, ids, id); hide DeletedIn;
    case _ =>
  }

  lemma {:induction false} TableEffects(rows: map<nat, Row>, ids: set<nat>, id: nat)
    ensures id in FailedIn(rows, ids) <==> id in rows
    ensures id in DeletedIn(rows, ids) <==> id in rows
    ensures id in rows && id in ids ==>
      FailedIn(rows, ids)[id] == rows[id].(finished := true, retrieved := true, notificated := true)
    ensures id in rows && id in ids ==> DeletedIn(rows, ids)[id] == rows[id].(deleted := true)
    ensures id in rows && id !in ids ==> FailedIn(rows, ids)[id] == rows[id] == DeletedIn(rows, ids)[id]
  {}

  lemma {:induction false} CountsSame(s: State, step: Step)
    requires Enabled(s, step) && !step.Fetch? && !step.Copy?
    ensures Apply(s, step).working == s.working && Apply(s, step).busy == s.busy
  {
    hide NextRows, Newest, PutOnce, Key, Has;
  }

  lemma {:induction false} FetchMoves(s: State, found: Option<nat>, id: nat, p: Pair)
    requires Enabled(s, Fetch(found))
    ensures var t := Apply(s, Fetch(found));
      && t.working[id] == s.working[id] + (if found == Some(id) then 1 else 0)
      && t.busy[p] == s.busy[p] + (if s.fetching[0] == p then 1 else 0)
  {
    hide NextRows, Newest, PutOnce;
  }

  lemma {:induction false} CopyMoves(s: State, other: nat, outcome: Outcome, id: nat, p: Pair)
    requires Enabled(s, Copy(other, outcome))
    ensures var t := Apply(s, Copy(other, outcome));
      && t.working[id] == s.working[id] - (if other == id then 1 else 0)
      && t.busy[p] == s.busy[p] - (if outcome != NoCopy && Has(s.rows[other], p) && p in s.busy then 1 else 0)
  {
    KeyIs(s.rows[other], p);
    hide NextRows, Key, Has;
  }

  /** What one step does to the copies under way and to current_queue: a fetch puts its row and its pair
      in, a copy takes its row out, and its pair unless it failed without an exception. */
  lemma {:induction false} CountEffects(s: State, step: Step, id: nat, p: Pair)
    requires Enabled(s, step)
    ensures var t := Apply(s, step);
      match step
      case Fetch(found) =>
        && t.working[id] == s.working[id] + (if found == Some(id) then 1 else 0)
        && t.busy[p] == s.busy[p] + (if s.fetching[0] == p then 1 else 0)
      case Copy(other, outcome) =>
        && t.working[id] == s.working[id] - (if other == id then 1 else 0)
        && t.busy[p] == s.busy[p] - (if outcome != NoCopy && Has(s.rows[other], p) && p in s.busy then 1 else 0)
      case _ => t.working == s.working && t.busy == s.busy
  {
    hide Apply, Enabled, Has;
    match step
    case Fetch(found) => FetchMoves(s, found, id, p);
    case Copy(other, outcome) => CopyMoves(s, other, outcome, id, p);
    case _ => CountsSame(s, step);
  }

  /** And to the rows marked as failed or copied. */
  lemma {:induction false} HandEffects(s: State, step: Step, id: nat)
    requires Enabled(s, step)
    ensures var t := Apply(s, step);
      && (id in t.marked <==> !step.CommitFailed? && (id in s.marked || (step.ListFailed? && step.found == Some(id))))
      && (id in t.copied <==> id in s.copied || step == Copy(id, Done))
  {
    hide NextRows, Newest, PutOnce, Finish, Key, Has;
  }

  lemma {:induction false} KeyIs(r: Row, p: Pair)
    requires r.node.Some? && r.task.Some?
    ensures Has(r, p) <==> Key(r) == p
  {}

  /** What one step does to the two queues and to the submission under way. */
  lemma {:induction false} QueueEffects(s: State, step: Step, p: Pair)
    requires Enabled(s, step)
    ensures var t := Apply(s, step);
      && t.fetching == (if step.Fetch? then s.fetching[1..]
                        else if step.Poll? && step.found.Some? && step.pair !in s.busy then s.fetching + [step.pair]
                        else s.fetching)
      && (p in t.cleaner <==>
            (!step.Remove? && p in s.cleaner) || (step.Poll? && step.pair == p && step.found.None?)
            || (step.Fetch? && s.fetching[0] == p && step.found.None?) || (step.ListFailed? && step.pair == p))
      && t.submitter == (if step.Accept? then Posted(step.id, step.pair)
                         else if step.Commit? then Idle else s.submitter)
  {
    hide NextRows, Newest, Key, Has, Finish, PutOnce, Unsubmitted;
    match step
    case Fetch(found) => PutOnceIn(s.cleaner, s.fetching[0], p);
    case ListFailed(q, found) => PutOnceIn(s.cleaner, q, p);
    case _ =>
  }

  /** And to what the workers know of a task. */
  lemma {:induction false} WorkerEffects(s: State, step: Step, p: Pair)
    requires Enabled(s, step)
    ensures var t := Apply(s, step);
      && (p in t.removed <==> p in s.removed || ((step.CronClean? || step.Remove?) && p in step.gone))
      && (p in t.used <==> p in s.used || ((step.Accept? || step.Stray?) && step.pair == p))
      && (p in t.reported <==> p in s.reported || step == Report(p))
      && (p in t.broken <==> p in s.broken || step == Break(p))
  {
    hide NextRows, Newest, Key, Has, Finish, PutOnce, Unsubmitted;
  }

  /** A copied row's callback went through or can; no query for open rows finds its pair again. */
  lemma {:induction false} CopiedIsSettled(s: State, id: nat, found: Option<nat>)
    requires Inv(s) && id in s.copied
    ensures s.rows[id].notificated || Enabled(s, Notify(id))
    ensures Submitted(s.rows, id)
    ensures Enabled(s, Poll(Key(s.rows[id]), found)) ==> found.None?
    ensures s.fetching != [] && s.fetching[0] == Key(s.rows[id]) && Enabled(s, Fetch(found)) ==> found.None?
  {
    assert Submitted(s.rows, id);
    if found.Some? && found.value in s.rows && Has(s.rows[found.value], Key(s.rows[id])) {
      assert Submitted(s.rows, found.value) && Key(s.rows[found.value]) == Key(s.rows[id]);
    }
    hide InFlight, Known, Counted, Earned;
  }
}
