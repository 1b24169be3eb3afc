/**
 * The durable workflow state of one job (state.rs): its chat_jobs row and, per workflow
 * id, its node-run rows. Each transaction is one atomic step.
 */
module Store {
  import opened Wrappers
  import opened Json
  import opened Contract
  import opened Scheduler

  datatype JobStatus = Queued | Executing | WaitingForUserInput | Finished | Broken | Cancelled

  /**
   * `memory` says whether the job has its row in assistant_job_memory, where the pending
   * clarification is kept; without one an update of it is lost without an error and reading it
   * finds nothing.
   */
  datatype Job = Job(
    id: nat, user: nat, status: JobStatus, workflow: Option<WorkflowId>, revision: int,
    currentNode: Option<NodeId>, memory: bool, pending: Option<nat>)

  datatype Db = Db(job: Job, tables: map<WorkflowId, seq<Row>>)

  datatype ResumeRequest = ResumeRequest(
    job: nat, user: nat, workflow: WorkflowId, node: NodeId, clarification: nat, revision: int)

  datatype ResumeOutcome = Resumed | NotFound | NotWaiting | Stale

  function Rows(db: Db, wid: WorkflowId): seq<Row> {
    if wid in db.tables then db.tables[wid] else []
  }

  /** Writing no rows where there are none changes nothing. */
  function WithRows(db: Db, wid: WorkflowId, rows: seq<Row>): (r: Db)
    ensures Rows(r, wid) == rows && r.job == db.job
    ensures forall other | other != wid :: Rows(r, other) == Rows(db, other)
  {
    if rows == [] && wid !in db.tables then db else db.(tables := db.tables[wid := rows])
  }

  lemma WithRowsTwice(db: Db, wid: WorkflowId, a: seq<Row>, b: seq<Row>)
    requires b == [] ==> a == []
    ensures WithRows(WithRows(db, wid, a), wid, b) == WithRows(db, wid, b)
    ensures WithRows(db, wid, Rows(db, wid)) == db
  {
  }

  // ------------------------------------------------------------------ row updates

  function RunningRow(id: nat, node: NodeId, attempt: nat): Row {
    Row(id, node, attempt, Status.Running, None, 0, None)
  }

  /** The unique key on (workflow, node, attempt). */
  predicate AttemptTaken(t: seq<Row>, node: NodeId, attempt: nat) {
    exists r :: r in t && r.node == node && r.attempt == attempt
  }

  function Completing(r: Row, output: Json, rows: int, ms: int): Row {
    r.(status := Status.Completed, output := Some(output), rows := rows, ms := Some(ms))
  }

  function Failing(r: Row, ms: int): Row {
    r.(status := Status.Failed, ms := Some(ms))
  }

  predicate RunningWithId(r: Row, id: nat) {
    r.id == id && r.status.Running?
  }

  function CompleteRows(t: seq<Row>, id: nat, output: Json, rows: int, ms: int): seq<Row> {
    seq(|t|, i requires 0 <= i < |t| => if RunningWithId(t[i], id) then Completing(t[i], output, rows, ms) else t[i])
  }

  function FailRows(t: seq<Row>, id: nat, ms: int): seq<Row> {
    seq(|t|, i requires 0 <= i < |t| => if RunningWithId(t[i], id) then Failing(t[i], ms) else t[i])
  }

  /** UPDATE .. SET status = after WHERE node_id = node AND status = before. */
  function SetStatus(t: seq<Row>, node: NodeId, before: Status, after: Status): seq<Row> {
    seq(|t|, i requires 0 <= i < |t| =>
      if t[i].node == node && t[i].status == before then t[i].(status := after) else t[i])
  }

  function CountRunning(t: seq<Row>, node: NodeId): nat {
    if t == [] then 0
    else CountRunning(t[..|t| - 1], node)
         + if t[|t| - 1].node == node && t[|t| - 1].status.Running? then 1 else 0
  }

  // ----------------------------------------------------------------- transactions

  const I16_MAX := 0x7FFF

  /**
   * Installing a workflow needs a contract version that fits the column and the caller's own
   * job; None is the error.
   */
  function Install(db: Db, job: nat, user: nat, wid: WorkflowId, version: u16): Option<Db> {
    if version <= I16_MAX && db.job.id == job && db.job.user == user then
      Some(db.(job := db.job.(workflow := Some(wid), revision := db.job.revision + 1, currentNode := None)))
    else None
  }

  /** Both updates of a pause must hit exactly one row, or the transaction is rolled back. */
  function Pause(db: Db, job: nat, user: nat, wid: WorkflowId, node: NodeId, clarification: nat): Option<Db> {
    if CountRunning(Rows(db, wid), node) != 1 then None
    else if db.job.id != job || db.job.user != user || db.job.workflow != Some(wid) then None
    else
      var paused := WithRows(db, wid, SetStatus(Rows(db, wid), node, Status.Running, Status.Waiting));
      Some(paused.(job := db.job.(status := WaitingForUserInput, currentNode := Some(node),
                                  revision := db.job.revision + 1, pending := Recorded(db.job, clarification))))
  }

  /** The pending clarification after it was set to this one. */
  function Recorded(job: Job, clarification: nat): Option<nat> {
    if job.memory then Some(clarification) else job.pending
  }

  predicate IdentityMatches(job: Job, request: ResumeRequest) {
    && job.workflow == Some(request.workflow)
    && job.revision == request.revision
    && job.currentNode == Some(request.node)
    && job.memory && job.pending == Some(request.clarification)
  }

  function Resume(db: Db, request: ResumeRequest): (Db, ResumeOutcome) {
    if db.job.id != request.job || db.job.user != request.user then (db, ResumeOutcome.NotFound)
    else if db.job.status != WaitingForUserInput then (db, NotWaiting)
    else if !IdentityMatches(db.job, request) then (db, Stale)
    else
      var wid := request.workflow;
      var answered := WithRows(db, wid, SetStatus(Rows(db, wid), request.node, Status.Waiting, Status.Completed));
      (answered.(job := db.job.(status := Queued, currentNode := Some(request.node),
                                revision := db.job.revision + 1, pending := None)), Resumed)
  }

  predicate RunningAt(t: seq<Row>, node: NodeId, i: nat) {
    i < |t| && t[i].node == node && t[i].status.Running?
  }

  ghost predicate SoleRunning(t: seq<Row>, node: NodeId, i: nat) {
    RunningAt(t, node, i) && forall j: nat :: RunningAt(t, node, j) ==> j == i
  }

  lemma {:induction false} CountsSole(t: seq<Row>, node: NodeId)
    ensures CountRunning(t, node) == 0 <==> forall i: nat :: !RunningAt(t, node, i)
    ensures CountRunning(t, node) == 1 <==> exists i: nat :: SoleRunning(t, node, i)
  {
    if t != [] {
      var init, k := t[..|t| - 1], |t| - 1;
      CountsSole(init, node);
      assert forall i: nat :: RunningAt(init, node, i) <==> i < k && RunningAt(t, node, i);
      assert forall i: nat :: RunningAt(t, node, i) <==> RunningAt(init, node, i) || (i == k && RunningAt(t, node, k));
      if RunningAt(t, node, k) {
        assert CountRunning(init, node) == 0 ==> SoleRunning(t, node, k);
        if i: nat :| SoleRunning(t, node, i) { assert i == k; }
      } else {
        forall i: nat ensures SoleRunning(t, node, i) <==> SoleRunning(init, node, i) {
        }
      }
    }
  }

  /**
   * A pause needs the owner's job on this workflow and exactly one running row of the node.
   * It makes that row wait and changes no other row and no other workflow; the job then waits
   * at the node, one revision on, and keeps the question if it has a memory row.
   */
  lemma PausesIff(db: Db, job: nat, user: nat, wid: WorkflowId, node: NodeId, clarification: nat)
    ensures
      var t, paused := Rows(db, wid), Pause(db, job, user, wid, node, clarification);
      && (paused.Some? <==>
            && db.job.id == job && db.job.user == user && db.job.workflow == Some(wid)
            && exists i: nat :: SoleRunning(t, node, i))
      && (paused.Some? ==>
            && paused.value.job == db.job.(status := WaitingForUserInput, currentNode := Some(node),
                                           revision := db.job.revision + 1,
                                           pending := if db.job.memory then Some(clarification) else db.job.pending)
            && (forall other | other != wid :: Rows(paused.value, other) == Rows(db, other))
            && |Rows(paused.value, wid)| == |t|
            && forall i: nat | i < |t| :: Rows(paused.value, wid)[i] ==
                 if RunningAt(t, node, i) then t[i].(status := Status.Waiting) else t[i])
  {
    CountsSole(Rows(db, wid), node);
  }

  /**
   * After a pause one single answer resumes the job: that of its owner, to this workflow and
   * node, with the recorded clarification and the revision the pause has written. A job without
   * a memory row cannot be resumed by any.
   */
  lemma PauseTakesOneAnswer(db: Db, job: nat, user: nat, wid: WorkflowId, node: NodeId, clarification: nat,
                            paused: Db, r: ResumeRequest)
    requires Pause(db, job, user, wid, node, clarification) == Some(paused)
    ensures Resume(paused, r).1.Resumed? <==>
            db.job.memory && r == ResumeRequest(job, user, wid, node, clarification, db.job.revision + 1)
  {
  }

  /** In any state: two answers that are both accepted are the same answer. */
  lemma AnswerIsUnique(db: Db, a: ResumeRequest, b: ResumeRequest)
    requires Resume(db, a).1.Resumed? && Resume(db, b).1.Resumed?
    ensures a == b
  {
  }

  /**
   * An answer for another job or from another user finds nothing, one to a job that does not
   * wait is turned away, and one that is not accepted changes nothing. After one that is
   * accepted the same answer is turned away.
   */
  lemma OnlyTheOwnerAnswers(db: Db, r: ResumeRequest)
    ensures Resume(db, r).1.NotFound? <==> r.job != db.job.id || r.user != db.job.user
    ensures Resume(db, r).1.NotWaiting? <==>
            r.job == db.job.id && r.user == db.job.user && db.job.status != WaitingForUserInput
    ensures Resume(db, r).1.Resumed? <==>
            && db.job.status == WaitingForUserInput && db.job.memory
            && (Some(r.workflow), Some(r.node), Some(r.clarification)) ==
                 (db.job.workflow, db.job.currentNode, db.job.pending)
            && (r.job, r.user, r.revision) == (db.job.id, db.job.user, db.job.revision)
    ensures !Resume(db, r).1.Resumed? ==> Resume(db, r).0 == db
    ensures Resume(db, r).1.Resumed? ==> Resume(Resume(db, r).0, r).1.NotWaiting?
  {
  }

  /**
   * A pause and its answer together complete the open rows of the node, without an output, and
   * change no other row and no other workflow. The job is queued again, two revisions on, with
   * no question left.
   */
  lemma PauseThenAnswer(db: Db, job: nat, user: nat, wid: WorkflowId, node: NodeId, clarification: nat,
                        paused: Db, r: ResumeRequest, answered: Db)
    requires Pause(db, job, user, wid, node, clarification) == Some(paused)
    requires Resume(paused, r) == (answered, Resumed)
    ensures answered.job == db.job.(status := Queued, currentNode := Some(node), pending := None,
                                    revision := db.job.revision + 2)
    ensures forall other | other != wid :: Rows(answered, other) == Rows(db, other)
    ensures
      var before, after := Rows(db, wid), Rows(answered, wid);
      |after| == |before| && forall i | 0 <= i < |before| ::
        after[i] == if before[i].node == node && IsOpen(before[i]) then before[i].(status := Status.Completed)
                    else before[i]
  {
    PauseTakesOneAnswer(db, job, user, wid, node, clarification, paused, r);
  }

  /** Some answer resumes a paused job exactly if its clarification could be kept. */
  lemma ResumableIffRecorded(db: Db, job: nat, user: nat, wid: WorkflowId, node: NodeId, clarification: nat)
    requires Pause(db, job, user, wid, node, clarification).Some?
    ensures
      var paused := Pause(db, job, user, wid, node, clarification).value;
      (exists r :: Resume(paused, r).1.Resumed?) <==> db.job.memory
  {
    var paused := Pause(db, job, user, wid, node, clarification).value;
    var r := ResumeRequest(job, user, wid, node, clarification, db.job.revision + 1);
    PauseTakesOneAnswer(db, job, user, wid, node, clarification, paused, r);
  }

  // ------------------------------------------------------------------- invariants

  ghost predicate IdsAreIndices(t: seq<Row>) {
    forall i | 0 <= i < |t| :: t[i].id == i
  }

  /**
   * Only the last row of a node may be anything but failed, and attempts increase. Two of
   * the six statuses of the schema are never written.
   */
  ghost predicate WellKept(t: seq<Row>) {
    && IdsAreIndices(t)
    && (forall i | 0 <= i < |t| :: !t[i].status.Runnable? && !t[i].status.Skipped?)
    && (forall i, j | 0 <= i < j < |t| && t[i].node == t[j].node ::
          t[i].status.Failed? && t[i].attempt < t[j].attempt)
  }

  lemma WellKeptCompletedOnce(t: seq<Row>)
    requires WellKept(t)
    ensures CompletedOnce(t)
  {
  }

  lemma CompleteLast(t: seq<Row>, r: Row, output: Json, rows: int, ms: int)
    requires IdsAreIndices(t) && r.id == |t| && r.status.Running?
    ensures CompleteRows(t + [r], r.id, output, rows, ms) == t + [Completing(r, output, rows, ms)]
    ensures FailRows(t + [r], r.id, ms) == t + [Failing(r, ms)]
  {
  }

  // ------------------------------------------------------------------- repository

  class WorkflowStateRepository {
    var job: Job
    var tables: map<WorkflowId, seq<Row>>

    ghost function View(): Db
      reads this
    {
      Db(job, tables)
    }

    constructor (job: Job)
      ensures View() == Db(job, map[])
    {
      this.job := job;
      this.tables := map[];
    }

    method InstallWorkflow(jobId: nat, user: nat, w: Workflow, version: u16) returns (ok: bool)
      modifies this
      ensures ok <==> Install(old(View()), jobId, user, w.id, version).Some?
      ensures View() == if ok then Install(old(View()), jobId, user, w.id, version).value else old(View())
      ensures ok <==> version < 0x8000 && old(job).id == jobId && old(job).user == user
      ensures tables == old(tables)
      ensures ok ==> job == old(job).(workflow := Some(w.id), revision := old(job).revision + 1, currentNode := None)
    {
      if version > I16_MAX {
        return false;
      }
      ok := job.id == jobId && job.user == user;
      if ok {
        job := job.(workflow := Some(w.id), revision := job.revision + 1, currentNode := None);
      }
    }

    function Table(wid: WorkflowId): seq<Row>
      reads this
      ensures Table(wid) == Rows(View(), wid)
    {
      if wid in tables then tables[wid] else []
    }

    /** All rows of a workflow, in some order. */
    method NodeRuns(wid: WorkflowId) returns (runs: seq<Row>)
      ensures SameRows(Rows(View(), wid), runs)
    {
      runs := Table(wid);
    }

    method BeginNode(wid: WorkflowId, node: NodeId, attempt: nat) returns (row: Option<Row>)
      modifies this
      ensures row.None? <==> exists r :: r in old(Table(wid)) && r.node == node && r.attempt == attempt
      ensures row.None? ==> View() == old(View())
      ensures row.Some? ==> row.value == Row(|old(Table(wid))|, node, attempt, Status.Running, None, 0, None)
      ensures row.Some? ==> View() == WithRows(old(View()), wid, old(Table(wid)) + [row.value])
    {
      var t := Table(wid);
      if AttemptTaken(t, node, attempt) {
        row := None;
      } else {
        row := Some(RunningRow(|t|, node, attempt));
        tables := tables[wid := t + [row.value]];
      }
    }

    /** A completion that finds no running row with the id is stale and changes nothing. */
    method CompleteNode(wid: WorkflowId, row: Row, output: Json, rows: int, ms: int) returns (ok: bool)
      modifies this
      ensures ok <==> exists r :: r in old(Table(wid)) && r.id == row.id && r.status.Running?
      ensures ok ==> |Table(wid)| == |old(Table(wid))| && forall i | 0 <= i < |Table(wid)| ::
                var r := old(Table(wid))[i];
                Table(wid)[i] == if r.id == row.id && r.status.Running?
                                 then Row(r.id, r.node, r.attempt, Status.Completed, Some(output), rows, Some(ms))
                                     else r
      ensures ok ==> View() == WithRows(old(View()), wid, CompleteRows(old(Table(wid)), row.id, output, rows, ms))
      ensures !ok ==> View() == old(View())
    {
      var t := Table(wid);
      ok := exists r :: r in t && RunningWithId(r, row.id);
      if ok {
        tables := tables[wid := CompleteRows(t, row.id, output, rows, ms)];
      }
    }

    method FailNode(wid: WorkflowId, row: Row, ms: int)
      modifies this
      ensures View() == WithRows(old(View()), wid, FailRows(old(Table(wid)), row.id, ms))
      ensures |Table(wid)| == |old(Table(wid))| && forall i | 0 <= i < |Table(wid)| ::
                var r := old(Table(wid))[i];
                Table(wid)[i] == if r.id == row.id && r.status.Running?
                                 then r.(status := Status.Failed, ms := Some(ms)) else r
    {
      if wid in tables {
        tables := tables[wid := FailRows(tables[wid], row.id, ms)];
      }
    }

    method MarkWorkflowPaused(jobId: nat, user: nat, wid: WorkflowId, node: NodeId, clarification: nat)
      returns (ok: bool)
      modifies this
      ensures ok <==> Pause(old(View()), jobId, user, wid, node, clarification).Some?
      ensures View() == if ok then Pause(old(View()), jobId, user, wid, node, clarification).value else old(View())
    {
      var t := Table(wid);
      if CountRunning(t, node) != 1 {
        return false;
      }
      if job.id != jobId || job.user != user || job.workflow != Some(wid) {
        return false;
      }
      tables := tables[wid := SetStatus(t, node, Status.Running, Status.Waiting)];
      job := job.(status := WaitingForUserInput, currentNode := Some(node), revision := job.revision + 1,
                  pending := Recorded(job, clarification));
      ok := true;
    }

    method ResumeWorkflow(request: ResumeRequest) returns (outcome: ResumeOutcome)
      modifies this
      ensures (View(), outcome) == Resume(old(View()), request)
      ensures outcome.NotFound? <==> old(job).id != request.job || old(job).user != request.user
      ensures outcome.Resumed? <==>
              && old(job).id == request.job && old(job).user == request.user
              && old(job).status == WaitingForUserInput && old(job).workflow == Some(request.workflow)
              && old(job).revision == request.revision && old(job).currentNode == Some(request.node)
              && old(job).memory && old(job).pending == Some(request.clarification)
      ensures !outcome.Resumed? ==> View() == old(View())
    {
      if job.id != request.job || job.user != request.user {
        return ResumeOutcome.NotFound;
      }
      if job.status != WaitingForUserInput {
        return NotWaiting;
      }
      if !IdentityMatches(job, request) {
        return Stale;
      }
      var wid := request.workflow;
      if wid in tables {
        tables := tables[wid := SetStatus(tables[wid], request.node, Status.Waiting, Status.Completed)];
      }
      job := job.(status := Queued, currentNode := Some(request.node), revision := job.revision + 1, pending := None);
      outcome := Resumed;
    }
  }
}
