/**
 * Branch decisions over whole histories (run/node/branch.rs): what a branch recorded is for
 * ever what its source's completed run says, so a matched arm reflects the data.
 */
module Branching {
  import opened Wrappers
  import opened Json
  import opened Contract
  import opened Scheduler
  import opened Ledger
  import opened Store
  import opened Runner
  import opened History

  function Decision(n: Node, c: Cardinality): Json {
    PersistedOutput(n.inputs, Object(map["cardinality" := String(NameOf(c))]))
  }

  lemma NamesDiffer()
    ensures "zero" != "one" && "zero" != "many" && "one" != "many"
  {
    assert "zero"[0] == 'z' && "one"[0] == 'o' && "many"[0] == 'm';
  }

  lemma DecisionMember(n: Node, c: Cardinality, key: string)
    ensures Get(Decision(n, c), key) ==
            if key == "cardinality" && key !in SensitiveFields(n.inputs) then Some(String(NameOf(c))) else None
  {
    PersistedIsClean(n.inputs, Object(map["cardinality" := String(NameOf(c))]));
  }

  /**
   * The recorded decision reads back as the decision taken, unless the branch binds an exact
   * sensitive input named "cardinality": then redaction removes it and the branch, which
   * returned no rows, reads as "zero".
   */
  lemma DecisionReadsBack(n: Node, c: Cardinality, r: Row)
    requires r.output == Some(Decision(n, c)) && r.rows == 0
    ensures CardinalityOf(r) == Some(c) <==> c.Zero? || "cardinality" !in SensitiveFields(n.inputs)
  {
    NamesDiffer();
    DecisionMember(n, c, "cardinality");
    DecisionMember(n, c, "row_count");
    assert "row_count"[0] != "cardinality"[0];
  }

  // -------------------------------------------------------------------- one table

  /** The completed row of the branch holds the decision that its source's row demands. */
  ghost predicate Agrees(n: Node, t: seq<Row>, r: Row)
    requires n.kind.CardinalityBranch?
  {
    && CardinalityFor(t, n.kind.source).Some?
    && r.output == Some(Decision(n, CardinalityFor(t, n.kind.source).value)) && r.rows == 0
  }

  /** No other node has the id. */
  ghost predicate Sole(w: Workflow, n: Node) {
    forall m | m in w.nodes && m.id == n.id :: m == n
  }

  /** A branch never waits, and once completed it agrees with its source. */
  ghost predicate RowDecided(w: Workflow, t: seq<Row>, r: Row) {
    forall n | n in w.nodes && n.kind.CardinalityBranch? && n.id == r.node && Sole(w, n) ::
      !r.status.Waiting? && (r.status.Completed? ==> Agrees(n, t, r))
  }

  ghost predicate Decided(w: Workflow, t: seq<Row>) {
    forall i | 0 <= i < |t| :: RowDecided(w, t, t[i])
  }

  lemma CardinalityStays(a: seq<Row>, b: seq<Row>, source: NodeId)
    requires KeepsCompleted(a, b) && WellKept(b) && CardinalityFor(a, source).Some?
    ensures CardinalityFor(b, source) == CardinalityFor(a, source)
  {
    FindStays(a, b, source);
  }

  lemma RowDecidedStays(w: Workflow, a: seq<Row>, b: seq<Row>, r: Row)
    requires KeepsCompleted(a, b) && WellKept(b) && RowDecided(w, a, r)
    ensures RowDecided(w, b, r)
  {
    forall n | n in w.nodes && n.kind.CardinalityBranch? && n.id == r.node && Sole(w, n) && r.status.Completed?
      ensures Agrees(n, b, r)
    {
      CardinalityStays(a, b, n.kind.source);
    }
  }

  /** The row a node adds to a batch is decided against the rows the batch began with. */
  lemma NodeDecides(w: Workflow, n: Node, base: seq<Row>, t: seq<Row>, turn: Turn)
    requires n in w.nodes
    ensures
      var t' := ExecuteNode(w, n, base, t, turn).0;
      t' == t || (|t'| == |t| + 1 && t' == t + [t'[|t|]] && RowDecided(w, base, t'[|t|]))
  {
    var t' := ExecuteNode(w, n, base, t, turn).0;
    if t' != t {
      var r := t'[|t|];
      forall m | m in w.nodes && m.kind.CardinalityBranch? && m.id == r.node && Sole(w, m)
        ensures !r.status.Waiting? && (r.status.Completed? ==> Agrees(m, base, r))
      {
        assert m == n;
      }
    }
  }

  lemma {:induction false} BatchDecides(w: Workflow, batch: seq<Node>, base: seq<Row>, turns: nat -> Turn, i: nat)
    requires i <= |batch| && forall n :: n in batch ==> n in w.nodes
    ensures
      var t := ExecuteBatch(w, batch, base, turns, i).0;
      base <= t && forall k | |base| <= k < |t| :: RowDecided(w, base, t[k])
  {
    if i > 0 {
      BatchDecides(w, batch, base, turns, i - 1);
      NodeDecides(w, batch[i - 1], base, ExecuteBatch(w, batch, base, turns, i - 1).0, turns(i - 1));
    }
  }

  lemma AppendedDecided(w: Workflow, a: seq<Row>, b: seq<Row>)
    requires Decided(w, a) && a <= b && WellKept(b)
    requires forall k | |a| <= k < |b| :: RowDecided(w, a, b[k])
    ensures Decided(w, b)
  {
    forall i | 0 <= i < |b| ensures RowDecided(w, b, b[i]) {
      assert i < |a| ==> b[i] == a[i];
      RowDecidedStays(w, a, b, b[i]);
    }
  }

  /** No branch ever asks, so pausing touches no branch. */
  lemma {:induction false} PausedIsNoBranch(w: Workflow, batch: seq<Node>, base: seq<Row>, turns: nat -> Turn, i: nat,
                                            r: Report)
    requires i <= |batch| && forall n :: n in batch ==> n in w.nodes
    requires r in ExecuteBatch(w, batch, base, turns, i).1 && r.Paused?
    ensures forall n :: n in w.nodes && n.kind.CardinalityBranch? && Sole(w, n) ==> n.id != r.node
  {
    var (t, reports) := ExecuteBatch(w, batch, base, turns, i - 1);
    if r in reports {
      PausedIsNoBranch(w, batch, base, turns, i - 1, r);
    } else {
      assert batch[i - 1] in batch;
    }
  }

  lemma PausedDecided(w: Workflow, t: seq<Row>, node: NodeId)
    requires WellKept(t) && Decided(w, t)
    requires forall n :: n in w.nodes && n.kind.CardinalityBranch? && Sole(w, n) ==> n.id != node
    ensures Decided(w, SetStatus(t, node, Status.Running, Status.Waiting))
  {
    var b := SetStatus(t, node, Status.Running, Status.Waiting);
    assert WellKept(b) && KeepsCompleted(t, b);
    forall i | 0 <= i < |b| ensures RowDecided(w, b, b[i]) {
      RowDecidedStays(w, t, b, t[i]);
    }
  }

  lemma AnsweredDecided(w: Workflow, t: seq<Row>, node: NodeId)
    requires WellKept(t) && Decided(w, t)
    ensures Decided(w, SetStatus(t, node, Status.Waiting, Status.Completed))
  {
    var b := SetStatus(t, node, Status.Waiting, Status.Completed);
    assert WellKept(b) && Evolves(t, b);
    EvolvesKeepsCompleted(t, b);
    forall i | 0 <= i < |b| ensures RowDecided(w, b, b[i]) {
      assert RowDecided(w, t, t[i]);
      RowDecidedStays(w, t, b, t[i]);
    }
  }

  // ------------------------------------------------------------------ whole histories

  lemma IterationDecides(db: Db, w: Workflow, user: nat, consumed: Totals, turns: nat -> Turn)
    requires TableInv(w, Rows(db, w.id)) && Decided(w, Rows(db, w.id))
    ensures Decided(w, Rows(Iterate(db, w, user, consumed, turns).db, w.id))
  {
    var a, batch := Rows(db, w.id), SelectBatch(w, consumed, Rows(db, w.id));
    if RunnableNodes(w, a) != [] && batch != [] {
      var (t, reports) := ExecuteBatch(w, batch, a, turns, |batch|);
      FirstOfBatchRunnable(w, consumed, a);
      BatchIsAppended(w, batch, a, turns, |batch|);
      AppendedIsWellKept(w, a, t);
      BatchDecides(w, batch, a, turns, |batch|);
      AppendedDecided(w, a, t);
      SettledRows(WithRows(db, w.id, t), w, user, consumed, reports);
      if FirstPaused(reports).Some? {
        PausedIsNoBranch(w, batch, a, turns, |batch|, FirstPaused(reports).value);
        PausedDecided(w, t, FirstPaused(reports).value.node);
      }
    }
  }

  lemma AnswerDecides(db: Db, w: Workflow, request: ResumeRequest)
    requires WellKept(Rows(db, w.id)) && Decided(w, Rows(db, w.id))
    ensures Decided(w, Rows(Resume(db, request).0, w.id))
  {
    ReplyRows(db, w.id, request);
    AnsweredDecided(w, Rows(db, w.id), request.node);
  }

  lemma EventDecides(defs: Definitions, db: Db, e: Event, wid: WorkflowId)
    requires Coherent(defs) && Inv(defs, db) && wid in defs
    requires Decided(defs[wid], Rows(db, wid))
    ensures Decided(defs[wid], Rows(Apply(defs, db, e), wid))
  {
    match e
    case Iterated(other, user, consumed, turns) =>
      if other == wid {
        IterationDecides(db, defs[wid], user, consumed, turns);
      } else if other in defs {
        IterationIsLocal(db, defs[other], user, consumed, turns, wid);
      }
    case Answered(request) => AnswerDecides(db, defs[wid], request);
    case _ =>
  }

  lemma {:induction false} HistoryDecides(defs: Definitions, db: Db, events: seq<Event>, wid: WorkflowId)
    requires Coherent(defs) && Initial(db) && wid in defs
    ensures Decided(defs[wid], Rows(After(defs, db, events), wid))
  {
    if events != [] {
      HistoryDecides(defs, db, events[..|events| - 1], wid);
      HistoryKeepsInvariant(defs, db, events[..|events| - 1]);
      EventDecides(defs, After(defs, db, events[..|events| - 1]), events[|events| - 1], wid);
    }
  }

  /**
   * In every reachable state, a completed branch has the cardinality of its source: the arm
   * it chose is the one its source's stored run calls for, then and ever after.
   */
  lemma BranchFollowsSource(defs: Definitions, db: Db, events: seq<Event>, wid: WorkflowId, n: Node)
    requires Coherent(defs) && Initial(db) && wid in defs
    requires n in defs[wid].nodes && n.kind.CardinalityBranch? && Sole(defs[wid], n)
    requires "cardinality" !in SensitiveFields(n.inputs)
    requires IsCompleted(Rows(After(defs, db, events), wid), n.id)
    ensures
      var t := Rows(After(defs, db, events), wid);
      CardinalityFor(t, n.id).Some? && CardinalityFor(t, n.id) == CardinalityFor(t, n.kind.source)
  {
    HistoryDecides(defs, db, events, wid);
    var t := Rows(After(defs, db, events), wid);
    var r := FindCompleted(t, n.id).value;
    var i :| 0 <= i < |t| && t[i] == r;
    assert RowDecided(defs[wid], t, t[i]);
    DecisionReadsBack(n, CardinalityFor(t, n.kind.source).value, r);
  }

  /**
   * A node that can only be reached through certain arms of a branch is started only if the
   * branch's source really has one of those cardinalities.
   */
  lemma ArmReflectsData(defs: Definitions, db: Db, events: seq<Event>, wid: WorkflowId, n: Node,
                        arms: set<Cardinality>, m: NodeId)
    requires Coherent(defs) && Initial(db) && wid in defs
    requires n in defs[wid].nodes && n.kind.CardinalityBranch? && Sole(defs[wid], n)
    requires "cardinality" !in SensitiveFields(n.inputs)
    requires OnlyThroughArms(defs[wid], n.id, arms, m)
    requires exists r :: r in Rows(After(defs, db, events), wid) && r.node == m
    ensures
      var t := Rows(After(defs, db, events), wid);
      CardinalityFor(t, n.kind.source).Some? && CardinalityFor(t, n.kind.source).value in arms
  {
    HistoryKeepsInvariant(defs, db, events);
    ArmWasTaken(defs[wid], Rows(After(defs, db, events), wid), n.id, arms, m);
    BranchFollowsSource(defs, db, events, wid, n);
  }
}
