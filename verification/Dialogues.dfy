/**
 * Jobs that are asked, answered and run again: if no two questions can be asked at once, every
 * answer settles one for good, so there are no more rounds than questions.
 */
module Dialogues {
  import opened Wrappers
  import opened Json
  import opened Contract
  import opened Scheduler
  import opened Ledger
  import opened Store
  import opened Runner
  import opened History
  import opened BudgetSafety
  import opened Verifier
  import opened Endings
  import opened Liveness

  // ------------------------------------------------------------------ one question at a time

  predicate IsQuestion(w: Workflow, n: Node) {
    n in w.nodes && n.kind.ClarificationInterrupt?
  }

  /** No two questions can fall in one batch: batches hold one node, or one dominates the other. */
  ghost predicate QuestionsApart(w: Workflow) {
    || MaxParallel(w.budgets) == 1
    || (forall m, n | IsQuestion(w, m) && IsQuestion(w, n) ::
          m.id == n.id || Dominates(w, m.id, n.id) || Dominates(w, n.id, m.id))
  }

  lemma DominatorIsThrough(w: Workflow, t: seq<Row>, m: NodeId, n: NodeId)
    requires TableInv(w, t) && IsRunnable(w, m, t) && IsRunnable(w, n, t) && Dominates(w, m, n)
    ensures m == n
  {
    if m != n { DominatorsCompleted(w, t, m, n); }
  }

  lemma BatchIsNarrow(w: Workflow, t: seq<Row>)
    ensures |SelectBatch(w, FromCompleted(w, t), t)| <= MaxParallel(w.budgets)
  {
  }

  lemma TwoQuestionsMeet(w: Workflow, t: seq<Row>, m: Node, n: Node)
    requires QuestionsApart(w) && TableInv(w, t) && MaxParallel(w.budgets) != 1
    requires IsQuestion(w, m) && IsQuestion(w, n) && IsRunnable(w, m.id, t) && IsRunnable(w, n.id, t)
    ensures m.id == n.id
  {
    if Dominates(w, m.id, n.id) { DominatorIsThrough(w, t, m.id, n.id); }
    if Dominates(w, n.id, m.id) { DominatorIsThrough(w, t, n.id, m.id); }
  }

  lemma AskedAlone(w: Workflow, t: seq<Row>, batch: seq<Node>, now: nat -> Turn, i: nat, k: nat)
    requires QuestionsApart(w) && TableInv(w, t) && batch == SelectBatch(w, FromCompleted(w, t), t)
    requires i < |batch| && FateOf(w, batch[i], t, now(i)) == HasAsked
    requires k < |batch| && FateOf(w, batch[k], t, now(k)) == HasAsked
    ensures batch[i].id == batch[k].id
  {
    if MaxParallel(w.budgets) == 1 {
      BatchIsNarrow(w, t);
    } else {
      BatchMember(w, t, i);
      BatchMember(w, t, k);
      TwoQuestionsMeet(w, t, batch[i], batch[k]);
    }
  }

  /** Of all rows that of `p` alone is open, and it waits. */
  ghost predicate WaitsAlone(w: Workflow, t: seq<Row>, p: NodeId) {
    && TableInv(w, t) && (forall r :: r in t && r.node != p ==> !IsOpen(r))
    && (exists r :: r in t && r.node == p && r.status.Waiting?)
  }

  /** Nobody but `p` asked, and nobody was left blind. */
  ghost predicate OnlyAsked(w: Workflow, batch: seq<Node>, base: seq<Row>, now: nat -> Turn, p: NodeId) {
    forall j: nat :: j < |batch| ==>
      && FateOf(w, batch[j], base, now(j)) != LeftBlind
      && (FateOf(w, batch[j], base, now(j)) == HasAsked ==> batch[j].id == p)
  }

  lemma OtherIsClosed(w: Workflow, n: Node, base: seq<Row>, turn: Turn, r: Row, p: NodeId)
    requires RowLeft(w, n, base, turn, r) && FateOf(w, n, base, turn) != LeftBlind
    requires FateOf(w, n, base, turn) == HasAsked ==> n.id == p
    ensures r.node == p || !IsOpen(r)
  {
  }

  lemma OthersAreClosed(w: Workflow, base: seq<Row>, batch: seq<Node>, now: nat -> Turn, t: seq<Row>, p: NodeId)
    requires NothingOpen(base) && RowsLeft(w, batch, base, now, t) && OnlyAsked(w, batch, base, now, p)
    ensures forall r :: r in t && r.node != p ==> !IsOpen(r)
  {
    forall i: nat | i < |t| ensures t[i].node == p || !IsOpen(t[i]) {
      if i < |base| {
        assert t[i] == base[i] && base[i] in base;
      } else {
        var j: nat := i - |base|;
        assert RowLeft(w, batch[j], base, now(j), t[|base| + j]);
        OtherIsClosed(w, batch[j], base, now(j), t[i], p);
      }
    }
  }

  lemma OneAsked(w: Workflow, base: seq<Row>, batch: seq<Node>, now: nat -> Turn, k: nat)
    requires QuestionsApart(w) && TableInv(w, base) && batch == SelectBatch(w, FromCompleted(w, base), base)
    requires k < |batch| && FateOf(w, batch[k], base, now(k)) == HasAsked
    requires !SomeFate(w, batch, base, now, LeftBlind)
    ensures OnlyAsked(w, batch, base, now, batch[k].id)
  {
    forall j: nat | j < |batch| && FateOf(w, batch[j], base, now(j)) == HasAsked ensures batch[j].id == batch[k].id {
      AskedAlone(w, base, batch, now, j, k);
    }
  }

  lemma WaitingAlone(w: Workflow, base: seq<Row>, batch: seq<Node>, now: nat -> Turn, t: seq<Row>, p: NodeId)
    requires QuestionsApart(w) && Settled(w, base) && batch == SelectBatch(w, FromCompleted(w, base), base)
    requires BatchLeft(w, batch, base, now, t) && WaitsAt(w, batch, base, now, t, p)
    requires !SomeFate(w, batch, base, now, LeftBlind)
    ensures WaitsAlone(w, t, p)
  {
    var k: nat :| k < |batch| && FateOf(w, batch[k], base, now(k)) == HasAsked && batch[k].id == p
                  && |base| + k < |t| && t[|base| + k].status.Waiting?;
    assert RowLeft(w, batch[k], base, now(k), t[|base| + k]) && t[|base| + k] in t;
    OneAsked(w, base, batch, now, k);
    OthersAreClosed(w, base, batch, now, t, p);
  }

  // ------------------------------------------------------------------------------ the answer

  lemma OneLiveRow(t: seq<Row>, i: nat, j: nat)
    requires WellKept(t) && i < |t| && j < |t| && t[i].node == t[j].node
    requires !t[i].status.Failed? && !t[j].status.Failed?
    ensures i == j
  {
  }

  lemma AnswerCompletes(t: seq<Row>, p: NodeId)
    requires exists r :: r in t && r.node == p && r.status.Waiting?
    ensures IsCompleted(SetStatus(t, p, Status.Waiting, Status.Completed), p)
  {
    var b := SetStatus(t, p, Status.Waiting, Status.Completed);
    var i :| 0 <= i < |t| && t[i].node == p && t[i].status.Waiting?;
    assert b[i] in b && b[i].node == p && b[i].status.Completed?;
  }

  lemma AnswerClosesRow(w: Workflow, t: seq<Row>, p: NodeId, j: nat)
    requires WaitsAlone(w, t, p) && j < |t|
    ensures !IsOpen(SetStatus(t, p, Status.Waiting, Status.Completed)[j])
  {
    assert t[j] in t;
    if IsOpen(t[j]) {
      var i :| 0 <= i < |t| && t[i].node == p && t[i].status.Waiting?;
      OneLiveRow(t, i, j);
    }
  }

  /** The answer to the question that waits alone leaves everything settled, and it completed. */
  lemma AnswerSettles(w: Workflow, t: seq<Row>, p: NodeId)
    requires WaitsAlone(w, t, p)
    ensures
      var b := SetStatus(t, p, Status.Waiting, Status.Completed);
      Settled(w, b) && IsCompleted(b, p) && KeepsCompleted(t, b)
  {
    var b := SetStatus(t, p, Status.Waiting, Status.Completed);
    AnsweredTable(w, t, p);
    EvolvesKeepsCompleted(t, b);
    AnswerCompletes(t, p);
    forall r | r in b ensures !IsOpen(r) {
      var j: nat :| j < |b| && b[j] == r;
      AnswerClosesRow(w, t, p, j);
    }
  }

  lemma CompletedStays(a: seq<Row>, b: seq<Row>, c: seq<Row>, n: NodeId)
    requires a <= b && KeepsCompleted(b, c) && IsCompleted(a, n)
    ensures IsCompleted(c, n)
  {
    var i :| 0 <= i < |a| && a[i].node == n && a[i].status.Completed?;
    assert b[i] == a[i] && c[i] == b[i] && c[i] in c;
  }

  /** The state after a run stopped at its question and got this answer. */
  predicate AnsweredThen(stopped: RunResult, request: ResumeRequest, db: Db) {
    stopped.outcome.WaitingFor? && Resume(stopped.db, request) == (db, Resumed)
  }

  lemma AnswerIsItsOwn(w: Workflow, user: nat, last: Db, stopped: RunResult, request: ResumeRequest, db: Db)
    requires Owned(last, w, user) && stopped.outcome.WaitingFor? && AnsweredThen(stopped, request, db)
    requires JobWaits(last.job, stopped.db.job, stopped.outcome.node)
    ensures request.workflow == w.id && request.node == stopped.outcome.node && Owned(db, w, user)
    ensures Rows(db, w.id) == SetStatus(Rows(stopped.db, w.id), stopped.outcome.node, Status.Waiting, Status.Completed)
  {
    ResumedRows(stopped.db, request);
  }

  /** A run that waits, and its answer: one more question has completed for good. */
  lemma AnswerContinues(first: Db, w: Workflow, user: nat, now: nat -> Turn, last: Db, stopped: RunResult,
                        request: ResumeRequest, db: Db)
    requires QuestionsApart(w) && Owned(first, w, user) && LastIs(first, w, user, now, last, stopped)
    requires AnsweredThen(stopped, request, db)
    ensures Settled(w, Rows(db, w.id)) && Owned(db, w, user)
    ensures WaitsUnasked(first, w, stopped) && IsCompleted(Rows(db, w.id), stopped.outcome.node)
    ensures KeepsCompleted(Rows(stopped.db, w.id), Rows(db, w.id))
    ensures forall n :: IsCompleted(Rows(first, w.id), n) ==> IsCompleted(Rows(db, w.id), n)
  {
    var p, t := stopped.outcome.node, Rows(stopped.db, w.id);
    WaitingIsUnasked(first, w, user, now, last, stopped);
    var base := Rows(last, w.id);
    WaitingAlone(w, base, SelectBatch(w, FromCompleted(w, base), base), now, t, p);
    AnswerIsItsOwn(w, user, last, stopped, request, db);
    AnswerSettles(w, t, p);
    StopKeepsRows(w, last, now, stopped.db, stopped.outcome);
    forall n | IsCompleted(Rows(first, w.id), n) ensures IsCompleted(Rows(db, w.id), n) {
      CompletedStays(Rows(first, w.id), t, Rows(db, w.id), n);
    }
  }

  // --------------------------------------------------------------------------------- rounds

  /** How many listed questions have not been answered. */
  function OpenQuestions(nodes: seq<Node>, t: seq<Row>): nat {
    if nodes == [] then 0
    else
      OpenQuestions(nodes[1..], t)
      + if nodes[0].kind.ClarificationInterrupt? && !IsCompleted(t, nodes[0].id) then 1 else 0
  }

  lemma {:induction false} OpenShrinks(nodes: seq<Node>, a: seq<Row>, b: seq<Row>, n: Node)
    requires forall m :: IsCompleted(a, m) ==> IsCompleted(b, m)
    ensures OpenQuestions(nodes, b) <= OpenQuestions(nodes, a)
    ensures n in nodes && n.kind.ClarificationInterrupt? && !IsCompleted(a, n.id) && IsCompleted(b, n.id) ==>
              OpenQuestions(nodes, b) < OpenQuestions(nodes, a)
  {
    if nodes != [] { OpenShrinks(nodes[1..], a, b, n); }
  }

  lemma {:induction false} NoneOpenIsAllAnswered(nodes: seq<Node>, t: seq<Row>, n: Node)
    requires n in nodes && n.kind.ClarificationInterrupt? && !IsCompleted(t, n.id)
    ensures OpenQuestions(nodes, t) > 0
  {
    if n != nodes[0] { NoneOpenIsAllAnswered(nodes[1..], t, n); }
  }

  /** A run and the answer to the question it ends at. */
  datatype Round = Round(turns: nat -> nat -> Turn, request: ResumeRequest)

  function AfterRound(db: Db, w: Workflow, user: nat, round: Round): Db {
    Resume(RunStateless(db, w, user, round.turns, 0).db, round.request).0
  }

  ghost predicate GoodRound(db: Db, w: Workflow, user: nat, round: Round) {
    && Obedient(db, w, user, round.turns, 0)
    && AnsweredThen(RunStateless(db, w, user, round.turns, 0), round.request, AfterRound(db, w, user, round))
  }

  function AfterRounds(db: Db, w: Workflow, user: nat, rounds: seq<Round>): Db
    decreases |rounds|
  {
    if rounds == [] then db else AfterRounds(AfterRound(db, w, user, rounds[0]), w, user, rounds[1..])
  }

  ghost predicate Dialogue(db: Db, w: Workflow, user: nat, rounds: seq<Round>)
    decreases |rounds|
  {
    rounds != [] ==>
      GoodRound(db, w, user, rounds[0]) && Dialogue(AfterRound(db, w, user, rounds[0]), w, user, rounds[1..])
  }

  /** Every round answers a question that no earlier one answered. */
  lemma RoundAnswersOne(db: Db, w: Workflow, user: nat, round: Round)
    requires UniqueIds(w.nodes) && QuestionsApart(w) && Settled(w, Rows(db, w.id)) && Owned(db, w, user)
    requires GoodRound(db, w, user, round)
    ensures
      var after := AfterRound(db, w, user, round);
      && Settled(w, Rows(after, w.id)) && Owned(after, w, user)
      && OpenQuestions(w.nodes, Rows(after, w.id)) < OpenQuestions(w.nodes, Rows(db, w.id))
  {
    RunEnds(db, w, user, round.turns, 0);
    var (last, j) := LastState(db, w, user, round.turns, 0);
    var stopped, after := RunStateless(db, w, user, round.turns, 0), AfterRound(db, w, user, round);
    AnswerContinues(db, w, user, round.turns(j), last, stopped, round.request, after);
    var n :| n in w.nodes && n.id == stopped.outcome.node && n.kind.ClarificationInterrupt?;
    OpenShrinks(w.nodes, Rows(db, w.id), Rows(after, w.id), n);
  }

  lemma {:induction false} DialogueAnswers(db: Db, w: Workflow, user: nat, rounds: seq<Round>)
    requires UniqueIds(w.nodes) && QuestionsApart(w) && Settled(w, Rows(db, w.id)) && Owned(db, w, user)
    requires Dialogue(db, w, user, rounds)
    ensures
      var after := AfterRounds(db, w, user, rounds);
      && Settled(w, Rows(after, w.id)) && Owned(after, w, user)
      && |rounds| + OpenQuestions(w.nodes, Rows(after, w.id)) <= OpenQuestions(w.nodes, Rows(db, w.id))
    decreases |rounds|
  {
    if rounds != [] {
      RoundAnswersOne(db, w, user, rounds[0]);
      var next, rest := AfterRound(db, w, user, rounds[0]), rounds[1..];
      DialogueAnswers(next, w, user, rest);
    }
  }

  /** A run never waits when all questions have been answered. */
  lemma WaitingNeedsQuestion(db: Db, w: Workflow, r: RunResult)
    requires WaitsUnasked(db, w, r)
    ensures OpenQuestions(w.nodes, Rows(db, w.id)) > 0
  {
    var n :| n in w.nodes && n.id == r.outcome.node && n.kind.ClarificationInterrupt?;
    NoneOpenIsAllAnswered(w.nodes, Rows(db, w.id), n);
  }

  /**
   * A job whose questions are apart is answered at most once for each of them; the run after
   * its rounds waits only if fewer were answered than were open, and if it completes, every
   * node has (in a well-shaped workflow without cardinality conditions).
   */
  lemma JobCompletesAll(db: Db, w: Workflow, user: nat, rounds: seq<Round>, turns: nat -> nat -> Turn)
    requires WellShaped(w) && Unconditional(w) && QuestionsApart(w)
    requires Settled(w, Rows(db, w.id)) && Owned(db, w, user) && Dialogue(db, w, user, rounds)
    requires Obedient(AfterRounds(db, w, user, rounds), w, user, turns, 0)
    ensures
      var next := AfterRounds(db, w, user, rounds);
      var (last, j) := LastState(next, w, user, turns, 0);
      var r := RunStateless(next, w, user, turns, 0);
      && |rounds| <= OpenQuestions(w.nodes, Rows(db, w.id))
      && Explained(next, w, last, turns(j), r)
      && (r.outcome.WaitingFor? ==> |rounds| < OpenQuestions(w.nodes, Rows(db, w.id)))
  {
    DialogueAnswers(db, w, user, rounds);
    var next := AfterRounds(db, w, user, rounds);
    RunCompletesAll(next, w, user, turns);
    if RunStateless(next, w, user, turns, 0).outcome.WaitingFor? {
      WaitingNeedsQuestion(next, w, RunStateless(next, w, user, turns, 0));
    }
  }

  // --------------------------------------------------------------------- such worlds exist

  /** What the world does in an iteration, by the rows it begins with. */
  type World = seq<Row> -> (nat -> Turn)

  function Doing(turns: nat -> Turn, rest: nat -> nat -> Turn, k: nat): nat -> nat -> Turn {
    (i: nat) => if i == k then turns else rest(i)
  }

  /** One iteration of a run and its claim. */
  lemma ThroughoutStep(db: Db, w: Workflow, user: nat, turns: nat -> nat -> Turn, k: nat, claim: Claim)
      returns (step: Iteration)
    ensures step == Iterate(db, w, user, FromCompleted(w, Rows(db, w.id)), turns(k))
    ensures step.Next? ==> Pending(w.nodes, Rows(step.db, w.id)) < Pending(w.nodes, Rows(db, w.id))
    ensures Throughout(db, w, user, turns, k, claim) <==>
            claim(Rows(db, w.id), turns(k)) && (step.Next? ==> Throughout(step.db, w, user, turns, k + 1, claim))
  {
    step := Iterate(db, w, user, FromCompleted(w, Rows(db, w.id)), turns(k));
    if step.Next? { IterationProgresses(db, w, user, FromCompleted(w, Rows(db, w.id)), turns(k)); }
  }

  lemma LastTurns(db: Db, w: Workflow, user: nat, a: nat -> nat -> Turn, b: nat -> nat -> Turn, k: nat, claim: Claim)
    requires a(k) == b(k) && Iterate(db, w, user, FromCompleted(w, Rows(db, w.id)), a(k)).Stop?
    ensures Throughout(db, w, user, a, k, claim) <==> Throughout(db, w, user, b, k, claim)
  {
    var step := ThroughoutStep(db, w, user, a, k, claim);
    var same := ThroughoutStep(db, w, user, b, k, claim);
  }

  lemma MoreTurns(db: Db, w: Workflow, user: nat, a: nat -> nat -> Turn, b: nat -> nat -> Turn, k: nat, after: Db,
                  next: nat, claim: Claim)
    requires a(k) == b(k) && Iterate(db, w, user, FromCompleted(w, Rows(db, w.id)), a(k)).Next?
    requires after == Iterate(db, w, user, FromCompleted(w, Rows(db, w.id)), a(k)).db && next == k + 1
    requires Throughout(after, w, user, a, next, claim) <==> Throughout(after, w, user, b, next, claim)
    ensures Throughout(db, w, user, a, k, claim) <==> Throughout(db, w, user, b, k, claim)
  {
    var step := ThroughoutStep(db, w, user, a, k, claim);
    var same := ThroughoutStep(db, w, user, b, k, claim);
  }

  /** Only the turns of iterations to come matter. */
  lemma {:induction false} OnlyLaterTurns(db: Db, w: Workflow, user: nat, turns: nat -> nat -> Turn, at: nat,
                                          now: nat -> Turn, k: nat, claim: Claim)
    requires at < k
    ensures Throughout(db, w, user, turns, k, claim) <==> Throughout(db, w, user, Doing(now, turns, at), k, claim)
    decreases Pending(w.nodes, Rows(db, w.id))
  {
    var step := ThroughoutStep(db, w, user, turns, k, claim);
    var others := Doing(now, turns, at);
    if step.Next? {
      var after, next := step.db, k + 1;
      OnlyLaterTurns(after, w, user, turns, at, now, next, claim);
      MoreTurns(db, w, user, turns, others, k, after, next, claim);
    } else {
      LastTurns(db, w, user, turns, others, k, claim);
    }
  }

  /** For every workflow and every state there are turns by which the whole run lives in this world. */
  lemma {:induction false} SomeWorldFollows(db: Db, w: Workflow, user: nat, k: nat, world: World, claim: Claim)
      returns (turns: nat -> nat -> Turn)
    requires forall t :: claim(t, world(t))
    ensures Throughout(db, w, user, turns, k, claim)
    decreases Pending(w.nodes, Rows(db, w.id))
  {
    var now := world(Rows(db, w.id));
    var step := Iterate(db, w, user, FromCompleted(w, Rows(db, w.id)), now);
    if step.Next? {
      IterationProgresses(db, w, user, FromCompleted(w, Rows(db, w.id)), now);
      var after, next := step.db, k + 1;
      var rest := SomeWorldFollows(after, w, user, next, world, claim);
      turns := Doing(now, rest, k);
      OnlyLaterTurns(after, w, user, rest, k, now, next, claim);
    } else {
      turns := (i: nat) => now;
    }
    assert turns(k) == now;
  }

  function WillingTurn(n: Node): Turn {
    Turn(true, Null, false, 0,
         if n.kind.ClarificationInterrupt? then Asked(0) else if Composes(n) then Produced(Null, 0) else Crash, false)
  }

  function Willing(w: Workflow): World {
    t => (j: nat) =>
           var batch := SelectBatch(w, FromCompleted(w, t), t);
           if j < |batch| then WillingTurn(batch[j]) else Turn(true, Null, false, 0, Refused, false)
  }

  lemma WillingObeys(n: Node)
    ensures Obeys(n, WillingTurn(n)) && Serves(WillingTurn(n))
  {
  }

  lemma WillingServes(w: Workflow, t: seq<Row>)
    ensures Serving(w)(t, Willing(w)(t))
  {
    var batch, now := SelectBatch(w, FromCompleted(w, t), t), Willing(w)(t);
    forall j: nat | j < |batch| ensures Obeys(batch[j], now(j)) && Serves(now(j)) { WillingObeys(batch[j]); }
  }

  /** For every workflow and every state there are turns that serve the whole run. */
  lemma SomeWorldServes(db: Db, w: Workflow, user: nat) returns (turns: nat -> nat -> Turn)
    ensures Throughout(db, w, user, turns, 0, Serving(w)) && Obedient(db, w, user, turns, 0)
  {
    forall t ensures Serving(w)(t, Willing(w)(t)) { WillingServes(w, t); }
    turns := SomeWorldFollows(db, w, user, 0, Willing(w), Serving(w));
    ThroughoutWeakens(db, w, user, turns, 0, Serving(w), Obeying(w));
  }
}
