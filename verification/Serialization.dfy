/**
 Whole runs. Any number of store operations, each cut into its statements and interleaved at will, leave the table and
 give the verdicts that the same operations give one at a time, each whole, in some order that keeps to real time.
 */
module Serialization {
  import opened Wrappers
  import opened Timestamps
  import opened ApprovalTable
  import opened Linearization

  /** An operation and the statements of the run that are its own. Sweeps, inserts and the like are one statement. */
  datatype Operation =
    | Getting(i: nat, k: nat, id: string, now: UtcTime)
    | Resolving(i: nat, j: nat, k: nat, d: Statement)
    | Consuming(i: nat, j: nat, k: nat, id: string, fp: Fingerprint, now: UtcTime)
    | Single(i: nat, s: Statement)
  {
    predicate Has(q: nat) {
      match this
      case Getting(i, k, _, _) => q == i || q == k
      case Resolving(i, j, k, _) => q == i || q == j || q == k
      case Consuming(i, j, k, _, _, _) => q == i || q == j || q == k
      case Single(i, _) => q == i
    }

    function First(): nat {
      i
    }

    function Last(): nat {
      if Single? then i else k
    }
  }

  /** The run has the operation's statements where it says. */
  ghost predicate Plays(t: Table, run: seq<Statement>, op: Operation) {
    match op
    case Getting(i, k, id, now) => PlaysGet(run, i, k, id, now)
    case Resolving(i, j, k, d) => d.Decide? && PlaysResolve(t, run, i, j, k, d)
    case Consuming(i, j, k, id, fp, now) => PlaysConsume(t, run, i, j, k, id, fp, now)
    case Single(i, s) => i < |run| && run[i] == s
  }

  /** The request it is about was created while it ran, too late for its first statement and undecided at its last. */
  predicate Surprised(t: Table, run: seq<Statement>, op: Operation) {
    match op
    case Getting(i, k, id, now) => i < k < |run| && CreatedLate(t, run, i, k, id, now)
    case Resolving(i, _, k, d) => d.Decide? && i < k < |run| && CreatedUnseen(t, run, i, k, d.id)
    case _ => false
  }

  /** The operation, whole, on a table. A single statement reports nothing. */
  function Whole(op: Operation, t: Table): (Table, Outcome) {
    match op
    case Getting(_, _, id, now) => AtomicGet(t, id, now)
    case Resolving(_, _, _, d) => if d.Decide? then AtomicResolve(t, d) else (t, NotFound)
    case Consuming(_, _, _, id, fp, now) => AtomicConsume(t, id, fp, now)
    case Single(_, s) => (Exec(s, t), NotFound)
  }

  /** What its caller was told in the run. */
  function Told(t: Table, run: seq<Statement>, op: Operation): Outcome {
    match op
    case Getting(i, k, id, _) => if k <= |run| then Fetched(TableAt(t, run, k), id) else NotFound
    case Resolving(i, _, k, d) => if d.Decide? && i <= k <= |run| then ResolveOutcome(t, run, i, k, d) else NotFound
    case Consuming(i, j, k, id, fp, _) =>
      if i <= j <= k < |run| then ConsumeOutcome(t, run, i, j, k, id, fp) else NotFound
    case Single(_, _) => NotFound
  }

  /** All of the operation happens at its statement `p`, with the verdict its caller was told. */
  ghost predicate HappensAt(t: Table, run: seq<Statement>, op: Operation, p: nat) {
    && p < |run| && op.Has(p)
    && ActsAt(t, run, p, Whole(op, TableAt(t, run, p)).0)
    && SameVerdict(Whole(op, TableAt(t, run, p)).1, Told(t, run, op))
    && forall q: nat :: q < |run| && q != p && op.Has(q) ==> Idle(t, run, q)
  }

  lemma SomePoint(t: Table, run: seq<Statement>, op: Operation) returns (p: nat)
    requires Plays(t, run, op) && !Surprised(t, run, op)
    ensures HappensAt(t, run, op, p)
  {
    hide Idle, ActsAt, SameVerdict, AtomicGet, AtomicResolve, AtomicConsume, CreatedLate, CreatedUnseen, Exec;
    match op {
      case Getting(i, k, id, now) =>
        GetIsAtomic(t, run, i, k, id, now);
        p :| GetIsAtomicAt(t, run, i, k, id, now, p);
      case Resolving(i, j, k, d) =>
        ResolveIsAtomic(t, run, i, j, k, d);
        p :| ResolvesAt(t, run, i, j, k, d, p);
      case Consuming(i, j, k, id, fp, now) =>
        p := ConsumeIsAtomic(t, run, i, j, k, id, fp, now);
      case Single(i, s) =>
        p := i;
        SingleActs(t, run, i);
    }
  }

  lemma SingleActs(t: Table, run: seq<Statement>, i: nat)
    requires i < |run|
    ensures ActsAt(t, run, i, Exec(run[i], TableAt(t, run, i))) && SameVerdict(NotFound, NotFound)
  {
    TableStep(t, run, i);
  }

  /** Every statement of the run is some one operation's own. */
  ghost predicate Covers(run: seq<Statement>, ops: seq<Operation>, owner: seq<nat>) {
    && |owner| == |run|
    && (forall q: nat :: q < |run| ==> owner[q] < |ops| && ops[owner[q]].Has(q))
    && forall m, q: nat :: 0 <= m < |ops| && q < |run| && ops[m].Has(q) ==> owner[q] == m
  }

  ghost predicate AllHappen(t: Table, run: seq<Statement>, ops: seq<Operation>, points: seq<nat>) {
    |points| == |ops| && forall m :: 0 <= m < |ops| ==> HappensAt(t, run, ops[m], points[m])
  }

  /** The operations whose point lies before statement `n`, in the order of their points. */
  function Order(owner: seq<nat>, points: seq<nat>, n: nat): seq<nat>
    requires n <= |owner|
  {
    if n == 0 then []
    else if owner[n - 1] < |points| && points[owner[n - 1]] == n - 1 then Order(owner, points, n - 1) + [owner[n - 1]]
    else Order(owner, points, n - 1)
  }

  /** The operations one at a time, each whole. */
  function OneAtATime(t: Table, ops: seq<Operation>, order: seq<nat>): Table {
    if order == [] then t
    else
      var before := OneAtATime(t, ops, order[..|order| - 1]);
      if order[|order| - 1] < |ops| then Whole(ops[order[|order| - 1]], before).0 else before
  }

  lemma {:induction false} OrderIsTheRun(t: Table, run: seq<Statement>, ops: seq<Operation>,
                                         owner: seq<nat>, points: seq<nat>, n: nat)
    requires Covers(run, ops, owner) && AllHappen(t, run, ops, points) && n <= |run|
    ensures OneAtATime(t, ops, Order(owner, points, n)) == TableAt(t, run, n)
  {
    hide Whole, Replay, SameVerdict, Told;
    if n == 0 {
      StartOfRun(t, run);
    } else {
      OrderIsTheRun(t, run, ops, owner, points, n - 1);
      var m, before := owner[n - 1], Order(owner, points, n - 1);
      assert HappensAt(t, run, ops[m], points[m]) && ops[m].Has(n - 1);
      assert (before + [m])[..|before|] == before;
    }
  }

  lemma StartOfRun(t: Table, run: seq<Statement>)
    ensures TableAt(t, run, 0) == t
  {
  }

  /** Each operation is in the order just where its point is, once, with exactly the earlier points before it. */
  lemma {:induction false} OrderHas(run: seq<Statement>, ops: seq<Operation>, owner: seq<nat>, points: seq<nat>, n: nat)
    requires Covers(run, ops, owner) && |points| == |ops| && n <= |run|
    requires forall m :: 0 <= m < |ops| ==> points[m] < |run| && ops[m].Has(points[m])
    ensures forall m: nat :: m in Order(owner, points, n) <==> m < |ops| && points[m] < n
    ensures Distinct(Order(owner, points, n))
  {
    if n > 0 {
      OrderHas(run, ops, owner, points, n - 1);
    }
  }

  /** What the operation `m` finds and reports when its turn comes in the order. */
  ghost predicate SaysTheSame(t: Table, run: seq<Statement>, ops: seq<Operation>, owner: seq<nat>, points: seq<nat>,
                              m: nat)
    requires m < |ops| == |points| && points[m] <= |owner|
  {
    SameVerdict(Whole(ops[m], OneAtATime(t, ops, Order(owner, points, points[m]))).1, Told(t, run, ops[m]))
  }

  /** An operation that was over before another began comes before it in the order. */
  ghost predicate KeepsToRealTime(ops: seq<Operation>, points: seq<nat>)
    requires |points| == |ops|
  {
    forall a, b :: 0 <= a < |ops| && 0 <= b < |ops| && ops[a].Last() < ops[b].First() ==> points[a] < points[b]
  }

  lemma PointsInside(t: Table, run: seq<Statement>, op: Operation, p: nat)
    requires Plays(t, run, op) && HappensAt(t, run, op, p)
    ensures op.First() <= p <= op.Last()
  {
  }

  lemma PickPoints(t: Table, run: seq<Statement>, ops: seq<Operation>) returns (points: seq<nat>)
    requires forall m :: 0 <= m < |ops| ==> Plays(t, run, ops[m]) && !Surprised(t, run, ops[m])
    ensures AllHappen(t, run, ops, points)
  {
    hide HappensAt, Plays, Surprised;
    points := [];
    for m := 0 to |ops|
      invariant |points| == m && forall l :: 0 <= l < m ==> HappensAt(t, run, ops[l], points[l])
    {
      var p := SomePoint(t, run, ops[m]);
      points := points + [p];
    }
  }

  /**
   What makes a run serializable: an order, each operation once and in keeping with real time, in which running them one
   at a time, each whole, gives every caller the verdict it was told and leaves the very same table.
   */
  ghost predicate Serializes(t: Table, run: seq<Statement>, ops: seq<Operation>, owner: seq<nat>, points: seq<nat>) {
    && |points| == |ops| && |owner| == |run| && KeepsToRealTime(ops, points)
    && Distinct(Order(owner, points, |run|))
    && (forall m: nat :: m in Order(owner, points, |run|) <==> m < |ops|)
    && OneAtATime(t, ops, Order(owner, points, |run|)) == Replay(t, run)
    && forall m :: 0 <= m < |ops| ==> points[m] < |run| && SaysTheSame(t, run, ops, owner, points, m)
  }

  lemma UnsurprisedSerialize(t: Table, run: seq<Statement>, ops: seq<Operation>, owner: seq<nat>)
    returns (points: seq<nat>)
    requires Covers(run, ops, owner)
    requires forall m :: 0 <= m < |ops| ==> Plays(t, run, ops[m]) && !Surprised(t, run, ops[m])
    ensures Serializes(t, run, ops, owner, points)
  {
    hide Plays, Surprised, Told, Whole, SameVerdict, Covers, Order, OneAtATime;
    points := PickPoints(t, run, ops);
    OrderIsTheRun(t, run, ops, owner, points, |run|);
    assert run[..|run|] == run;
    assert |owner| == |run| by {
      CoversAll(run, ops, owner);
    }
    forall m | 0 <= m < |ops| ensures points[m] < |run| && ops[m].Has(points[m]) {
      assert HappensAt(t, run, ops[m], points[m]);
    }
    OrderHas(run, ops, owner, points, |run|);
    forall m | 0 <= m < |ops| ensures SaysTheSame(t, run, ops, owner, points, m) {
      assert HappensAt(t, run, ops[m], points[m]);
      OrderIsTheRun(t, run, ops, owner, points, points[m]);
    }
    forall a, b | 0 <= a < |ops| && 0 <= b < |ops| && ops[a].Last() < ops[b].First() ensures points[a] < points[b] {
      PointsInside(t, run, ops[a], points[a]);
      PointsInside(t, run, ops[b], points[b]);
    }
  }

  /** A surprised operation tells its caller what it would not tell, run whole, on any table there could be. */
  lemma SurpriseFitsNowhere(t: Table, run: seq<Statement>, op: Operation, before: Table)
    requires Plays(t, run, op) && Surprised(t, run, op)
    ensures !SameVerdict(Whole(op, before).1, Told(t, run, op))
  {
    match op {
      case Getting(i, k, id, now) =>
        hide Replay, Iso, TextLess, DateTime.Valid, DateTime.Instant;
        if id in before {
          DeadlineGuards(id, before[id], true, SYSTEM, None, now);
        }
      case Resolving(i, j, k, d) =>
        UndecidedAtTheRead(t, run, i, j, k, d);
        ResolveMeaning(before, d);
    }
  }

  lemma UndecidedAtTheRead(t: Table, run: seq<Statement>, i: nat, j: nat, k: nat, d: Statement)
    requires d.Decide? && PlaysResolve(t, run, i, j, k, d) && CreatedUnseen(t, run, i, k, d.id)
    ensures ResolveOutcome(t, run, i, k, d).Conflict? && ResolveOutcome(t, run, i, k, d).row.status == Pending
  {
    hide Replay, Matches;
  }

  /**
   Main result. However the operations of any number of processes interleave, the run is serializable exactly when none
   of them is surprised by a request created under it.
   */
  lemma RunsAreSerializable(t: Table, run: seq<Statement>, ops: seq<Operation>, owner: seq<nat>)
    requires Covers(run, ops, owner) && forall m :: 0 <= m < |ops| ==> Plays(t, run, ops[m])
    ensures (exists points :: Serializes(t, run, ops, owner, points))
      <==> forall m :: 0 <= m < |ops| ==> !Surprised(t, run, ops[m])
  {
    hide Plays, Surprised, Told, Whole, SameVerdict, Covers, Order, OneAtATime, KeepsToRealTime, Replay;
    if forall m :: 0 <= m < |ops| ==> !Surprised(t, run, ops[m]) {
      var points := UnsurprisedSerialize(t, run, ops, owner);
    }
    forall points, m | Serializes(t, run, ops, owner, points) && 0 <= m < |ops| ensures !Surprised(t, run, ops[m]) {
      assert SaysTheSame(t, run, ops, owner, points, m);
      if Surprised(t, run, ops[m]) {
        SurpriseFitsNowhere(t, run, ops[m], OneAtATime(t, ops, Order(owner, points, points[m])));
      }
    }
  }

  lemma CoversAll(run: seq<Statement>, ops: seq<Operation>, owner: seq<nat>)
    requires Covers(run, ops, owner)
    ensures |owner| == |run|
  {
  }
}
