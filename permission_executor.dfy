/**
 * security/permissions/PermissionExecutor.java: builds Noop-terminated
 * trees of CommitCheckExpression (operation) and OperationCheckExpression
 * (commit) leaves, evaluates the operation tree at once for Create and
 * Update and queues the commit tree when it is DEFERRED, evaluates the
 * commit tree at once for the other permissions, and drains the queue at
 * commit, failing on the first FAIL.
 */
module Executor {
  import opened Wrappers
  import opened Checks
  import opened Expressions
  import opened Builder

  /**
   * What `executeExpressions` does: how it ends, the commit expressions it
   * appends to the queue, and the checks it invokes.
   */
  datatype Step = Step(status: Status, queued: seq<Expr>, trace: seq<Invocation>)

  /** The exception an immediate evaluation raises, if any. */
  function Immediately(v: Evaluated): (r: Status)
    ensures r == Raised(ForbiddenAccess) <==> v == Done(FAIL)
    ensures r == Raised(NullPointer) <==> v.NullDereference?
    ensures r == Completed <==> v == Done(PASS) || v == Done(DEFERRED)
  {
    if v.NullDereference? then Raised(NullPointer)
    else if v.result == FAIL then Raised(ForbiddenAccess)
    else assert v.result == PASS || v.result == DEFERRED; Completed
  }

  /**
   * `executeExpressions`. The executor's leaves never touch a cache, so
   * the trees are evaluated against the empty one.
   */
  function Execute(alg: Algebra, ok: Invocation -> bool, op: Expr, com: Expr, kind: PermissionKind): (r: Step)
    ensures kind.IsDeferrable() ==> r.trace == Eval(alg, ok, op, map[]).trace
                                    && r.status == Immediately(Eval(alg, ok, op, map[]).value)
    ensures !kind.IsDeferrable() ==> r.trace == Eval(alg, ok, com, map[]).trace
                                     && r.status == Immediately(Eval(alg, ok, com, map[]).value)
    ensures r.queued == [] || r.queued == [com]
    ensures r.queued == [com] <==> kind.IsDeferrable() && Eval(alg, ok, op, map[]).value == Done(DEFERRED)
  {
    if kind.IsDeferrable() then
      var o := Eval(alg, ok, op, map[]);
      Step(Immediately(o.value), if o.value == Done(DEFERRED) then [com] else [], o.trace)
    else
      var o := Eval(alg, ok, com, map[]);
      Step(Immediately(o.value), [], o.trace)
  }

  /** A public check: an InvalidSyntaxException while building, or executing the built pair. */
  function Checked(alg: Algebra, ok: Invocation -> bool, built: Result<ExpressionPair, Error>, kind: PermissionKind): (r: Step)
    ensures built.Err? ==> r == Step(Raised(built.error), [], [])
    ensures built.Ok? ==> r == Execute(alg, ok, built.value.operation, built.value.commit, kind)
  {
    if built.Err? then Step(Raised(built.error), [], [])
    else Execute(alg, ok, built.value.operation, built.value.commit, kind)
  }

  /** Whether one queued expression lets the commit through. */
  predicate Passes(alg: Algebra, ok: Invocation -> bool, e: Expr) {
    var v := Eval(alg, ok, e, map[]).value;
    v.Done? && (v.result == FAIL ==> e.Noop?)
  }

  /** How draining a queue ends, and the checks it invokes. */
  datatype Drained = Drained(status: Status, trace: seq<Invocation>)

  /**
   * `checkCommitPermissions`: evaluate the entries in queue order; a FAIL
   * from anything but a NoopExpression raises ForbiddenAccess and stops
   * the walk.
   */
  function Drain(alg: Algebra, ok: Invocation -> bool, queue: seq<Expr>): Drained
    decreases |queue|
  {
    if queue == [] then Drained(Completed, [])
    else
      var o := Eval(alg, ok, queue[0], map[]);
      if o.value.NullDereference? then Drained(Raised(NullPointer), o.trace)
      else if o.value == Done(FAIL) && !queue[0].Noop? then Drained(Raised(ForbiddenAccess), o.trace)
      else
        var rest := Drain(alg, ok, queue[1..]);
        Drained(rest.status, o.trace + rest.trace)
  }

  /** The checks invoked evaluating every entry in order. */
  function Traces(alg: Algebra, ok: Invocation -> bool, queue: seq<Expr>): seq<Invocation>
    decreases |queue|
  {
    if queue == [] then [] else Eval(alg, ok, queue[0], map[]).trace + Traces(alg, ok, queue[1..])
  }

  /** The shape of every commit expression the executor builds: a field node, or an Or of them. */
  predicate BuiltTop(e: Expr) {
    e.AnyField? || e.SpecificField? || (e.Join? && e.joiner == OrJoiner)
  }

  class PermissionExecutor {
    var commitCheckQueue: seq<Expr>

    /** Every queued entry came from one of the public checks. */
    ghost predicate Valid()
      reads this
    {
      forall e :: e in commitCheckQueue ==> BuiltTop(e)
    }

    constructor ()
      ensures commitCheckQueue == []
      ensures Valid()
    {
      commitCheckQueue := [];
    }

    method ExecuteExpressions(op: Expr, com: Expr, kind: PermissionKind, alg: Algebra, ok: Invocation -> bool)
      returns (status: Status, trace: seq<Invocation>)
      modifies this
      ensures var s := Execute(alg, ok, op, com, kind);
              status == s.status && trace == s.trace && commitCheckQueue == old(commitCheckQueue) + s.queued
    {
      if kind.IsDeferrable() {
        var o := Eval(alg, ok, op, map[]);
        trace := o.trace;
        if o.value == Done(DEFERRED) {
          commitCheckQueue := commitCheckQueue + [com];
          status := Completed;
        } else if o.value == Done(FAIL) {
          status := Raised(ForbiddenAccess);
        } else if o.value.NullDereference? {
          status := Raised(NullPointer);
        } else {
          status := Completed;
        }
      } else {
        var o := Eval(alg, ok, com, map[]);
        trace := o.trace;
        if o.value == Done(FAIL) {
          status := Raised(ForbiddenAccess);
        } else if o.value.NullDereference? {
          status := Raised(NullPointer);
        } else {
          status := Completed;
        }
      }
    }

    /** `checkSpecificFieldPermission`. */
    method CheckSpecificFieldPermission(dict: Dictionary, field: Option<string>, kind: PermissionKind, t: Target,
                                        alg: Algebra, ok: Invocation -> bool)
      returns (status: Status, trace: seq<Invocation>)
      requires Valid()
      modifies this
      ensures Valid()
      ensures var s := Checked(alg, ok, PairFor(ExecutorRecipe, dict, field, t, SpecificFieldNode), kind);
              status == s.status && trace == s.trace && commitCheckQueue == old(commitCheckQueue) + s.queued
    {
      var built := PairFor(ExecutorRecipe, dict, field, t, SpecificFieldNode);
      if built.Err? {
        return Raised(built.error), [];
      }
      status, trace := ExecuteExpressions(built.value.operation, built.value.commit, kind, alg, ok);
    }

    /** `checkAnyFieldPermission`. */
    method CheckAnyFieldPermission(dict: Dictionary, kind: PermissionKind, t: Target,
                                   alg: Algebra, ok: Invocation -> bool)
      returns (status: Status, trace: seq<Invocation>)
      requires Valid()
      modifies this
      ensures Valid()
      ensures var s := Checked(alg, ok, AnyFieldPair(ExecutorRecipe, dict, FieldsOf(dict), t), kind);
              status == s.status && trace == s.trace && commitCheckQueue == old(commitCheckQueue) + s.queued
    {
      var attrs := ArrayToQueue(dict.attributes);
      var rels := ArrayToQueue(dict.relationships);
      var built := BuildAnyFieldPair(ExecutorRecipe, dict, attrs + rels, t);
      if built.Err? {
        return Raised(built.error), [];
      }
      AnyFieldCommitIsBuilt(dict, attrs + rels, t);
      status, trace := ExecuteExpressions(built.value.operation, built.value.commit, kind, alg, ok);
    }

    /** `checkCommitPermissions`; the queue is left as it is. */
    method CheckCommitPermissions(alg: Algebra, ok: Invocation -> bool) returns (status: Status, trace: seq<Invocation>)
      ensures status == Drain(alg, ok, commitCheckQueue).status
      ensures trace == Drain(alg, ok, commitCheckQueue).trace
    {
      var queue := commitCheckQueue;
      trace := [];
      var i := 0;
      while i < |queue|
        invariant 0 <= i <= |queue|
        invariant Drain(alg, ok, queue) == Drained(Drain(alg, ok, queue[i..]).status, trace + Drain(alg, ok, queue[i..]).trace)
      {
        assert queue[i..][1..] == queue[i + 1..];
        var o := Eval(alg, ok, queue[i], map[]);
        if o.value.NullDereference? {
          return Raised(NullPointer), trace + o.trace;
        }
        if o.value == Done(FAIL) && !queue[i].Noop? {
          return Raised(ForbiddenAccess), trace + o.trace;
        }
        trace := trace + o.trace;
        i := i + 1;
      }
      assert queue[i..] == [];
      status := Completed;
    }
  }

  // ---------------------------------------------------------------------
  // Properties
  // ---------------------------------------------------------------------

  /** The commit expression of an executor pair is a field node. */
  lemma PairCommitIsBuilt(dict: Dictionary, field: Option<string>, t: Target, node: NodeKind)
    requires PairFor(ExecutorRecipe, dict, field, t, node).Ok?
    ensures BuiltTop(PairFor(ExecutorRecipe, dict, field, t, node).value.commit)
    ensures node == SpecificFieldNode ==> PairFor(ExecutorRecipe, dict, field, t, node).value.commit.SpecificField?
    ensures node == AnyFieldNode ==> PairFor(ExecutorRecipe, dict, field, t, node).value.commit.AnyField?
  {
  }

  lemma {:induction false} FoldCommitIsBuilt(acc: ExpressionPair, dict: Dictionary, fields: seq<string>, t: Target)
    requires BuiltTop(acc.commit)
    requires AnyFieldFold(ExecutorRecipe, acc, dict, fields, t).Ok?
    ensures BuiltTop(AnyFieldFold(ExecutorRecipe, acc, dict, fields, t).value.commit)
    decreases |fields|
  {
    if fields != [] {
      var next := FieldArm(ExecutorRecipe, dict, fields[0], t).value;
      FoldCommitIsBuilt(OrArm(acc, next), dict, fields[1..], t);
    }
  }

  /** The any-field commit expression is the entity-only field node or an Or. */
  lemma AnyFieldCommitIsBuilt(dict: Dictionary, fields: seq<string>, t: Target)
    ensures AnyFieldPair(ExecutorRecipe, dict, fields, t).Ok? ==>
              BuiltTop(AnyFieldPair(ExecutorRecipe, dict, fields, t).value.commit)
  {
    if AnyFieldPair(ExecutorRecipe, dict, fields, t).Ok? {
      PairCommitIsBuilt(dict, None, t, AnyFieldNode);
      FoldCommitIsBuilt(PairFor(ExecutorRecipe, dict, None, t, AnyFieldNode).value, dict, fields, t);
    }
  }

  /**
   * Draining completes iff every entry passes: evaluates without a null
   * dereference and does not FAIL unless it is a NoopExpression. It then
   * invokes the checks of every entry, in queue order.
   */
  lemma {:induction false} DrainCompletes(alg: Algebra, ok: Invocation -> bool, queue: seq<Expr>)
    ensures Drain(alg, ok, queue).status == Completed <==> forall i :: 0 <= i < |queue| ==> Passes(alg, ok, queue[i])
    ensures Drain(alg, ok, queue).status == Completed ==> Drain(alg, ok, queue).trace == Traces(alg, ok, queue)
    decreases |queue|
  {
    if queue != [] {
      DrainCompletes(alg, ok, queue[1..]);
      assert forall i :: 1 <= i < |queue| ==> queue[i] == queue[1..][i - 1];
    }
  }

  /**
   * The first entry that does not pass decides the outcome: NullPointer for
   * a null dereference, ForbiddenAccess for a FAIL; no later entry is
   * evaluated, so the trace is that of the entries up to it.
   */
  lemma {:induction false} DrainStopsAtFirstFailure(alg: Algebra, ok: Invocation -> bool, queue: seq<Expr>, k: nat)
    requires k < |queue| && !Passes(alg, ok, queue[k])
    requires forall j :: 0 <= j < k ==> Passes(alg, ok, queue[j])
    ensures Drain(alg, ok, queue).status == Immediately(Eval(alg, ok, queue[k], map[]).value)
    ensures Drain(alg, ok, queue).status.Raised?
    ensures Drain(alg, ok, queue).trace == Traces(alg, ok, queue[..k + 1])
    decreases k
  {
    if k > 0 {
      assert forall j :: 0 <= j < k - 1 ==> queue[1..][j] == queue[j + 1];
      DrainStopsAtFirstFailure(alg, ok, queue[1..], k - 1);
      assert queue[..k + 1][1..] == queue[1..][..k];
    } else {
      assert queue[..1][1..] == [];
    }
  }

  /** A NoopExpression in the queue is skipped: it neither raises nor invokes anything. */
  lemma {:induction false} DrainSkipsNoop(alg: Algebra, ok: Invocation -> bool, a: seq<Expr>, b: seq<Expr>)
    ensures Drain(alg, ok, a + [Noop] + b) == Drain(alg, ok, a + b)
    decreases |a|
  {
    if a == [] {
      assert ([] + [Noop] + b)[1..] == b;
      assert [] + b == b;
    } else {
      DrainSkipsNoop(alg, ok, a[1..], b);
      assert (a + [Noop] + b)[1..] == a[1..] + [Noop] + b;
      assert (a + b)[1..] == a[1..] + b;
    }
  }

  /**
   * Every entry the executor ever queues is a field node or an Or, never a
   * NoopExpression, so on such a queue the NoopExpression exemption never
   * applies: the commit goes through iff every entry evaluates to PASS or
   * DEFERRED.
   */
  lemma QueuedEntriesAreNeverNoop(alg: Algebra, ok: Invocation -> bool, queue: seq<Expr>)
    requires forall e :: e in queue ==> BuiltTop(e)
    ensures Drain(alg, ok, queue).status == Completed <==>
              forall i :: 0 <= i < |queue| ==>
                Eval(alg, ok, queue[i], map[]).value in {Done(PASS), Done(DEFERRED)}
  {
    DrainCompletes(alg, ok, queue);
    forall i | 0 <= i < |queue|
      ensures Passes(alg, ok, queue[i]) <==> Eval(alg, ok, queue[i], map[]).value in {Done(PASS), Done(DEFERRED)}
    {
      assert queue[i] in queue;
    }
  }

  /**
   * Read, Delete and Share never queue anything; Create and Update queue
   * exactly the commit tree when the operation tree is DEFERRED, and then
   * complete.
   */
  lemma QueueingRule(alg: Algebra, ok: Invocation -> bool, op: Expr, com: Expr, kind: PermissionKind)
    ensures !kind.IsDeferrable() ==> Execute(alg, ok, op, com, kind).queued == []
    ensures kind.IsDeferrable() && Eval(alg, ok, op, map[]).value == Done(DEFERRED) ==>
              Execute(alg, ok, op, com, kind) == Step(Completed, [com], Eval(alg, ok, op, map[]).trace)
    ensures Execute(alg, ok, op, com, kind).queued != [] ==> Execute(alg, ok, op, com, kind).status == Completed
  {
  }

  /**
   * The executor keeps no cache, and none is needed: its trees give the
   * same value and invoke the same checks whatever cache they are handed,
   * and leave it untouched.
   */
  lemma ExecutorTreesIgnoreCache(alg: Algebra, ok: Invocation -> bool, p: ExpressionPair, cache: Cache)
    requires Mirrored(ExecutorRecipe, p)
    ensures Eval(alg, ok, p.operation, cache) == Outcome(Eval(alg, ok, p.operation, map[]).value, cache,
                                                         Eval(alg, ok, p.operation, map[]).trace)
    ensures Eval(alg, ok, p.commit, cache) == Outcome(Eval(alg, ok, p.commit, map[]).value, cache,
                                                      Eval(alg, ok, p.commit, map[]).trace)
  {
    MirroredCaching(p);
    UncachedEvalIgnoresCache(alg, ok, p.operation, cache);
    UncachedEvalIgnoresCache(alg, ok, p.commit, cache);
  }

  /** Re-running an executor tree calls every check again: nothing is remembered between runs. */
  lemma ExecutorReevaluates(alg: Algebra, ok: Invocation -> bool, c: Check, t: Target)
    requires !c.isNoopExpression
    ensures Eval(alg, ok, Operation(c, t), map[]).trace == [Invocation(c.id, t)]
    ensures Eval(alg, ok, Operation(c, t), Eval(alg, ok, Operation(c, t), map[]).cache).trace == [Invocation(c.id, t)]
  {
  }
}
