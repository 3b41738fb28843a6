/**
 * The tri-state expression tree of security/permissions/expressions and its
 * evaluation. Evaluation threads the per-request cache and records, in a
 * trace, every call of `Check.ok` it performs, so that "not invoked" and
 * "invoked at most once" can be stated.
 */
module Expressions {
  import opened Wrappers
  import opened Checks

  datatype ExpressionResult = PASS | FAIL | DEFERRED

  datatype Joiner = AndJoiner | OrJoiner

  /**
   * An expression node. `Null` is Java's null reference, which the
   * ExpressionBuilder produces for an empty check list. `SpecificField`
   * holds its field expression already normalised (see MakeSpecificField).
   */
  datatype Expr =
    | Null
    | Noop
    | Immediate(check: Check, target: Target)
    | Deferred(check: Check, target: Target)
    | Operation(check: Check, target: Target)
    | Commit(check: Check, target: Target)
    | Join(joiner: Joiner, left: Expr, right: Expr)
    | AnyField(entity: Expr, field: Expr)
    | SpecificField(entity: Expr, fieldExpr: Option<Expr>)
  {
    predicate IsCheckLeaf() {
      Immediate? || Deferred? || Operation? || Commit?
    }
  }

  /** How the right operand of an And/Or looks before it is evaluated. */
  datatype Operand = NullOperand | NoopOperand | ExprOperand

  function OperandOf(e: Expr): Operand {
    if e.Null? then NullOperand else if e.Noop? then NoopOperand else ExprOperand
  }

  /**
   * The semantics of AndExpression and OrExpression, whose source is not
   * part of this model, as a parameter. After the left operand produced a
   * result, `decide` may settle the node without evaluating the right
   * operand (short-circuit, or a special case for a Noop or null right
   * operand); otherwise the right operand is evaluated and `combine` joins
   * the two results. No lemma assumes anything about either function.
   */
  datatype Algebra = Algebra(
    decide: (Joiner, ExpressionResult, Operand) -> Option<ExpressionResult>,
    combine: (Joiner, ExpressionResult, ExpressionResult) -> ExpressionResult)

  /** The per-request cache of check results. */
  type Cache = map<Invocation, ExpressionResult>

  /** A result, or the NullPointerException of evaluating a null expression. */
  datatype Evaluated = Done(result: ExpressionResult) | NullDereference

  /** The value of an evaluation, the cache after it, and the checks it invoked, in order. */
  datatype Outcome = Outcome(value: Evaluated, cache: Cache, trace: seq<Invocation>)

  /** What a fresh call of `ok` turns into. */
  function Verdict(ok: Invocation -> bool, inv: Invocation): ExpressionResult {
    if ok(inv) then PASS else FAIL
  }

  /** ImmediateCheckExpression.evaluate: `cache.computeIfAbsent(check, ok ? PASS : FAIL)`. */
  function Memoized(ok: Invocation -> bool, inv: Invocation, cache: Cache): Outcome {
    if inv in cache then Outcome(Done(cache[inv]), cache, [])
    else Outcome(Done(Verdict(ok, inv)), cache[inv := Verdict(ok, inv)], [inv])
  }

  /** OperationCheckExpression.evaluate: no cache; DEFERRED for a check that is a NoopExpression. */
  function Direct(ok: Invocation -> bool, c: Check, t: Target, cache: Cache): Outcome {
    if c.isNoopExpression then Outcome(Done(DEFERRED), cache, [])
    else Outcome(Done(Verdict(ok, Invocation(c.id, t))), cache, [Invocation(c.id, t)])
  }

  /** `evaluate()` of every node kind. */
  function Eval(alg: Algebra, ok: Invocation -> bool, e: Expr, cache: Cache): Outcome
    decreases e
  {
    match e
    case Null => Outcome(NullDereference, cache, [])
    case Noop => Outcome(Done(FAIL), cache, [])
    case Immediate(c, t) => Memoized(ok, Invocation(c.id, t), cache)
    case Deferred(c, t) =>
      if c.isCommit then Outcome(Done(DEFERRED), cache, [])
      else Memoized(ok, Invocation(c.id, t), cache)
    case Operation(c, t) => Direct(ok, c, t, cache)
    case Commit(c, t) =>
      if c.isCommit && !c.isOperation then Outcome(Done(DEFERRED), cache, [])
      else Direct(ok, c, t, cache)
    case Join(j, l, r) =>
      var lo := Eval(alg, ok, l, cache);
      if lo.value.NullDereference? then lo
      else
        var settled := alg.decide(j, lo.value.result, OperandOf(r));
        if settled.Some? then Outcome(Done(settled.value), lo.cache, lo.trace)
        else
          var ro := Eval(alg, ok, r, lo.cache);
          var v := if ro.value.NullDereference? then NullDereference
                   else Done(alg.combine(j, lo.value.result, ro.value.result));
          Outcome(v, ro.cache, lo.trace + ro.trace)
    case AnyField(en, f) =>
      var fo := Eval(alg, ok, f, cache);
      if fo.value != Done(FAIL) then fo
      else if en.Noop? then Outcome(Done(DEFERRED), fo.cache, fo.trace)
      else
        var eo := Eval(alg, ok, en, fo.cache);
        Outcome(eo.value, eo.cache, fo.trace + eo.trace)
    case SpecificField(en, f) =>
      if f.None? then Eval(alg, ok, en, cache) else Eval(alg, ok, f.value, cache)
  }

  /**
   * The SpecificFieldExpression constructor: a Noop or null field
   * expression is stored as absent.
   */
  function MakeSpecificField(entity: Expr, field: Expr): (r: Expr)
    ensures r.SpecificField? && r.entity == entity
    ensures r.fieldExpr.None? <==> field.Noop? || field.Null?
    ensures r.fieldExpr.Some? ==> r.fieldExpr.value == field
  {
    SpecificField(entity, if field.Noop? || field.Null? then None else Some(field))
  }

  // ---------------------------------------------------------------------
  // Tree shapes, as the two builders produce them
  // ---------------------------------------------------------------------

  /** The four check-expression classes a builder can wrap a check in. */
  datatype LeafKind = ImmediateLeaf | DeferredLeaf | OperationLeaf | CommitLeaf

  function Leaf(kind: LeafKind, c: Check, t: Target): (r: Expr)
    ensures r.IsCheckLeaf() && r.check == c && r.target == t
  {
    match kind
    case ImmediateLeaf => Immediate(c, t)
    case DeferredLeaf => Deferred(c, t)
    case OperationLeaf => Operation(c, t)
    case CommitLeaf => Commit(c, t)
  }

  /** One leaf of the given kind per check, in order. */
  function Leaves(kind: LeafKind, checks: seq<Check>, t: Target): (r: seq<Expr>)
    ensures |r| == |checks|
    ensures forall i :: 0 <= i < |checks| ==> r[i] == Leaf(kind, checks[i], t)
  {
    seq(|checks|, i requires 0 <= i < |checks| => Leaf(kind, checks[i], t))
  }

  /** The two node classes that join an entity expression with a field expression. */
  datatype NodeKind = SpecificFieldNode | AnyFieldNode

  function Node(kind: NodeKind, entity: Expr, field: Expr): Expr {
    match kind
    case SpecificFieldNode => MakeSpecificField(entity, field)
    case AnyFieldNode => AnyField(entity, field)
  }

  /** The left operands met walking down the right spine of `joiner` nodes. */
  function Spine(e: Expr, joiner: Joiner): seq<Expr> {
    if e.Join? && e.joiner == joiner then [e.left] + Spine(e.right, joiner) else []
  }

  /** Where that walk stops. */
  function Terminal(e: Expr, joiner: Joiner): Expr {
    if e.Join? && e.joiner == joiner then Terminal(e.right, joiner) else e
  }

  /** The right operands met walking up a left-nested chain of Or nodes, first one first. */
  function Arms(e: Expr): seq<Expr> {
    if e.Join? && e.joiner == OrJoiner then Arms(e.left) + [e.right] else []
  }

  /** The innermost left operand of that chain. */
  function Base(e: Expr): Expr {
    if e.Join? && e.joiner == OrJoiner then Base(e.left) else e
  }

  /**
   * A left-nested Or chain evaluates its innermost left operand first, so
   * a NullPointerException there ends the whole chain, whatever And and Or
   * do with results.
   */
  lemma {:induction false} NullBaseDereferences(alg: Algebra, ok: Invocation -> bool, e: Expr, cache: Cache)
    requires Eval(alg, ok, Base(e), cache).value.NullDereference?
    ensures Eval(alg, ok, e, cache).value.NullDereference?
  {
    if e.Join? && e.joiner == OrJoiner {
      NullBaseDereferences(alg, ok, e.left, cache);
    }
  }

  /** The same tree with every check leaf re-wrapped in the given kind. */
  function Relabel(e: Expr, kind: LeafKind): Expr {
    match e
    case Null => Null
    case Noop => Noop
    case Immediate(c, t) => Leaf(kind, c, t)
    case Deferred(c, t) => Leaf(kind, c, t)
    case Operation(c, t) => Leaf(kind, c, t)
    case Commit(c, t) => Leaf(kind, c, t)
    case Join(j, l, r) => Join(j, Relabel(l, kind), Relabel(r, kind))
    case AnyField(en, f) => AnyField(Relabel(en, kind), Relabel(f, kind))
    case SpecificField(en, f) =>
      SpecificField(Relabel(en, kind), if f.None? then None else Some(Relabel(f.value, kind)))
  }

  /** Every check leaf of the tree has the given kind. */
  predicate LeavesOfKind(e: Expr, kind: LeafKind) {
    match e
    case Null => true
    case Noop => true
    case Join(_, l, r) => LeavesOfKind(l, kind) && LeavesOfKind(r, kind)
    case AnyField(en, f) => LeavesOfKind(en, kind) && LeavesOfKind(f, kind)
    case SpecificField(en, f) => LeavesOfKind(en, kind) && (f.Some? ==> LeavesOfKind(f.value, kind))
    case _ => e == Leaf(kind, e.check, e.target)
  }

  /** Relabelling yields leaves of one kind, and relabelling twice keeps only the last kind. */
  lemma {:induction false} RelabelFacts(e: Expr, k1: LeafKind, k2: LeafKind)
    ensures LeavesOfKind(Relabel(e, k1), k1)
    ensures Relabel(Relabel(e, k1), k2) == Relabel(e, k2)
    ensures LeavesOfKind(e, k1) ==> Relabel(e, k1) == e
    decreases e
  {
    match e
    case Join(j, l, r) =>
      RelabelFacts(l, k1, k2);
      RelabelFacts(r, k1, k2);
    case AnyField(en, f) =>
      RelabelFacts(en, k1, k2);
      RelabelFacts(f, k1, k2);
    case SpecificField(en, f) =>
      RelabelFacts(en, k1, k2);
      if f.Some? {
        RelabelFacts(f.value, k1, k2);
      }
    case _ =>
  }

  /** Relabelling commutes with building a field node (it keeps Noop and null as they are). */
  lemma RelabelNode(node: NodeKind, entity: Expr, field: Expr, kind: LeafKind)
    ensures Relabel(Node(node, entity, field), kind) == Node(node, Relabel(entity, kind), Relabel(field, kind))
  {
  }

  /** Trees of memoizing (Immediate/Deferred) leaves and of bypassing (Operation/Commit) leaves. */
  lemma {:induction false} LeafKindCaching(e: Expr, kind: LeafKind)
    requires LeavesOfKind(e, kind)
    ensures kind == ImmediateLeaf || kind == DeferredLeaf ==> CachedLeaves(e)
    ensures kind == OperationLeaf || kind == CommitLeaf ==> UncachedLeaves(e)
    decreases e
  {
    match e
    case Join(j, l, r) =>
      LeafKindCaching(l, kind);
      LeafKindCaching(r, kind);
    case AnyField(en, f) =>
      LeafKindCaching(en, kind);
      LeafKindCaching(f, kind);
    case SpecificField(en, f) =>
      LeafKindCaching(en, kind);
      if f.Some? {
        LeafKindCaching(f.value, kind);
      }
    case _ =>
  }

  // ---------------------------------------------------------------------
  // Leaves
  // ---------------------------------------------------------------------

  /** A cached check is answered from the cache without calling `ok`. */
  lemma ImmediateCached(alg: Algebra, ok: Invocation -> bool, c: Check, t: Target, cache: Cache)
    requires Invocation(c.id, t) in cache
    ensures Eval(alg, ok, Immediate(c, t), cache) == Outcome(Done(cache[Invocation(c.id, t)]), cache, [])
  {
  }

  /**
   * An uncached check calls `ok` exactly once, yields PASS iff `ok` holds
   * and FAIL otherwise (never DEFERRED), and records that result for this
   * check alone.
   */
  lemma ImmediateUncached(alg: Algebra, ok: Invocation -> bool, c: Check, t: Target, cache: Cache)
    requires Invocation(c.id, t) !in cache
    ensures var o := Eval(alg, ok, Immediate(c, t), cache);
            var inv := Invocation(c.id, t);
            && o.trace == [inv]
            && (o.value == Done(PASS) <==> ok(inv))
            && (o.value == Done(FAIL) <==> !ok(inv))
            && o.cache == cache[inv := o.value.result]
  {
  }

  /** Evaluating the same check twice gives the same result and calls `ok` at most once. */
  lemma ImmediateTwice(alg: Algebra, ok: Invocation -> bool, c: Check, t: Target, cache: Cache)
    ensures var o1 := Eval(alg, ok, Immediate(c, t), cache);
            var o2 := Eval(alg, ok, Immediate(c, t), o1.cache);
            o2.value == o1.value && o2.cache == o1.cache && |o1.trace + o2.trace| <= 1
  {
  }

  /**
   * A CommitCheck, even one that is also an OperationCheck, is DEFERRED
   * by DeferredCheckExpression without calling `ok` or touching the cache;
   * any other check behaves as in ImmediateCheckExpression.
   */
  lemma DeferredCheckEvaluation(alg: Algebra, ok: Invocation -> bool, c: Check, t: Target, cache: Cache)
    ensures c.isCommit ==> Eval(alg, ok, Deferred(c, t), cache) == Outcome(Done(DEFERRED), cache, [])
    ensures !c.isCommit ==> Eval(alg, ok, Deferred(c, t), cache) == Eval(alg, ok, Immediate(c, t), cache)
  {
  }

  /**
   * OperationCheckExpression never touches the cache, calls `ok` on every
   * evaluation, and is DEFERRED only for a check that is a NoopExpression.
   */
  lemma OperationCheckEvaluation(alg: Algebra, ok: Invocation -> bool, c: Check, t: Target, cache: Cache)
    ensures var o := Eval(alg, ok, Operation(c, t), cache);
            var inv := Invocation(c.id, t);
            && o.cache == cache
            && (o.value == Done(DEFERRED) <==> c.isNoopExpression)
            && (!c.isNoopExpression ==> o.trace == [inv] && (o.value == Done(PASS) <==> ok(inv)))
  {
  }

  /**
   * CommitCheckExpression: a commit-only check is DEFERRED without a call
   * of `ok`; a check with both tags is invoked at once; every other check
   * is evaluated as by OperationCheckExpression.
   */
  lemma CommitCheckEvaluation(alg: Algebra, ok: Invocation -> bool, c: Check, t: Target, cache: Cache)
    ensures c.isCommit && !c.isOperation ==>
              Eval(alg, ok, Commit(c, t), cache) == Outcome(Done(DEFERRED), cache, [])
    ensures !(c.isCommit && !c.isOperation) ==>
              Eval(alg, ok, Commit(c, t), cache) == Eval(alg, ok, Operation(c, t), cache)
    ensures c.isCommit && c.isOperation && !c.isNoopExpression ==>
              Eval(alg, ok, Commit(c, t), cache).trace == [Invocation(c.id, t)]
  {
  }

  /** NoopExpression is FAIL and touches nothing. */
  lemma NoopFails(alg: Algebra, ok: Invocation -> bool, cache: Cache)
    ensures Eval(alg, ok, Noop, cache) == Outcome(Done(FAIL), cache, [])
  {
  }

  // ---------------------------------------------------------------------
  // Field combinators
  // ---------------------------------------------------------------------

  /**
   * AnyFieldExpression evaluates the field first and returns any non-FAIL
   * result untouched; after a FAIL it yields DEFERRED for a Noop entity
   * without evaluating it, and the entity's result otherwise. So it FAILs
   * iff the field FAILs and a non-Noop entity FAILs too, and never FAILs
   * with a Noop entity.
   */
  lemma AnyFieldNode(alg: Algebra, ok: Invocation -> bool, entity: Expr, field: Expr, cache: Cache)
    ensures var fo := Eval(alg, ok, field, cache);
            var o := Eval(alg, ok, AnyField(entity, field), cache);
            && (fo.value != Done(FAIL) ==> o == fo)
            && (fo.value == Done(FAIL) && entity.Noop? ==> o == Outcome(Done(DEFERRED), fo.cache, fo.trace))
            && (fo.value == Done(FAIL) && !entity.Noop? ==>
                  o.value == Eval(alg, ok, entity, fo.cache).value
                  && o.trace == fo.trace + Eval(alg, ok, entity, fo.cache).trace)
            && (o.value == Done(FAIL) <==>
                  fo.value == Done(FAIL) && !entity.Noop? && Eval(alg, ok, entity, fo.cache).value == Done(FAIL))
            && (entity.Noop? ==> o.value != Done(FAIL))
  {
  }

  /**
   * SpecificFieldExpression evaluates exactly one child: the field when
   * one is present, the entity otherwise; a Noop or null field falls back
   * to the entity.
   */
  lemma SpecificFieldNode(alg: Algebra, ok: Invocation -> bool, entity: Expr, field: Expr, cache: Cache)
    ensures field.Noop? || field.Null? ==>
              Eval(alg, ok, MakeSpecificField(entity, field), cache) == Eval(alg, ok, entity, cache)
    ensures !(field.Noop? || field.Null?) ==>
              Eval(alg, ok, MakeSpecificField(entity, field), cache) == Eval(alg, ok, field, cache)
  {
  }

  // ---------------------------------------------------------------------
  // The cache across a whole tree
  // ---------------------------------------------------------------------

  /** `big` holds every entry of `small` with the same value. */
  ghost predicate Extends(big: Cache, small: Cache) {
    forall k :: k in small ==> k in big && big[k] == small[k]
  }

  /** Every cached result is what a fresh call of `ok` would give. */
  ghost predicate Consistent(cache: Cache, ok: Invocation -> bool) {
    forall k :: k in cache ==> cache[k] == Verdict(ok, k)
  }

  ghost predicate NoDuplicates(s: seq<Invocation>) {
    forall i, j :: 0 <= i < j < |s| ==> s[i] != s[j]
  }

  /** Every check leaf is memoizing (the leaves ExpressionBuilder creates). */
  predicate CachedLeaves(e: Expr) {
    match e
    case Operation(_, _) => false
    case Commit(_, _) => false
    case Join(_, l, r) => CachedLeaves(l) && CachedLeaves(r)
    case AnyField(en, f) => CachedLeaves(en) && CachedLeaves(f)
    case SpecificField(en, f) => CachedLeaves(en) && (f.Some? ==> CachedLeaves(f.value))
    case _ => true
  }

  /** Every check leaf bypasses the cache (the leaves PermissionExecutor creates). */
  predicate UncachedLeaves(e: Expr) {
    match e
    case Immediate(_, _) => false
    case Deferred(_, _) => false
    case Join(_, l, r) => UncachedLeaves(l) && UncachedLeaves(r)
    case AnyField(en, f) => UncachedLeaves(en) && UncachedLeaves(f)
    case SpecificField(en, f) => UncachedLeaves(en) && (f.Some? ==> UncachedLeaves(f.value))
    case _ => true
  }

  /**
   * Evaluation only adds to the cache: old entries keep their values, and
   * each new entry is a check this evaluation invoked, holding what `ok`
   * answered.
   */
  lemma {:induction false} EvalExtendsCache(alg: Algebra, ok: Invocation -> bool, e: Expr, cache: Cache)
    ensures var o := Eval(alg, ok, e, cache);
            && Extends(o.cache, cache)
            && (forall k :: k in o.cache && k !in cache ==> k in o.trace && o.cache[k] == Verdict(ok, k))
    decreases e
  {
    match e
    case Join(j, l, r) =>
      EvalExtendsCache(alg, ok, l, cache);
      var lo := Eval(alg, ok, l, cache);
      if lo.value.Done? {
        EvalExtendsCache(alg, ok, r, lo.cache);
      }
    case AnyField(en, f) =>
      EvalExtendsCache(alg, ok, f, cache);
      var fo := Eval(alg, ok, f, cache);
      EvalExtendsCache(alg, ok, en, fo.cache);
    case SpecificField(en, f) =>
      if f.None? {
        EvalExtendsCache(alg, ok, en, cache);
      } else {
        EvalExtendsCache(alg, ok, f.value, cache);
      }
    case _ =>
  }

  /** A consistent cache stays consistent. */
  lemma EvalKeepsConsistency(alg: Algebra, ok: Invocation -> bool, e: Expr, cache: Cache)
    requires Consistent(cache, ok)
    ensures Consistent(Eval(alg, ok, e, cache).cache, ok)
  {
    EvalExtendsCache(alg, ok, e, cache);
  }

  /**
   * Over a memoizing tree, no check is invoked twice in one evaluation, and
   * no check already in the cache is invoked at all; every invoked check
   * ends up in the cache.
   */
  lemma {:induction false} CachedEvalInvokesOnce(alg: Algebra, ok: Invocation -> bool, e: Expr, cache: Cache)
    requires CachedLeaves(e)
    ensures var o := Eval(alg, ok, e, cache);
            && NoDuplicates(o.trace)
            && (forall k :: k in o.trace ==> k !in cache && k in o.cache)
    decreases e
  {
    match e
    case Join(j, l, r) =>
      CachedEvalInvokesOnce(alg, ok, l, cache);
      var lo := Eval(alg, ok, l, cache);
      if lo.value.Done? && alg.decide(j, lo.value.result, OperandOf(r)).None? {
        CachedEvalInvokesOnce(alg, ok, r, lo.cache);
        EvalExtendsCache(alg, ok, l, cache);
        EvalExtendsCache(alg, ok, r, lo.cache);
        ConcatNoDuplicates(lo.trace, Eval(alg, ok, r, lo.cache).trace, lo.cache);
      }
    case AnyField(en, f) =>
      CachedEvalInvokesOnce(alg, ok, f, cache);
      var fo := Eval(alg, ok, f, cache);
      if fo.value == Done(FAIL) && !en.Noop? {
        CachedEvalInvokesOnce(alg, ok, en, fo.cache);
        EvalExtendsCache(alg, ok, f, cache);
        EvalExtendsCache(alg, ok, en, fo.cache);
        ConcatNoDuplicates(fo.trace, Eval(alg, ok, en, fo.cache).trace, fo.cache);
      }
    case SpecificField(en, f) =>
      if f.None? {
        CachedEvalInvokesOnce(alg, ok, en, cache);
      } else {
        CachedEvalInvokesOnce(alg, ok, f.value, cache);
      }
    case _ =>
  }

  /** Two duplicate-free traces, the second avoiding a set the first lies in, join duplicate-free. */
  lemma ConcatNoDuplicates(a: seq<Invocation>, b: seq<Invocation>, mid: Cache)
    requires NoDuplicates(a) && NoDuplicates(b)
    requires forall k :: k in a ==> k in mid
    requires forall k :: k in b ==> k !in mid
    ensures NoDuplicates(a + b)
  {
    forall i, j | 0 <= i < j < |a + b|
      ensures (a + b)[i] != (a + b)[j]
    {
      if i < |a| && j >= |a| {
        assert (a + b)[i] == a[i] && a[i] in a;
        assert (a + b)[j] == b[j - |a|] && b[j - |a|] in b;
      }
    }
  }

  /**
   * Re-evaluating a memoizing tree against a cache that contains the
   * first evaluation's final cache gives the same value, invokes nothing
   * and leaves that cache as it is.
   */
  lemma {:induction false} ReEvaluationIsFree(alg: Algebra, ok: Invocation -> bool, e: Expr,
                                              cache: Cache, later: Cache)
    requires CachedLeaves(e)
    requires Extends(later, Eval(alg, ok, e, cache).cache)
    ensures Eval(alg, ok, e, later) == Outcome(Eval(alg, ok, e, cache).value, later, [])
    decreases e
  {
    match e
    case Join(j, l, r) =>
      var lo := Eval(alg, ok, l, cache);
      if lo.value.Done? && alg.decide(j, lo.value.result, OperandOf(r)).None? {
        EvalExtendsCache(alg, ok, r, lo.cache);
        ReEvaluationIsFree(alg, ok, r, lo.cache, later);
      }
      ReEvaluationIsFree(alg, ok, l, cache, later);
    case AnyField(en, f) =>
      var fo := Eval(alg, ok, f, cache);
      if fo.value == Done(FAIL) && !en.Noop? {
        EvalExtendsCache(alg, ok, en, fo.cache);
        ReEvaluationIsFree(alg, ok, en, fo.cache, later);
      }
      ReEvaluationIsFree(alg, ok, f, cache, later);
    case SpecificField(en, f) =>
      if f.None? {
        ReEvaluationIsFree(alg, ok, en, cache, later);
      } else {
        ReEvaluationIsFree(alg, ok, f.value, cache, later);
      }
    case _ =>
  }

  /**
   * Evaluating the same memoizing tree twice in one request gives the same
   * value twice and invokes each check at most once over both evaluations.
   */
  lemma EvaluatingTwiceInvokesOnce(alg: Algebra, ok: Invocation -> bool, e: Expr, cache: Cache)
    requires CachedLeaves(e)
    ensures var o1 := Eval(alg, ok, e, cache);
            var o2 := Eval(alg, ok, e, o1.cache);
            o2.value == o1.value && o2.cache == o1.cache && NoDuplicates(o1.trace + o2.trace)
  {
    var o1 := Eval(alg, ok, e, cache);
    ReEvaluationIsFree(alg, ok, e, cache, o1.cache);
    CachedEvalInvokesOnce(alg, ok, e, cache);
    assert o1.trace + [] == o1.trace;
  }

  /**
   * Memoization does not change decisions: from any two caches that only
   * hold what `ok` answers, a tree evaluates to the same value.
   */
  lemma {:induction false} MemoizationIsTransparent(alg: Algebra, ok: Invocation -> bool, e: Expr,
                                                    c1: Cache, c2: Cache)
    requires Consistent(c1, ok) && Consistent(c2, ok)
    ensures Eval(alg, ok, e, c1).value == Eval(alg, ok, e, c2).value
    decreases e
  {
    match e
    case Join(j, l, r) =>
      MemoizationIsTransparent(alg, ok, l, c1, c2);
      EvalKeepsConsistency(alg, ok, l, c1);
      EvalKeepsConsistency(alg, ok, l, c2);
      MemoizationIsTransparent(alg, ok, r, Eval(alg, ok, l, c1).cache, Eval(alg, ok, l, c2).cache);
    case AnyField(en, f) =>
      MemoizationIsTransparent(alg, ok, f, c1, c2);
      EvalKeepsConsistency(alg, ok, f, c1);
      EvalKeepsConsistency(alg, ok, f, c2);
      MemoizationIsTransparent(alg, ok, en, Eval(alg, ok, f, c1).cache, Eval(alg, ok, f, c2).cache);
    case SpecificField(en, f) =>
      if f.None? {
        MemoizationIsTransparent(alg, ok, en, c1, c2);
      } else {
        MemoizationIsTransparent(alg, ok, f.value, c1, c2);
      }
    case _ =>
  }

  /** A tree of cache-bypassing leaves neither reads nor writes the cache. */
  lemma {:induction false} UncachedEvalIgnoresCache(alg: Algebra, ok: Invocation -> bool, e: Expr, cache: Cache)
    requires UncachedLeaves(e)
    ensures var o := Eval(alg, ok, e, cache);
            var clean := Eval(alg, ok, e, map[]);
            o.cache == cache && o.value == clean.value && o.trace == clean.trace
    decreases e
  {
    match e
    case Join(j, l, r) =>
      UncachedEvalIgnoresCache(alg, ok, l, cache);
      UncachedEvalIgnoresCache(alg, ok, r, cache);
      UncachedEvalIgnoresCache(alg, ok, l, map[]);
      UncachedEvalIgnoresCache(alg, ok, r, map[]);
    case AnyField(en, f) =>
      UncachedEvalIgnoresCache(alg, ok, f, cache);
      UncachedEvalIgnoresCache(alg, ok, en, cache);
      UncachedEvalIgnoresCache(alg, ok, f, map[]);
      UncachedEvalIgnoresCache(alg, ok, en, map[]);
    case SpecificField(en, f) =>
      if f.None? {
        UncachedEvalIgnoresCache(alg, ok, en, cache);
      } else {
        UncachedEvalIgnoresCache(alg, ok, f.value, cache);
      }
    case _ =>
  }

  /**
   * Every check leaf of the tree waits for commit: a Deferred leaf on a
   * CommitCheck, or a Commit leaf on a commit-only check.
   */
  predicate AllLeavesWait(e: Expr) {
    match e
    case Immediate(_, _) => false
    case Operation(_, _) => false
    case Deferred(c, _) => c.isCommit
    case Commit(c, _) => c.isCommit && !c.isOperation
    case Join(_, l, r) => AllLeavesWait(l) && AllLeavesWait(r)
    case AnyField(en, f) => AllLeavesWait(en) && AllLeavesWait(f)
    case SpecificField(en, f) => AllLeavesWait(en) && (f.Some? ==> AllLeavesWait(f.value))
    case _ => true
  }

  /**
   * A tree whose every check waits for commit invokes no check and leaves
   * the cache alone, whatever And and Or do.
   */
  lemma {:induction false} WaitingTreeInvokesNothing(alg: Algebra, ok: Invocation -> bool, e: Expr, cache: Cache)
    requires AllLeavesWait(e)
    ensures Eval(alg, ok, e, cache).trace == [] && Eval(alg, ok, e, cache).cache == cache
    decreases e
  {
    match e
    case Join(j, l, r) =>
      WaitingTreeInvokesNothing(alg, ok, l, cache);
      WaitingTreeInvokesNothing(alg, ok, r, cache);
    case AnyField(en, f) =>
      WaitingTreeInvokesNothing(alg, ok, f, cache);
      WaitingTreeInvokesNothing(alg, ok, en, cache);
    case SpecificField(en, f) =>
      if f.None? {
        WaitingTreeInvokesNothing(alg, ok, en, cache);
      } else {
        WaitingTreeInvokesNothing(alg, ok, f.value, cache);
      }
    case _ =>
  }
}
