/**
 * security/permissions/ExpressionBuilder.java: compiles the extracted
 * checks into an operation tree of DeferredCheckExpression leaves and a
 * commit tree of ImmediateCheckExpression leaves. An empty check list
 * becomes null. Every leaf a builder creates shares that builder's cache.
 */
module Builder {
  import opened Wrappers
  import opened Checks
  import opened Expressions

  /** The joiner of a group: And in mode ALL, Or otherwise. */
  function JoinerOf(mode: CheckMode): Joiner {
    if mode == ALL then AndJoiner else OrJoiner
  }

  /** The operation expression and the commit expression of one authorization point. */
  datatype ExpressionPair = ExpressionPair(operation: Expr, commit: Expr)

  /** What `buildExpression` returns for an empty queue. */
  datatype Terminator = NullTerminator | NoopTerminator
  {
    function ToExpr(): Expr {
      if NullTerminator? then Null else Noop
    }
  }

  /**
   * How one builder class wraps checks: the leaf kind of its operation
   * tree, that of its commit tree, and the expression ending each chain.
   */
  datatype Recipe = Recipe(operationLeaf: LeafKind, commitLeaf: LeafKind, empty: Terminator)

  /** ExpressionBuilder: DeferredCheckExpression / ImmediateCheckExpression, chains end in null. */
  const BuilderRecipe := Recipe(DeferredLeaf, ImmediateLeaf, NullTerminator)

  /** PermissionExecutor: CommitCheckExpression / OperationCheckExpression, chains end in NoopExpression. */
  const ExecutorRecipe := Recipe(CommitLeaf, OperationLeaf, NoopTerminator)

  /**
   * `buildExpression`: take the checks off the queue in order, instantiate
   * each, and join its leaf with the expression built from the rest; an
   * empty queue gives the terminator.
   */
  function BuildExpression(checks: seq<Check>, kind: LeafKind, t: Target, joiner: Joiner,
                           empty: Terminator): (r: Result<Expr, Error>)
    ensures r.Err? <==> exists i :: 0 <= i < |checks| && !checks[i].instantiable
    ensures r.Err? ==> r.error == InvalidSyntax
    ensures r.Ok? ==> Spine(r.value, joiner) == Leaves(kind, checks, t) && Terminal(r.value, joiner) == empty.ToExpr()
    decreases |checks|
  {
    if |checks| == 0 then Ok(empty.ToExpr())
    else if !checks[0].instantiable then Err(InvalidSyntax)
    else
      var rest :- BuildExpression(checks[1..], kind, t, joiner, empty);
      assert forall i :: 1 <= i < |checks| ==> checks[i] == checks[1..][i - 1];
      Ok(Join(joiner, Leaf(kind, checks[0], t), rest))
  }

  /** `buildFullExpression`: one chain per group, each with its own joiner, joined by the node kind. */
  function BuildFullExpression(entity: CheckSubset, field: CheckSubset, kind: LeafKind, t: Target,
                               empty: Terminator, node: NodeKind): Result<Expr, Error>
  {
    var en :- BuildExpression(QueueOf(entity.checks), kind, t, JoinerOf(entity.mode), empty);
    var fi :- BuildExpression(QueueOf(field.checks), kind, t, JoinerOf(field.mode), empty);
    Ok(Node(node, en, fi))
  }

  /** Both trees for one authorization point, from the same extracted checks. */
  function PairFor(recipe: Recipe, dict: Dictionary, field: Option<string>, t: Target, node: NodeKind): Result<ExpressionPair, Error> {
    var x :- Extract(dict, field);
    var op :- BuildFullExpression(x.EntityChecks(), x.FieldChecks(), recipe.operationLeaf, t, recipe.empty, node);
    var com :- BuildFullExpression(x.EntityChecks(), x.FieldChecks(), recipe.commitLeaf, t, recipe.empty, node);
    Ok(ExpressionPair(op, com))
  }

  /** The Or arm a field contributes: its own any-field pair. */
  function FieldArm(recipe: Recipe, dict: Dictionary, f: string, t: Target): Result<ExpressionPair, Error> {
    PairFor(recipe, dict, Some(f), t, AnyFieldNode)
  }

  /** The accumulated pair extended by one Or arm. */
  function OrArm(acc: ExpressionPair, next: ExpressionPair): ExpressionPair {
    ExpressionPair(Join(OrJoiner, acc.operation, next.operation), Join(OrJoiner, acc.commit, next.commit))
  }

  /** The field loop of `buildAnyFieldExpression` / `checkAnyFieldPermission`: Or each field's pair onto the accumulated pair. */
  function AnyFieldFold(recipe: Recipe, acc: ExpressionPair, dict: Dictionary, fields: seq<string>, t: Target): Result<ExpressionPair, Error>
    decreases |fields|
  {
    if fields == [] then Ok(acc)
    else
      var next :- FieldArm(recipe, dict, fields[0], t);
      AnyFieldFold(recipe, OrArm(acc, next), dict, fields[1..], t)
  }

  /** The any-field pair: the entity-only pair, then one Or per field, in the order given. */
  function AnyFieldPair(recipe: Recipe, dict: Dictionary, fields: seq<string>, t: Target): Result<ExpressionPair, Error> {
    var base :- PairFor(recipe, dict, None, t, AnyFieldNode);
    AnyFieldFold(recipe, base, dict, fields, t)
  }

  /** The any-field loop, shared by both builder classes. */
  method BuildAnyFieldPair(recipe: Recipe, dict: Dictionary, fields: seq<string>, t: Target) returns (r: Result<ExpressionPair, Error>)
    ensures r == AnyFieldPair(recipe, dict, fields, t)
  {
    var base := PairFor(recipe, dict, None, t, AnyFieldNode);
    if base.Err? {
      return Err(base.error);
    }
    var opExp, comExp := base.value.operation, base.value.commit;
    var i := 0;
    while i < |fields|
      invariant 0 <= i <= |fields|
      invariant AnyFieldFold(recipe, ExpressionPair(opExp, comExp), dict, fields[i..], t) == AnyFieldPair(recipe, dict, fields, t)
    {
      assert fields[i..][1..] == fields[i + 1..];
      var next := FieldArm(recipe, dict, fields[i], t);
      if next.Err? {
        return Err(next.error);
      }
      opExp, comExp := Join(OrJoiner, opExp, next.value.operation), Join(OrJoiner, comExp, next.value.commit);
      i := i + 1;
    }
    r := Ok(ExpressionPair(opExp, comExp));
  }

  class ExpressionBuilder {
    /** The cache every leaf built by this builder reads and fills. */
    var cache: Cache

    constructor ()
      ensures cache == map[]
    {
      cache := map[];
    }

    /** `buildSpecificFieldExpression`: the entity and field groups of one field, joined by SpecificFieldExpression. */
    method BuildSpecificFieldExpression(dict: Dictionary, field: Option<string>, t: Target)
      returns (r: Result<ExpressionPair, Error>)
      ensures r == PairFor(BuilderRecipe, dict, field, t, SpecificFieldNode)
    {
      var x := Extract(dict, field);
      if x.Err? {
        return Err(x.error);
      }
      var op := BuildFullExpression(x.value.EntityChecks(), x.value.FieldChecks(), DeferredLeaf, t, NullTerminator, SpecificFieldNode);
      if op.Err? {
        return Err(op.error);
      }
      var com := BuildFullExpression(x.value.EntityChecks(), x.value.FieldChecks(), ImmediateLeaf, t, NullTerminator, SpecificFieldNode);
      if com.Err? {
        return Err(com.error);
      }
      r := Ok(ExpressionPair(op.value, com.value));
    }

    /** `buildAnyFieldExpression`: over `getAllFields`. */
    method BuildAnyFieldExpression(dict: Dictionary, t: Target) returns (r: Result<ExpressionPair, Error>)
      ensures r == AnyFieldPair(BuilderRecipe, dict, dict.allFields, t)
    {
      r := BuildAnyFieldPair(BuilderRecipe, dict, dict.allFields, t);
    }

    /** `computeIfAbsent` on the shared cache, as ImmediateCheckExpression does it. */
    method ComputeIfAbsent(ok: Invocation -> bool, inv: Invocation) returns (v: Evaluated, trace: seq<Invocation>)
      modifies this
      ensures var o := Memoized(ok, inv, old(cache));
              v == o.value && trace == o.trace && cache == o.cache
    {
      if inv in cache {
        v, trace := Done(cache[inv]), [];
      } else {
        var result := Verdict(ok, inv);
        cache := cache[inv := result];
        v, trace := Done(result), [inv];
      }
    }

    /** `evaluate()` of a tree this builder built, updating the shared cache in place. */
    method Evaluate(alg: Algebra, ok: Invocation -> bool, e: Expr) returns (v: Evaluated, trace: seq<Invocation>)
      modifies this
      ensures var o := Eval(alg, ok, e, old(cache));
              v == o.value && trace == o.trace && cache == o.cache
      decreases e
    {
      match e {
        case Null =>
          v, trace := NullDereference, [];
        case Noop =>
          v, trace := Done(FAIL), [];
        case Immediate(c, t) =>
          v, trace := ComputeIfAbsent(ok, Invocation(c.id, t));
        case Deferred(c, t) =>
          if c.isCommit {
            v, trace := Done(DEFERRED), [];
          } else {
            v, trace := ComputeIfAbsent(ok, Invocation(c.id, t));
          }
        case Operation(c, t) =>
          var o := Direct(ok, c, t, cache);
          v, trace := o.value, o.trace;
        case Commit(c, t) =>
          if c.isCommit && !c.isOperation {
            v, trace := Done(DEFERRED), [];
          } else {
            var o := Direct(ok, c, t, cache);
            v, trace := o.value, o.trace;
          }
        case Join(j, l, r) =>
          var lv, lt := Evaluate(alg, ok, l);
          if lv.NullDereference? {
            v, trace := lv, lt;
            return;
          }
          var settled := alg.decide(j, lv.result, OperandOf(r));
          if settled.Some? {
            v, trace := Done(settled.value), lt;
            return;
          }
          var rv, rt := Evaluate(alg, ok, r);
          v := if rv.NullDereference? then NullDereference else Done(alg.combine(j, lv.result, rv.result));
          trace := lt + rt;
        case AnyField(en, f) =>
          var fv, ft := Evaluate(alg, ok, f);
          if fv != Done(FAIL) {
            v, trace := fv, ft;
          } else if en.Noop? {
            v, trace := Done(DEFERRED), ft;
          } else {
            var ev, et := Evaluate(alg, ok, en);
            v, trace := ev, ft + et;
          }
        case SpecificField(en, f) =>
          if f.None? {
            v, trace := Evaluate(alg, ok, en);
          } else {
            v, trace := Evaluate(alg, ok, f.value);
          }
      }
    }
  }

  // ---------------------------------------------------------------------
  // Properties of the built trees
  // ---------------------------------------------------------------------

  /** An empty or null check list gives the terminator: null for ExpressionBuilder, Noop for PermissionExecutor. */
  lemma EmptyGroupIsTerminator(checks: Option<seq<Check>>, kind: LeafKind, t: Target, joiner: Joiner, empty: Terminator)
    requires checks.None? || checks.value == []
    ensures BuildExpression(QueueOf(checks), kind, t, joiner, empty) == Ok(empty.ToExpr())
    ensures empty == NullTerminator ==> BuildExpression(QueueOf(checks), kind, t, joiner, empty) == Ok(Null)
    ensures empty == NoopTerminator ==> BuildExpression(QueueOf(checks), kind, t, joiner, empty) == Ok(Noop)
  {
  }

  /** One more link of a chain keeps the chain relabelled. */
  lemma JoinRelabels(joiner: Joiner, c: Check, t: Target, k1: LeafKind, k2: LeafKind, e1: Expr, e2: Expr)
    requires e2 == Relabel(e1, k2) && LeavesOfKind(e1, k1)
    ensures Join(joiner, Leaf(k2, c, t), e2) == Relabel(Join(joiner, Leaf(k1, c, t), e1), k2)
    ensures LeavesOfKind(Join(joiner, Leaf(k1, c, t), e1), k1)
  {
    assert Relabel(Leaf(k1, c, t), k2) == Leaf(k2, c, t);
  }

  /** A chain of instantiable checks built with another leaf kind is the same chain relabelled. */
  lemma {:induction false} ChainRelabels(checks: seq<Check>, k1: LeafKind, k2: LeafKind, t: Target,
                                         joiner: Joiner, empty: Terminator)
    requires forall i :: 0 <= i < |checks| ==> checks[i].instantiable
    ensures BuildExpression(checks, k1, t, joiner, empty).Ok?
    ensures BuildExpression(checks, k2, t, joiner, empty)
         == Ok(Relabel(BuildExpression(checks, k1, t, joiner, empty).value, k2))
    ensures LeavesOfKind(BuildExpression(checks, k1, t, joiner, empty).value, k1)
    decreases |checks|
  {
    if |checks| == 0 {
      var e := empty.ToExpr();
      assert e == Null || e == Noop;
      assert Relabel(e, k2) == e && LeavesOfKind(e, k1);
    } else {
      assert forall i :: 0 <= i < |checks[1..]| ==> checks[1..][i] == checks[i + 1];
      ChainRelabels(checks[1..], k1, k2, t, joiner, empty);
      var r1 := BuildExpression(checks[1..], k1, t, joiner, empty);
      var r2 := BuildExpression(checks[1..], k2, t, joiner, empty);
      JoinRelabels(joiner, checks[0], t, k1, k2, r1.value, r2.value);
    }
  }

  /** Building the same checks with another leaf kind relabels the tree and fails alike. */
  lemma BuildExpressionRelabels(checks: seq<Check>, k1: LeafKind, k2: LeafKind, t: Target,
                                joiner: Joiner, empty: Terminator)
    ensures BuildExpression(checks, k2, t, joiner, empty).Ok? == BuildExpression(checks, k1, t, joiner, empty).Ok?
    ensures BuildExpression(checks, k1, t, joiner, empty).Ok? ==>
              BuildExpression(checks, k2, t, joiner, empty).value == Relabel(BuildExpression(checks, k1, t, joiner, empty).value, k2)
              && LeavesOfKind(BuildExpression(checks, k1, t, joiner, empty).value, k1)
  {
    if forall i :: 0 <= i < |checks| ==> checks[i].instantiable {
      ChainRelabels(checks, k1, k2, t, joiner, empty);
    }
  }

  /**
   * The full expression is the node kind applied to an entity chain and a
   * field chain; each chain holds one leaf per check of its group, in
   * order, joined by And for mode ALL and by Or otherwise, and ends in the
   * terminator. It fails, with InvalidSyntax, iff some check of either
   * group cannot be instantiated.
   */
  lemma FullExpressionShape(entity: CheckSubset, field: CheckSubset, kind: LeafKind, t: Target,
                            empty: Terminator, node: NodeKind)
    ensures var r := BuildFullExpression(entity, field, kind, t, empty, node);
            && (r.Err? <==> exists c :: (c in QueueOf(entity.checks) || c in QueueOf(field.checks)) && !c.instantiable)
            && (r.Err? ==> r.error == InvalidSyntax)
    ensures BuildFullExpression(entity, field, kind, t, empty, node).Ok? ==>
            exists en, fi ::
              && BuildFullExpression(entity, field, kind, t, empty, node).value == Node(node, en, fi)
              && Spine(en, JoinerOf(entity.mode)) == Leaves(kind, QueueOf(entity.checks), t)
              && Terminal(en, JoinerOf(entity.mode)) == empty.ToExpr()
              && Spine(fi, JoinerOf(field.mode)) == Leaves(kind, QueueOf(field.checks), t)
              && Terminal(fi, JoinerOf(field.mode)) == empty.ToExpr()
  {
    var re := BuildExpression(QueueOf(entity.checks), kind, t, JoinerOf(entity.mode), empty);
    var rf := BuildExpression(QueueOf(field.checks), kind, t, JoinerOf(field.mode), empty);
    if re.Err? {
      var i :| 0 <= i < |QueueOf(entity.checks)| && !QueueOf(entity.checks)[i].instantiable;
      assert QueueOf(entity.checks)[i] in QueueOf(entity.checks);
    } else if rf.Err? {
      var i :| 0 <= i < |QueueOf(field.checks)| && !QueueOf(field.checks)[i].instantiable;
      assert QueueOf(field.checks)[i] in QueueOf(field.checks);
    } else {
      assert BuildFullExpression(entity, field, kind, t, empty, node).value == Node(node, re.value, rf.value);
    }
  }

  /** The full expressions of two leaf kinds mirror each other. */
  lemma FullExpressionRelabels(entity: CheckSubset, field: CheckSubset, k1: LeafKind, k2: LeafKind,
                               t: Target, empty: Terminator, node: NodeKind)
    ensures BuildFullExpression(entity, field, k2, t, empty, node).Ok? == BuildFullExpression(entity, field, k1, t, empty, node).Ok?
    ensures BuildFullExpression(entity, field, k1, t, empty, node).Ok? ==>
              BuildFullExpression(entity, field, k2, t, empty, node).value
                == Relabel(BuildFullExpression(entity, field, k1, t, empty, node).value, k2)
              && LeavesOfKind(BuildFullExpression(entity, field, k1, t, empty, node).value, k1)
  {
    BuildExpressionRelabels(QueueOf(entity.checks), k1, k2, t, JoinerOf(entity.mode), empty);
    BuildExpressionRelabels(QueueOf(field.checks), k1, k2, t, JoinerOf(field.mode), empty);
    if BuildFullExpression(entity, field, k1, t, empty, node).Ok? {
      var en := BuildExpression(QueueOf(entity.checks), k1, t, JoinerOf(entity.mode), empty).value;
      var fi := BuildExpression(QueueOf(field.checks), k1, t, JoinerOf(field.mode), empty).value;
      RelabelNode(node, en, fi, k2);
    }
  }

  /**
   * The two trees of a pair have the same shape; the operation tree's
   * leaves are all of the recipe's operation kind and the commit tree's
   * all of its commit kind.
   */
  ghost predicate Mirrored(recipe: Recipe, p: ExpressionPair) {
    && p.operation == Relabel(p.commit, recipe.operationLeaf)
    && LeavesOfKind(p.operation, recipe.operationLeaf)
    && LeavesOfKind(p.commit, recipe.commitLeaf)
  }

  lemma PairIsMirrored(recipe: Recipe, dict: Dictionary, field: Option<string>, t: Target, node: NodeKind)
    requires PairFor(recipe, dict, field, t, node).Ok?
    ensures Mirrored(recipe, PairFor(recipe, dict, field, t, node).value)
  {
    var x := Extract(dict, field).value;
    FullExpressionRelabels(x.EntityChecks(), x.FieldChecks(), recipe.commitLeaf, recipe.operationLeaf, t, recipe.empty, node);
    var p := PairFor(recipe, dict, field, t, node).value;
    RelabelFacts(p.commit, recipe.operationLeaf, recipe.operationLeaf);
  }

  lemma {:induction false} AnyFieldFoldMirrored(recipe: Recipe, acc: ExpressionPair, dict: Dictionary, fields: seq<string>, t: Target)
    requires Mirrored(recipe, acc)
    requires AnyFieldFold(recipe, acc, dict, fields, t).Ok?
    ensures Mirrored(recipe, AnyFieldFold(recipe, acc, dict, fields, t).value)
    decreases |fields|
  {
    if fields != [] {
      PairIsMirrored(recipe, dict, Some(fields[0]), t, AnyFieldNode);
      var next := FieldArm(recipe, dict, fields[0], t).value;
      AnyFieldFoldMirrored(recipe, OrArm(acc, next), dict, fields[1..], t);
    }
  }

  /**
   * Every pair either builder produces is mirrored; ExpressionBuilder's
   * trees consist of memoizing leaves that share its cache, and
   * PermissionExecutor's of leaves that bypass every cache.
   */
  lemma BuiltPairsMirrored(recipe: Recipe, dict: Dictionary, field: Option<string>, fields: seq<string>, t: Target)
    ensures PairFor(recipe, dict, field, t, SpecificFieldNode).Ok? ==>
              Mirrored(recipe, PairFor(recipe, dict, field, t, SpecificFieldNode).value)
    ensures AnyFieldPair(recipe, dict, fields, t).Ok? ==> Mirrored(recipe, AnyFieldPair(recipe, dict, fields, t).value)
  {
    if PairFor(recipe, dict, field, t, SpecificFieldNode).Ok? {
      PairIsMirrored(recipe, dict, field, t, SpecificFieldNode);
    }
    if AnyFieldPair(recipe, dict, fields, t).Ok? {
      PairIsMirrored(recipe, dict, None, t, AnyFieldNode);
      AnyFieldFoldMirrored(recipe, PairFor(recipe, dict, None, t, AnyFieldNode).value, dict, fields, t);
    }
  }

  lemma MirroredCaching(p: ExpressionPair)
    ensures Mirrored(BuilderRecipe, p) ==> CachedLeaves(p.operation) && CachedLeaves(p.commit)
    ensures Mirrored(ExecutorRecipe, p) ==> UncachedLeaves(p.operation) && UncachedLeaves(p.commit)
  {
    if Mirrored(BuilderRecipe, p) {
      LeafKindCaching(p.operation, DeferredLeaf);
      LeafKindCaching(p.commit, ImmediateLeaf);
    }
    if Mirrored(ExecutorRecipe, p) {
      LeafKindCaching(p.operation, CommitLeaf);
      LeafKindCaching(p.commit, OperationLeaf);
    }
  }

  /** The fold adds one Or arm per field on top of the accumulated expressions, which stay its prefix. */
  lemma {:induction false} AnyFieldFoldPrefix(recipe: Recipe, acc: ExpressionPair, dict: Dictionary, fields: seq<string>, t: Target)
    requires AnyFieldFold(recipe, acc, dict, fields, t).Ok?
    ensures var p := AnyFieldFold(recipe, acc, dict, fields, t).value;
            && Base(p.operation) == Base(acc.operation) && Base(p.commit) == Base(acc.commit)
            && |Arms(p.operation)| == |Arms(acc.operation)| + |fields|
            && |Arms(p.commit)| == |Arms(acc.commit)| + |fields|
            && Arms(p.operation)[..|Arms(acc.operation)|] == Arms(acc.operation)
            && Arms(p.commit)[..|Arms(acc.commit)|] == Arms(acc.commit)
    decreases |fields|
  {
    if fields != [] {
      var next := FieldArm(recipe, dict, fields[0], t).value;
      var acc' := OrArm(acc, next);
      AnyFieldFoldPrefix(recipe, acc', dict, fields[1..], t);
      assert Arms(acc'.operation) == Arms(acc.operation) + [next.operation];
      assert Arms(acc'.commit) == Arms(acc.commit) + [next.commit];
    }
  }

  /** The arm added for the i-th field is that field's own pair. */
  lemma {:induction false} AnyFieldFoldArms(recipe: Recipe, acc: ExpressionPair, dict: Dictionary, fields: seq<string>,
                                            t: Target, i: nat)
    requires AnyFieldFold(recipe, acc, dict, fields, t).Ok?
    requires i < |fields|
    ensures FieldArm(recipe, dict, fields[i], t).Ok?
    ensures var p := AnyFieldFold(recipe, acc, dict, fields, t).value;
            && |Arms(acc.operation)| + i < |Arms(p.operation)|
            && |Arms(acc.commit)| + i < |Arms(p.commit)|
            && Arms(p.operation)[|Arms(acc.operation)| + i] == FieldArm(recipe, dict, fields[i], t).value.operation
            && Arms(p.commit)[|Arms(acc.commit)| + i] == FieldArm(recipe, dict, fields[i], t).value.commit
    decreases |fields|
  {
    AnyFieldFoldPrefix(recipe, acc, dict, fields, t);
    var next := FieldArm(recipe, dict, fields[0], t).value;
    var acc' := OrArm(acc, next);
    assert Arms(acc'.operation) == Arms(acc.operation) + [next.operation];
    assert Arms(acc'.commit) == Arms(acc.commit) + [next.commit];
    AnyFieldFoldPrefix(recipe, acc', dict, fields[1..], t);
    if i > 0 {
      AnyFieldFoldArms(recipe, acc', dict, fields[1..], t, i - 1);
      assert fields[i] == fields[1..][i - 1];
    } else {
      var p := AnyFieldFold(recipe, acc', dict, fields[1..], t).value;
      assert Arms(p.operation)[..|Arms(acc'.operation)|] == Arms(acc'.operation);
      assert Arms(p.operation)[|Arms(acc.operation)|] == Arms(acc'.operation)[|Arms(acc.operation)|];
      assert Arms(p.commit)[|Arms(acc.commit)|] == Arms(acc'.commit)[|Arms(acc.commit)|];
    }
  }

  /**
   * The any-field result is the entity-only expression Or'd, left-nested,
   * with one expression per field in the order given: the i-th Or arm is
   * the i-th field's own pair.
   */
  lemma AnyFieldShape(recipe: Recipe, dict: Dictionary, fields: seq<string>, t: Target, i: nat)
    requires AnyFieldPair(recipe, dict, fields, t).Ok?
    requires i < |fields|
    ensures PairFor(recipe, dict, None, t, AnyFieldNode).Ok?
    ensures FieldArm(recipe, dict, fields[i], t).Ok?
    ensures var p := AnyFieldPair(recipe, dict, fields, t).value;
            var base := PairFor(recipe, dict, None, t, AnyFieldNode).value;
            && Base(p.operation) == base.operation && Base(p.commit) == base.commit
            && |Arms(p.operation)| == |fields| && |Arms(p.commit)| == |fields|
            && Arms(p.operation)[i] == FieldArm(recipe, dict, fields[i], t).value.operation
            && Arms(p.commit)[i] == FieldArm(recipe, dict, fields[i], t).value.commit
  {
    var base := PairFor(recipe, dict, None, t, AnyFieldNode).value;
    AnyFieldFoldPrefix(recipe, base, dict, fields, t);
    AnyFieldFoldArms(recipe, base, dict, fields, t, i);
  }

  /**
   * ExpressionBuilder's any-field trees cannot be evaluated. Their base is
   * built from checks extracted without a field name, so its field chain
   * is null; AnyFieldExpression evaluates its field expression first, and
   * the Or chain above it evaluates that base first. Both trees therefore
   * end in a NullPointerException, for every check, field and cache.
   */
  lemma BuilderAnyFieldTreesDereferenceNull(dict: Dictionary, fields: seq<string>, t: Target,
                                            alg: Algebra, ok: Invocation -> bool, cache: Cache)
    requires AnyFieldPair(BuilderRecipe, dict, fields, t).Ok?
    ensures var p := AnyFieldPair(BuilderRecipe, dict, fields, t).value;
            && Eval(alg, ok, p.operation, cache).value.NullDereference?
            && Eval(alg, ok, p.commit, cache).value.NullDereference?
  {
    var p := AnyFieldPair(BuilderRecipe, dict, fields, t).value;
    var base := PairFor(BuilderRecipe, dict, None, t, AnyFieldNode).value;
    NullFieldSkipsLookup(dict, dict.fieldAnnotations);
    assert base.operation.AnyField? && base.operation.field == Null;
    assert base.commit.AnyField? && base.commit.field == Null;
    AnyFieldFoldPrefix(BuilderRecipe, base, dict, fields, t);
    NullBaseDereferences(alg, ok, p.operation, cache);
    NullBaseDereferences(alg, ok, p.commit, cache);
  }

  /** With no fields the any-field pair is the entity-only pair itself. */
  lemma NoFieldsMeansEntityOnly(recipe: Recipe, dict: Dictionary, t: Target)
    ensures AnyFieldPair(recipe, dict, [], t) == PairFor(recipe, dict, None, t, AnyFieldNode)
  {
  }

  /**
   * An operation chain of ExpressionBuilder whose checks are all
   * CommitChecks is decided without a single call of `ok` and leaves the
   * cache as it was.
   */
  lemma DeferredChainInvokesNothing(checks: seq<Check>, t: Target, joiner: Joiner,
                                    alg: Algebra, ok: Invocation -> bool, cache: Cache)
    requires forall c :: c in checks ==> c.isCommit
    requires BuildExpression(checks, DeferredLeaf, t, joiner, NullTerminator).Ok?
    ensures var o := Eval(alg, ok, BuildExpression(checks, DeferredLeaf, t, joiner, NullTerminator).value, cache);
            o.trace == [] && o.cache == cache
  {
    ChainWaits(checks, DeferredLeaf, t, joiner, NullTerminator);
    WaitingTreeInvokesNothing(alg, ok, BuildExpression(checks, DeferredLeaf, t, joiner, NullTerminator).value, cache);
  }

  /**
   * An operation chain of PermissionExecutor whose checks are all
   * commit-only is decided without a single call of `ok`.
   */
  lemma CommitChainInvokesNothing(checks: seq<Check>, t: Target, joiner: Joiner,
                                  alg: Algebra, ok: Invocation -> bool, cache: Cache)
    requires forall c :: c in checks ==> c.isCommit && !c.isOperation
    requires BuildExpression(checks, CommitLeaf, t, joiner, NoopTerminator).Ok?
    ensures var o := Eval(alg, ok, BuildExpression(checks, CommitLeaf, t, joiner, NoopTerminator).value, cache);
            o.trace == [] && o.cache == cache
  {
    ChainWaits(checks, CommitLeaf, t, joiner, NoopTerminator);
    WaitingTreeInvokesNothing(alg, ok, BuildExpression(checks, CommitLeaf, t, joiner, NoopTerminator).value, cache);
  }

  lemma {:induction false} ChainWaits(checks: seq<Check>, kind: LeafKind, t: Target, joiner: Joiner, empty: Terminator)
    requires kind == DeferredLeaf || kind == CommitLeaf
    requires kind == DeferredLeaf ==> forall c :: c in checks ==> c.isCommit
    requires kind == CommitLeaf ==> forall c :: c in checks ==> c.isCommit && !c.isOperation
    requires BuildExpression(checks, kind, t, joiner, empty).Ok?
    ensures AllLeavesWait(BuildExpression(checks, kind, t, joiner, empty).value)
    decreases |checks|
  {
    if |checks| > 0 {
      assert checks[0] in checks;
      assert forall c :: c in checks[1..] ==> c in checks;
      ChainWaits(checks[1..], kind, t, joiner, empty);
    }
  }
}
