# Elide permission core, modelled in Dafny

Elide is a JSON-API web service library. Each entity and each of its fields
may carry a permission annotation (Read, Create, Update, Delete, Share).
An annotation lists check classes under `any` (one passing check is
enough) or under `all` (every check must pass). This project models the
part of `elide-core` that turns those annotations into allow/deny decisions:

- `checks.dfy` (module `Checks`): declared checks, invocations, errors, and
  `security/checks/ExtractedChecks`. This is the lookup of the entity and field
  annotations, the choice of the complete check set and its mode, and the
  `getArray` filter by the CommitCheck / OperationCheck tags.
- `expressions.dfy` (module `Expressions`): the expression tree and
  `evaluate()` of every expression class. ImmediateCheckExpression memoises
  in the shared cache. DeferredCheckExpression and CommitCheckExpression
  answer DEFERRED for commit checks. OperationCheckExpression never caches.
  NoopExpression fails. AnyFieldExpression and SpecificFieldExpression
  combine an entity and a field expression. Each evaluation threads the cache
  and records the checks it invokes, in order.
- `expression_builder.dfy` (module `Builder`): `ExpressionBuilder`. It builds
  a null-terminated And/Or chain of checks per group, an operation tree of
  DeferredCheckExpression leaves and a commit tree of
  ImmediateCheckExpression leaves. For the any-field variant it Or-s one
  field arm per field onto the entity-only pair. It holds the cache that all
  its leaves share.
- `permission_executor.dfy` (module `Executor`): `PermissionExecutor`. Its
  chains end in NoopExpression and use CommitCheckExpression and
  OperationCheckExpression leaves. For Create and Update it evaluates the
  operation tree and queues the commit tree when the result is DEFERRED;
  otherwise it evaluates the commit tree. `checkCommitPermissions` drains the
  queue.
- `permission_manager.dfy` (module `Manager`): `PermissionManager`, the
  direct ANY/ALL check runner. Create and Update run only the user-level
  `ok`. Each check they get past queues a commit-time re-run of the whole
  list against the object. The model also covers the two field-aware
  checks and `executeCommitChecks`.
- `filter_scope.dfy` (module `Filters`): `FilterScope.getUserPermission`,
  the memoised ALLOW / DENY / FILTER combination of user checks.

The `ok` answers of checks, the user's answers to user checks, and the
semantics of AndExpression and OrExpression are parameters. Their source is
not part of this model, and no lemma assumes anything about And or Or. Java
`null` is `Option.None`, a null expression is the `Null` tree, and
evaluating it is a `NullDereference`. A thrown exception is an `Err` or a
`Raised` status.

## Model

| member | source | states |
|---|---|---|
| Checks.GetArray | elide-core/src/main/java/com/yahoo/elide/security/checks/ExtractedChecks.java:137-149 | The loop keeps exactly the checks assignable to the tag, in their original order. A null array gives the empty array. |
| Checks.Filtered | elide-core/src/main/java/com/yahoo/elide/security/checks/ExtractedChecks.java:143-147 | A check is in the result iff it is in the input and carries the tag. The result is never longer than the input. |
| Checks.ArrayToQueue | elide-core/src/main/java/com/yahoo/elide/security/permissions/ExpressionBuilder.java:184-193 | The queue holds the array's elements in order. A null array gives an empty queue. |
| Checks.Extract | elide-core/src/main/java/com/yahoo/elide/security/checks/ExtractedChecks.java:46-93 | Fails iff the entity annotation or the looked-up field annotation is present with empty `any` and `all`. The failure is InvalidSyntax. |
| Checks.AbsentEntityAnnotation | elide-core/src/main/java/com/yahoo/elide/security/checks/ExtractedChecks.java:56-58 | Without an entity annotation the entity group is a null array in mode ALL. |
| Checks.PresentEntityAnnotation | elide-core/src/main/java/com/yahoo/elide/security/checks/ExtractedChecks.java:96-115 | A present entity annotation gives its `any` list in mode ANY when that list is non-empty, otherwise its `all` list in mode ALL. Either list is non-empty. |
| Checks.FieldGroupOfExtract | elide-core/src/main/java/com/yahoo/elide/security/checks/ExtractedChecks.java:75-119 | The field group follows the same rule for the field annotation. Without one it is null in mode ALL. |
| Checks.NullFieldSkipsLookup | elide-core/src/main/java/com/yahoo/elide/security/checks/ExtractedChecks.java:50-54 | A null field name never consults the field annotations, and its field group is null in mode ALL. |
| Checks.SubsetsSplitByTag | elide-core/src/main/java/com/yahoo/elide/security/checks/ExtractedChecks.java:121-135 | The commit and operation subsets keep the group's mode. Each holds exactly the complete-set checks with its tag, so a doubly tagged check is in both. |
| Expressions.MakeSpecificField | elide-core/src/main/java/com/yahoo/elide/security/permissions/expressions/SpecificFieldExpression.java:19-23 | A Noop or null field expression is stored as absent. Any other is kept, and so is the entity expression. |
| Expressions.ImmediateCached | elide-core/src/main/java/com/yahoo/elide/security/permissions/expressions/ImmediateCheckExpression.java:46-51 | A cached check returns its cached result, invokes nothing and leaves the cache unchanged. |
| Expressions.ImmediateUncached | elide-core/src/main/java/com/yahoo/elide/security/permissions/expressions/ImmediateCheckExpression.java:46-51 | An uncached check is invoked once. PASS iff `ok`, FAIL iff not, and the result is stored. |
| Expressions.ImmediateTwice | elide-core/src/main/java/com/yahoo/elide/security/permissions/expressions/ImmediateCheckExpression.java:47-50 | Evaluating the same leaf twice gives the same result and invokes its check at most once in all. |
| Expressions.DeferredCheckEvaluation | elide-core/src/main/java/com/yahoo/elide/security/permissions/expressions/DeferredCheckExpression.java:38-44 | A commit check is DEFERRED without invoking anything. Any other check evaluates as ImmediateCheckExpression. |
| Expressions.OperationCheckEvaluation | elide-core/src/main/java/com/yahoo/elide/security/permissions/expressions/OperationCheckExpression.java:42-49 | The cache is never touched. DEFERRED iff the check is a NoopExpression. Otherwise the check is invoked once, and the result is PASS iff `ok`. |
| Expressions.CommitCheckEvaluation | elide-core/src/main/java/com/yahoo/elide/security/permissions/expressions/CommitCheckExpression.java:33-39 | A check that is a commit check and not an operation check is DEFERRED with no invocation. Any other evaluates as OperationCheckExpression. |
| Expressions.NoopFails | elide-core/src/main/java/com/yahoo/elide/security/permissions/expressions/NoopExpression.java:17-20 | NoopExpression is FAIL, invokes nothing and leaves the cache alone. |
| Expressions.AnyFieldNode | elide-core/src/main/java/com/yahoo/elide/security/permissions/expressions/AnyFieldExpression.java:22-29 | The field result wins unless it is FAIL. After a field FAIL, a Noop entity gives DEFERRED and any other entity decides. The node is FAIL iff both are FAIL, so never with a Noop entity. |
| Expressions.SpecificFieldNode | elide-core/src/main/java/com/yahoo/elide/security/permissions/expressions/SpecificFieldExpression.java:19-31 | An absent field expression (Noop or null) evaluates the entity expression. Otherwise only the field expression is evaluated. |
| Expressions.EvalExtendsCache | elide-core/src/main/java/com/yahoo/elide/security/permissions/expressions/ImmediateCheckExpression.java:47-50 | Evaluation only adds cache entries. Old entries keep their values, and each new one is a check this evaluation invoked, holding `ok`'s verdict. |
| Expressions.EvalKeepsConsistency | elide-core/src/main/java/com/yahoo/elide/security/permissions/expressions/ImmediateCheckExpression.java:47-50 | A cache whose entries all agree with `ok` still agrees after any evaluation. |
| Expressions.CachedEvalInvokesOnce | elide-core/src/main/java/com/yahoo/elide/security/permissions/ExpressionBuilder.java:40 | In a tree of memoising leaves, no (check, target) pair is invoked twice, and every invoked pair was uncached before and is cached after. Java's cache is keyed by the check instance, so it invokes a class once per leaf (see Left out). |
| Expressions.ReEvaluationIsFree | elide-core/src/main/java/com/yahoo/elide/security/permissions/ExpressionBuilder.java:40 | Re-evaluating a memoising tree against any extension of the cache it left gives the same result and invokes nothing. |
| Expressions.EvaluatingTwiceInvokesOnce | elide-core/src/main/java/com/yahoo/elide/security/permissions/ExpressionBuilder.java:88-91 | Evaluating a builder tree twice through the shared cache gives the same result and invokes each (check, target) pair at most once in all. |
| Expressions.MemoizationIsTransparent | elide-core/src/main/java/com/yahoo/elide/security/permissions/expressions/ImmediateCheckExpression.java:47-50 | With caches consistent with `ok`, the result does not depend on what is cached. |
| Expressions.UncachedEvalIgnoresCache | elide-core/src/main/java/com/yahoo/elide/security/permissions/expressions/OperationCheckExpression.java:42-49 | A tree of non-caching leaves leaves the cache alone, and its result and invocations are those of a cacheless run. |
| Expressions.WaitingTreeInvokesNothing | elide-core/src/main/java/com/yahoo/elide/security/permissions/expressions/DeferredCheckExpression.java:38-44 | A tree whose every leaf waits for commit invokes nothing and leaves the cache alone, whatever And and Or do. |
| Builder.BuildExpression | elide-core/src/main/java/com/yahoo/elide/security/permissions/ExpressionBuilder.java:160-175 | InvalidSyntax iff some check cannot be instantiated. Otherwise the chain has one leaf per check, in order, under the joiner, and ends in the terminator. |
| Builder.EmptyGroupIsTerminator | elide-core/src/main/java/com/yahoo/elide/security/permissions/ExpressionBuilder.java:163-165 | A null or empty group is the terminator: null for ExpressionBuilder, Noop for PermissionExecutor. |
| Builder.ChainRelabels | elide-core/src/main/java/com/yahoo/elide/security/permissions/ExpressionBuilder.java:160-175 | Over instantiable checks, the chain built with one leaf class is the chain built with another, relabelled. |
| Builder.BuildExpressionRelabels | elide-core/src/main/java/com/yahoo/elide/security/permissions/ExpressionBuilder.java:61-70 | Building with two leaf classes fails alike, and otherwise gives the same tree up to leaf class. |
| Builder.FullExpressionShape | elide-core/src/main/java/com/yahoo/elide/security/permissions/ExpressionBuilder.java:135-150 | InvalidSyntax iff some check of either group cannot be instantiated. Otherwise the tree is the node over an entity chain and a field chain, each with its own mode's joiner, leaves and terminator. |
| Builder.FullExpressionRelabels | elide-core/src/main/java/com/yahoo/elide/security/permissions/ExpressionBuilder.java:55-73 | The operation and commit trees of one point differ only in leaf class, and they fail together. |
| Builder.BuildAnyFieldPair | elide-core/src/main/java/com/yahoo/elide/security/permissions/ExpressionBuilder.java:106-121 | The loop computes the any-field pair: the entity-only pair with one Or per field, stopping at the first error. |
| Builder.ExpressionBuilder.constructor | elide-core/src/main/java/com/yahoo/elide/security/permissions/ExpressionBuilder.java:40 | A new builder's cache is empty. |
| Builder.ExpressionBuilder.BuildSpecificFieldExpression | elide-core/src/main/java/com/yahoo/elide/security/permissions/ExpressionBuilder.java:55-73 | Returns the Deferred/Immediate pair joined by SpecificFieldExpression, or the extraction or instantiation error. |
| Builder.ExpressionBuilder.BuildAnyFieldExpression | elide-core/src/main/java/com/yahoo/elide/security/permissions/ExpressionBuilder.java:84-124 | Returns the any-field pair over `getAllFields`. |
| Builder.ExpressionBuilder.ComputeIfAbsent | elide-core/src/main/java/com/yahoo/elide/security/permissions/expressions/ImmediateCheckExpression.java:47-50 | Updating the builder's cache in place does what the value-level memoised lookup describes. |
| Builder.ExpressionBuilder.Evaluate | elide-core/src/main/java/com/yahoo/elide/security/permissions/expressions/ImmediateCheckExpression.java:46-51 | In-place evaluation against the builder's cache gives the same result, invocations and final cache as the value-level evaluator. |
| Builder.PairIsMirrored | elide-core/src/main/java/com/yahoo/elide/security/permissions/ExpressionBuilder.java:61-70 | A built pair's operation tree is its commit tree relabelled, and each tree has leaves of one class. |
| Builder.AnyFieldFoldMirrored | elide-core/src/main/java/com/yahoo/elide/security/permissions/ExpressionBuilder.java:106-121 | The Or loop keeps the pair mirrored. |
| Builder.BuiltPairsMirrored | elide-core/src/main/java/com/yahoo/elide/security/permissions/ExpressionBuilder.java:55-124 | Every pair either builder returns is mirrored. |
| Builder.MirroredCaching | elide-core/src/main/java/com/yahoo/elide/security/permissions/ExpressionBuilder.java:88-91 | ExpressionBuilder pairs have only memoising leaves. PermissionExecutor pairs have only non-caching leaves. |
| Builder.AnyFieldFoldPrefix | elide-core/src/main/java/com/yahoo/elide/security/permissions/ExpressionBuilder.java:119-120 | Each Or keeps the innermost base and the earlier arms and adds exactly one arm per field. |
| Builder.AnyFieldFoldArms | elide-core/src/main/java/com/yahoo/elide/security/permissions/ExpressionBuilder.java:106-121 | The i-th added arm is the i-th field's own pair. |
| Builder.AnyFieldShape | elide-core/src/main/java/com/yahoo/elide/security/permissions/ExpressionBuilder.java:93-123 | A built any-field pair is the entity-only pair Or-ed with one arm per field, in field order, the i-th arm being field i's pair. |
| Expressions.NullBaseDereferences | elide-core/src/main/java/com/yahoo/elide/security/permissions/ExpressionBuilder.java:119-120 | A left-nested Or chain whose innermost left operand throws NullPointerException throws it too, for every `Algebra`, since And and Or evaluate their left operand first. |
| Builder.BuilderAnyFieldTreesDereferenceNull | elide-core/src/main/java/com/yahoo/elide/security/permissions/ExpressionBuilder.java:95-121 | Both any-field trees ExpressionBuilder builds throw NullPointerException on evaluation: their base joins the entity chain with the null field chain of the field-less extraction, and AnyFieldExpression evaluates that field first. |
| Builder.NoFieldsMeansEntityOnly | elide-core/src/main/java/com/yahoo/elide/security/permissions/ExpressionBuilder.java:95-105 | With no fields the any-field pair is the entity-only pair. |
| Builder.DeferredChainInvokesNothing | elide-core/src/main/java/com/yahoo/elide/security/permissions/ExpressionBuilder.java:61-65 | An operation chain of commit checks invokes nothing and leaves the cache alone. |
| Builder.CommitChainInvokesNothing | elide-core/src/main/java/com/yahoo/elide/security/permissions/PermissionExecutor.java:57-59 | An executor operation chain of pure commit checks invokes nothing. |
| Builder.ChainWaits | elide-core/src/main/java/com/yahoo/elide/security/permissions/PermissionExecutor.java:153-168 | Such chains have every leaf waiting for commit. |
| Executor.Immediately | elide-core/src/main/java/com/yahoo/elide/security/permissions/PermissionExecutor.java:126-132 | ForbiddenAccess iff FAIL, NullPointer iff a null tree was evaluated, and normal completion iff PASS or DEFERRED. |
| Executor.Execute | elide-core/src/main/java/com/yahoo/elide/security/permissions/PermissionExecutor.java:118-134 | Create and Update evaluate only the operation tree, and the others only the commit tree. The commit tree is queued iff the kind defers and the operation tree is DEFERRED. |
| Executor.Checked | elide-core/src/main/java/com/yahoo/elide/security/permissions/PermissionExecutor.java:55-64 | A build error is raised before anything is evaluated or queued. Otherwise the built pair is executed. |
| Executor.PermissionExecutor.constructor | elide-core/src/main/java/com/yahoo/elide/security/permissions/PermissionExecutor.java:45 | The queue starts empty. |
| Executor.PermissionExecutor.ExecuteExpressions | elide-core/src/main/java/com/yahoo/elide/security/permissions/PermissionExecutor.java:118-134 | Status and invocations are those of `Execute`, and its queued tree is appended to the queue. |
| Executor.PermissionExecutor.CheckSpecificFieldPermission | elide-core/src/main/java/com/yahoo/elide/security/permissions/PermissionExecutor.java:51-65 | Builds the Commit/Operation pair under SpecificFieldExpression and executes it. The queue only ever holds built trees. |
| Executor.PermissionExecutor.CheckAnyFieldPermission | elide-core/src/main/java/com/yahoo/elide/security/permissions/PermissionExecutor.java:67-105 | Builds the any-field pair over attributes then relationships, with null lists skipped, and executes it. |
| Executor.PermissionExecutor.CheckCommitPermissions | elide-core/src/main/java/com/yahoo/elide/security/permissions/PermissionExecutor.java:110-116 | The loop drains the queue in order, with the status and invocations of `Drain`. |
| Executor.PairCommitIsBuilt | elide-core/src/main/java/com/yahoo/elide/security/permissions/PermissionExecutor.java:57-62 | A built commit tree is a SpecificField or AnyField node, never a bare Noop. |
| Executor.FoldCommitIsBuilt | elide-core/src/main/java/com/yahoo/elide/security/permissions/PermissionExecutor.java:89-102 | The Or loop keeps the commit tree a field node or an Or. |
| Executor.AnyFieldCommitIsBuilt | elide-core/src/main/java/com/yahoo/elide/security/permissions/PermissionExecutor.java:84-102 | Every any-field commit tree is a field node or an Or. |
| Executor.DrainCompletes | elide-core/src/main/java/com/yahoo/elide/security/permissions/PermissionExecutor.java:110-116 | Draining completes iff every entry passes (a FAIL counts only for a non-Noop entry). It then invokes every entry's checks in order. |
| Executor.DrainStopsAtFirstFailure | elide-core/src/main/java/com/yahoo/elide/security/permissions/PermissionExecutor.java:111-114 | The first entry that does not pass decides the exception. No later entry is evaluated. |
| Executor.DrainSkipsNoop | elide-core/src/main/java/com/yahoo/elide/security/permissions/PermissionExecutor.java:112 | A NoopExpression in the queue changes nothing. |
| Executor.QueuedEntriesAreNeverNoop | elide-core/src/main/java/com/yahoo/elide/security/permissions/PermissionExecutor.java:112 | For the queue as built, the Noop exemption never applies: draining completes iff every entry is PASS or DEFERRED. |
| Executor.QueueingRule | elide-core/src/main/java/com/yahoo/elide/security/permissions/PermissionExecutor.java:121-133 | Only Create and Update queue, and only on DEFERRED, in which case they complete. Queuing never goes with an exception. |
| Executor.ExecutorTreesIgnoreCache | elide-core/src/main/java/com/yahoo/elide/security/permissions/PermissionExecutor.java:46 | Executor trees neither read nor write a cache, so evaluating against an empty one is exact. |
| Executor.ExecutorReevaluates | elide-core/src/main/java/com/yahoo/elide/security/permissions/expressions/OperationCheckExpression.java:44-48 | An operation leaf invokes its check again on every evaluation. |
| Manager.ApplyAnswers | elide-core/src/main/java/com/yahoo/elide/security/PermissionManager.java:186-195 | The deferred checkFn asks only the user-level `ok`. The immediate one is user AND object, and asks the object only after a user-level yes. |
| Manager.ExtractChecks | elide-core/src/main/java/com/yahoo/elide/security/PermissionManager.java:49-66 | InvalidSyntax iff both arrays are empty. Otherwise the two arrays, unchanged. |
| Manager.ExtractChoosesMode | elide-core/src/main/java/com/yahoo/elide/security/PermissionManager.java:93-94 | Mode ANY iff `any` is non-empty. The list run is `any` in that case and `all` otherwise. |
| Manager.PermissionManager.constructor | elide-core/src/main/java/com/yahoo/elide/security/PermissionManager.java:30 | No commit check is queued at first. |
| Manager.PermissionManager.ExecutePermissions | elide-core/src/main/java/com/yahoo/elide/security/PermissionManager.java:217-270 | The loop gives the status, the `ok` calls and the appended re-runs of the scan specification. |
| Manager.PermissionManager.CheckPermissions | elide-core/src/main/java/com/yahoo/elide/security/PermissionManager.java:75-81 | A plain run of one check list, as `runPermissionChecks`. |
| Manager.PermissionManager.RunPermissionChecks | elide-core/src/main/java/com/yahoo/elide/security/PermissionManager.java:176-204 | Does nothing under bypass. Otherwise runs the scan with deferral and checkFn chosen by the permission kind. |
| Manager.PermissionManager.RunAnnotationChecks | elide-core/src/main/java/com/yahoo/elide/security/PermissionManager.java:151-154 | Extracts an annotation, raising on an unknown permission, then runs its selected list in its mode. |
| Manager.PermissionManager.ExecuteCommitChecks | elide-core/src/main/java/com/yahoo/elide/security/PermissionManager.java:172-174 | Replays the queued re-runs in insertion order and stops at the first exception. |
| Manager.PermissionManager.CheckFieldAwarePermissions | elide-core/src/main/java/com/yahoo/elide/security/PermissionManager.java:83-139 | Status, calls and queued re-runs are those of the any-field field-aware specification. |
| Manager.PermissionManager.CheckFields | elide-core/src/main/java/com/yahoo/elide/security/PermissionManager.java:107-138 | The field loop over attributes then relationships, then ForbiddenAccess unless a check passed. |
| Manager.PermissionManager.CheckOneField | elide-core/src/main/java/com/yahoo/elide/security/PermissionManager.java:116-133 | One field of that loop, with its re-runs appended to the queue. |
| Manager.PermissionManager.CheckFieldAwarePermissionsOf | elide-core/src/main/java/com/yahoo/elide/security/PermissionManager.java:141-170 | Status, calls and queued re-runs are those of the specific-field specification. |
| Manager.CheckFieldOutcomes | elide-core/src/main/java/com/yahoo/elide/security/PermissionManager.java:116-133 | A field stops the loop only with an outcome other than ForbiddenAccess. A field ForbiddenAccess is swallowed. Only a completed annotated field records a passing check. An unannotated field is skipped. |
| Manager.AllModeFailsFast | elide-core/src/main/java/com/yahoo/elide/security/PermissionManager.java:224-246 | In mode ALL the run completes iff every check passes, and otherwise raises ForbiddenAccess. A completed run called each check once, in order. |
| Manager.AllModeStopsAtFirstFailure | elide-core/src/main/java/com/yahoo/elide/security/PermissionManager.java:243-246 | The first failing check raises ForbiddenAccess, and no later check is called. |
| Manager.AnyModeNeedsOnePass | elide-core/src/main/java/com/yahoo/elide/security/PermissionManager.java:239-241 | Mode ANY without deferral completes iff some check passes, otherwise raises ForbiddenAccess, and queues nothing. |
| Manager.AnyModeStopsAtFirstPass | elide-core/src/main/java/com/yahoo/elide/security/PermissionManager.java:239-241 | The first passing check ends an ANY run. No later check is called. |
| Manager.NonInstantiableRaises | elide-core/src/main/java/com/yahoo/elide/security/PermissionManager.java:226-231 | Reaching a check that cannot be instantiated raises InvalidSyntax. |
| Manager.DeferredRunQueuesReruns | elide-core/src/main/java/com/yahoo/elide/security/PermissionManager.java:249-263 | A deferred run calls only the user-level `ok` and queues one re-run of the whole list per check called that does not raise, a failing ANY check included. In mode ANY it never raises ForbiddenAccess. A run that raises ForbiddenAccess made exactly one call more than it queued re-runs, so a failed ALL run keeps the re-runs queued before the failing check. |
| Manager.ImmediateRunQueuesNothing | elide-core/src/main/java/com/yahoo/elide/security/PermissionManager.java:192-195 | A run without deferral queues nothing. The object is asked only after a user-level yes. |
| Manager.ReRunQueuesNothing | elide-core/src/main/java/com/yahoo/elide/security/PermissionManager.java:252-262 | A commit-time re-run queues nothing and calls only the object-level `ok`. |
| Manager.ReplayCompletes | elide-core/src/main/java/com/yahoo/elide/security/PermissionManager.java:172-174 | Replay completes iff every re-run completes, and every call it makes is object-level. |
| Manager.BypassDoesNothing | elide-core/src/main/java/com/yahoo/elide/security/PermissionManager.java:182-184 | Under BYPASS_SECURITY nothing is called, queued or raised. |
| Manager.DeferralFollowsKind | elide-core/src/main/java/com/yahoo/elide/security/PermissionManager.java:186-203 | Create and Update make only user-level calls and, once complete, queue one re-run per check called, passed or not. The other kinds queue nothing. |
| Manager.FieldLoopForbidden | elide-core/src/main/java/com/yahoo/elide/security/PermissionManager.java:116-138 | The loop raises ForbiddenAccess only if no check had passed and every annotated field's run raised ForbiddenAccess. |
| Manager.FieldAwareForbidden | elide-core/src/main/java/com/yahoo/elide/security/PermissionManager.java:83-139 | The any-field check denies only if an entity annotation exists and its run and every annotated field's run raised ForbiddenAccess. Without an entity annotation, field failures never deny. |
| Manager.AnyEntitySettles | elide-core/src/main/java/com/yahoo/elide/security/PermissionManager.java:96-100 | An ANY entity annotation whose run does not raise settles the check, and no field is looked at. |
| Manager.FieldAwareOfDecides | elide-core/src/main/java/com/yahoo/elide/security/PermissionManager.java:141-170 | A non-Forbidden entity exception propagates. Otherwise an annotated field decides by its own run, and an unannotated one fails iff the entity run failed. |
| Filters.Compose | elide-core/src/main/java/com/yahoo/elide/core/FilterScope.java:76-101 | The number of checks asked lies between the starting index and the list length. |
| Filters.ComposeStopsAt | elide-core/src/main/java/com/yahoo/elide/core/FilterScope.java:80-90 | The first shortcut answer is the result, and nothing after it is asked. |
| Filters.ComposeRunsThrough | elide-core/src/main/java/com/yahoo/elide/core/FilterScope.java:92-101 | Without a shortcut every check is asked. The result is FILTER if one was seen, else the mode's default. |
| Filters.ComposeConsults | elide-core/src/main/java/com/yahoo/elide/core/FilterScope.java:77-96 | If the loop stopped early or ended on a shortcut, the last check asked gave that shortcut and none before it did. |
| Filters.AnyModeFirstAllow | elide-core/src/main/java/com/yahoo/elide/core/FilterScope.java:80-84 | In ANY mode the first ALLOW gives ALLOW, and the checks after it are not asked. |
| Filters.AllModeFirstDeny | elide-core/src/main/java/com/yahoo/elide/core/FilterScope.java:86-95 | In ALL mode the first DENY gives DENY, even after FILTER answers. |
| Filters.NoShortcutResult | elide-core/src/main/java/com/yahoo/elide/core/FilterScope.java:92-101 | Without a shortcut: FILTER if some check said FILTER, else DENY in ANY mode and ALLOW in ALL mode. Every check is asked. |
| Filters.EmptyScopeDefaults | elide-core/src/main/java/com/yahoo/elide/core/FilterScope.java:99-101 | No checks: DENY in ANY mode and ALLOW in ALL mode. |
| Filters.FilterScope.constructor | elide-core/src/main/java/com/yahoo/elide/core/FilterScope.java:33-37 | The one-argument scope is ALL with no checks and nothing remembered. |
| Filters.FilterScope.Of | elide-core/src/main/java/com/yahoo/elide/core/FilterScope.java:42-54 | A scope holds the given mode and checks, and nothing is remembered yet. |
| Filters.FilterScope.Create | elide-core/src/main/java/com/yahoo/elide/core/FilterScope.java:39-55 | IllegalState iff some user-check class cannot be instantiated. Otherwise one instance per class, in order. |
| Filters.FilterScope.GetUserPermission | elide-core/src/main/java/com/yahoo/elide/core/FilterScope.java:71-103 | Returns a remembered result without asking anything. Otherwise returns the composite, asks exactly the checks up to the stopping point, and remembers the result. |

## Left out

- Reflection. `getMethod("any")` / `getMethod("all")` cannot fail on a permission annotation in this model, so the ReflectiveOperationException paths of `extractChecks` and the ExtractedChecks constructor are not modelled. The other InvalidSyntax paths are.
- AndExpression and OrExpression are not part of this model. Their evaluation is the `Algebra` parameter, and no property depends on its choice. The model does fix one thing about them: each evaluates its left operand first, and a NullPointerException there propagates.
- Check identity. `buildExpression` creates a fresh check instance for every leaf, and the HashMap cache is keyed by that instance. Java's cache therefore only catches re-evaluation of the same leaf. The model keys the cache by check class and target, so it shares one result across leaves with the same check and target. Such leaves arise in the entity chains rebuilt for every any-field arm, in a class listed in both the entity and the field group, and in the two trees of one pair. Where a class repeats, the model invokes `ok` at most once per (check, target) while Java invokes it once per leaf; CachedEvalInvokesOnce, EvaluatingTwiceInvokesOnce and MirroredCaching are stated for the model's key.
- Re-run closures. They are collected in a LinkedHashSet keyed by identity, and every closure is distinct, so the model keeps them as a sequence.
- The `ok == null` coercion of `executePermissions` is not modelled: `ok` answers a boolean here.
- The unused `isFieldAware` flag is not modelled.
- The request scope, the persistent resource and the change spec are reduced to a target identifier. The dictionary is reduced to the annotations and field lists it returns.
- Logging, Lombok getters, `FilterScope.hasPredicates` (a wrapper over the request scope) and the thread-safety of LinkedBlockingQueue are not modelled.
- A null `checks` array passed to `checkPermissions` is not modelled (Java would throw NullPointerException). Arrays are sequences here.
- The user's answers to user checks are a function of the check. A user whose answers change between calls is not modelled.
- The executor has no cache. Its trees are evaluated value-level against an empty cache, which they never read or write. Only the builder's cache is modelled in place.
- The FilterScope three-argument constructor, which throws, is the static method `Create` returning a Result.
