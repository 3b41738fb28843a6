/**
 * Declared checks and their extraction from a permission annotation
 * (security/checks/ExtractedChecks.java), plus the identifiers shared by
 * every other module: check invocations, errors and statuses.
 */
module Checks {
  import opened Wrappers

  type CheckId = nat
  type ResourceId = nat

  /**
   * A declared check class. `isCommit` and `isOperation` are the two
   * capability tags (implements CommitCheck / OperationCheck);
   * `isNoopExpression` says the class is also a NoopExpression (the
   * instanceof test of OperationCheckExpression); `instantiable` says
   * whether `newInstance()` succeeds on it.
   */
  datatype Check = Check(id: CheckId, isCommit: bool, isOperation: bool,
                         isNoopExpression: bool, instantiable: bool)

  /** An opaque description of the pending change handed to a check. */
  datatype ChangeSpec = ChangeSpec(id: nat)

  /** What a check expression is bound to: the resource and the optional change. */
  datatype Target = Target(resource: ResourceId, change: Option<ChangeSpec>)

  /** One call of `Check.ok`: which check, against which resource and change. */
  datatype Invocation = Invocation(check: CheckId, target: Target)

  /** The exceptions the core raises. */
  datatype Error = ForbiddenAccess | InvalidSyntax | NullPointer | IllegalState

  /** How a public operation ended: normally, or by raising an exception. */
  datatype Status = Completed | Raised(error: Error)

  /** The permission annotation classes; Create and Update are the deferrable ones. */
  datatype PermissionKind =
    | ReadPermission | CreatePermission | UpdatePermission | DeletePermission | SharePermission
  {
    predicate IsDeferrable() {
      CreatePermission? || UpdatePermission?
    }
  }

  datatype CheckMode = ANY | ALL

  /** The two marker interfaces `getArray` filters by. */
  datatype Tag = CommitTag | OperationTag

  predicate HasTag(c: Check, tag: Tag) {
    match tag
    case CommitTag => c.isCommit
    case OperationTag => c.isOperation
  }

  /** The checks of `s` assignable to `tag`, in their original order. */
  function Filtered(tag: Tag, s: seq<Check>): (r: seq<Check>)
    ensures |r| <= |s|
    ensures forall c :: c in r <==> c in s && HasTag(c, tag)
  {
    if s == [] then []
    else (if HasTag(s[0], tag) then [s[0]] else []) + Filtered(tag, s[1..])
  }

  /** Filtering distributes over concatenation, so it keeps relative order. */
  lemma {:induction false} FilteredAppend(tag: Tag, a: seq<Check>, b: seq<Check>)
    ensures Filtered(tag, a + b) == Filtered(tag, a) + Filtered(tag, b)
  {
    if a == [] {
      assert a + b == b;
    } else {
      assert (a + b)[0] == a[0];
      assert (a + b)[1..] == a[1..] + b;
      FilteredAppend(tag, a[1..], b);
    }
  }

  /** The value of `getArray(cls, checks)`: empty for a null array. */
  function ArrayOf(tag: Tag, checks: Option<seq<Check>>): seq<Check> {
    if checks.None? then [] else Filtered(tag, checks.value)
  }

  /** `getArray`: collect, in a loop, the checks assignable to the tag. */
  method GetArray(tag: Tag, checks: Option<seq<Check>>) returns (r: seq<Check>)
    ensures r == ArrayOf(tag, checks)
  {
    if checks.None? {
      return [];
    }
    var s := checks.value;
    r := [];
    var i := 0;
    while i < |s|
      invariant 0 <= i <= |s|
      invariant r == Filtered(tag, s[..i])
    {
      assert s[..i + 1] == s[..i] + [s[i]];
      FilteredAppend(tag, s[..i], [s[i]]);
      assert Filtered(tag, [s[i]]) == if HasTag(s[i], tag) then [s[i]] else [] by {
        assert [s[i]][1..] == [];
      }
      if HasTag(s[i], tag) {
        r := r + [s[i]];
      }
      i := i + 1;
    }
    assert s[..|s|] == s;
  }

  /** The elements of a possibly-null array, in order. */
  function QueueOf<T>(items: Option<seq<T>>): seq<T> {
    if items.None? then [] else items.value
  }

  /** `arrayToQueue`: copy the array into a fresh queue, element by element. */
  method ArrayToQueue<T>(items: Option<seq<T>>) returns (queue: seq<T>)
    ensures queue == QueueOf(items)
  {
    queue := [];
    if items.None? {
      return;
    }
    var i := 0;
    while i < |items.value|
      invariant 0 <= i <= |items.value|
      invariant queue == items.value[..i]
    {
      queue := queue + [items.value[i]];
      i := i + 1;
    }
  }

  /** The `any()` and `all()` arrays of a permission annotation. */
  datatype Annotation = Annotation(any: seq<Check>, all: seq<Check>)

  /**
   * The entity dictionary, specialised to one annotation class and one
   * resource class: the entity-level annotation, the annotation of each
   * attribute or relationship that has one, and the field lists.
   */
  datatype Dictionary = Dictionary(
    entityAnnotation: Option<Annotation>,
    fieldAnnotations: map<string, Annotation>,
    attributes: Option<seq<string>>,
    relationships: Option<seq<string>>,
    allFields: seq<string>)

  /**
   * The attributes, then the relationships, as PermissionExecutor and
   * PermissionManager walk them; a null list contributes nothing.
   */
  function FieldsOf(dict: Dictionary): seq<string> {
    QueueOf(dict.attributes) + QueueOf(dict.relationships)
  }

  /** `getAttributeOrRelationAnnotation`, skipped altogether for a null field name. */
  function FieldAnnotation(dict: Dictionary, field: Option<string>): Option<Annotation> {
    if field.None? || field.value !in dict.fieldAnnotations then None
    else Some(dict.fieldAnnotations[field.value])
  }

  /** An annotation that is present but lists no check at all. */
  predicate Malformed(a: Option<Annotation>) {
    a.Some? && |a.value.any| == 0 && |a.value.all| == 0
  }

  predicate NonEmpty(a: Option<seq<Check>>) {
    a.Some? && |a.value| > 0
  }

  /** A list of checks together with the mode that combines them. */
  datatype CheckSubset = CheckSubset(checks: Option<seq<Check>>, mode: CheckMode)

  /** The four arrays the constructor stores; null where no annotation was found. */
  datatype ExtractedChecks = ExtractedChecks(
    anyEntityChecks: Option<seq<Check>>,
    allEntityChecks: Option<seq<Check>>,
    anyFieldChecks: Option<seq<Check>>,
    allFieldChecks: Option<seq<Check>>)
  {
    function CompleteSetOfEntityChecks(): Option<seq<Check>> {
      if NonEmpty(anyEntityChecks) then anyEntityChecks else allEntityChecks
    }

    function CompleteSetOfFieldChecks(): Option<seq<Check>> {
      if NonEmpty(anyFieldChecks) then anyFieldChecks else allFieldChecks
    }

    function EntityCheckMode(): CheckMode {
      if NonEmpty(anyEntityChecks) then ANY else ALL
    }

    function FieldCheckMode(): CheckMode {
      if NonEmpty(anyFieldChecks) then ANY else ALL
    }

    function EntityChecks(): CheckSubset {
      CheckSubset(CompleteSetOfEntityChecks(), EntityCheckMode())
    }

    function FieldChecks(): CheckSubset {
      CheckSubset(CompleteSetOfFieldChecks(), FieldCheckMode())
    }

    function EntityCommitChecks(): CheckSubset {
      CheckSubset(Some(ArrayOf(CommitTag, CompleteSetOfEntityChecks())), EntityCheckMode())
    }

    function EntityOperationChecks(): CheckSubset {
      CheckSubset(Some(ArrayOf(OperationTag, CompleteSetOfEntityChecks())), EntityCheckMode())
    }

    function FieldCommitChecks(): CheckSubset {
      CheckSubset(Some(ArrayOf(CommitTag, CompleteSetOfFieldChecks())), FieldCheckMode())
    }

    function FieldOperationChecks(): CheckSubset {
      CheckSubset(Some(ArrayOf(OperationTag, CompleteSetOfFieldChecks())), FieldCheckMode())
    }
  }

  function AnyOf(a: Option<Annotation>): Option<seq<Check>> {
    if a.None? then None else Some(a.value.any)
  }

  function AllOf(a: Option<Annotation>): Option<seq<Check>> {
    if a.None? then None else Some(a.value.all)
  }

  /**
   * The ExtractedChecks constructor: look up the entity annotation and,
   * for a non-null field name, the field annotation; reject a present
   * annotation that declares neither `any` nor `all` checks.
   */
  function Extract(dict: Dictionary, field: Option<string>): (r: Result<ExtractedChecks, Error>)
    ensures r.Err? <==> Malformed(dict.entityAnnotation) || Malformed(FieldAnnotation(dict, field))
    ensures r.Err? ==> r.error == InvalidSyntax
  {
    var entityAnnotation := dict.entityAnnotation;
    var fieldAnnotation := FieldAnnotation(dict, field);
    if Malformed(entityAnnotation) || Malformed(fieldAnnotation) then Err(InvalidSyntax)
    else Ok(ExtractedChecks(AnyOf(entityAnnotation), AllOf(entityAnnotation),
                            AnyOf(fieldAnnotation), AllOf(fieldAnnotation)))
  }

  /** Without an entity annotation the entity group is null and in mode ALL. */
  lemma AbsentEntityAnnotation(dict: Dictionary, field: Option<string>)
    requires dict.entityAnnotation.None?
    requires !Malformed(FieldAnnotation(dict, field))
    ensures Extract(dict, field).Ok?
    ensures Extract(dict, field).value.EntityChecks() == CheckSubset(None, ALL)
  {
  }

  /**
   * A present annotation yields a non-empty group: its `any` list in mode
   * ANY when that list is non-empty (its `all` list is then ignored),
   * otherwise its `all` list in mode ALL.
   */
  lemma PresentEntityAnnotation(dict: Dictionary, field: Option<string>)
    requires dict.entityAnnotation.Some?
    requires Extract(dict, field).Ok?
    ensures var a := dict.entityAnnotation.value;
            var g := Extract(dict, field).value.EntityChecks();
            && g.checks == Some(if |a.any| > 0 then a.any else a.all)
            && (g.mode == ANY <==> |a.any| > 0)
            && |g.checks.value| > 0
  {
  }

  /** The same two statements for the field group. */
  lemma FieldGroupOfExtract(dict: Dictionary, field: Option<string>)
    requires Extract(dict, field).Ok?
    ensures var fa := FieldAnnotation(dict, field);
            var g := Extract(dict, field).value.FieldChecks();
            && (fa.None? ==> g == CheckSubset(None, ALL))
            && (fa.Some? ==> g.checks == Some(if |fa.value.any| > 0 then fa.value.any else fa.value.all)
                             && (g.mode == ANY <==> |fa.value.any| > 0)
                             && |g.checks.value| > 0)
  {
  }

  /** A null field name never consults the field annotations at all. */
  lemma NullFieldSkipsLookup(dict: Dictionary, other: map<string, Annotation>)
    ensures Extract(dict, None) == Extract(dict.(fieldAnnotations := other), None)
    ensures Extract(dict, None).Ok? ==> Extract(dict, None).value.FieldChecks() == CheckSubset(None, ALL)
  {
  }

  /**
   * The commit and operation subsets keep the group's mode, are drawn from
   * the complete set, and contain exactly its checks carrying the
   * corresponding tag; a check carrying both tags is in both subsets.
   */
  lemma SubsetsSplitByTag(x: ExtractedChecks, c: Check)
    ensures x.EntityCommitChecks().mode == x.EntityChecks().mode
    ensures x.EntityOperationChecks().mode == x.EntityChecks().mode
    ensures x.FieldCommitChecks().mode == x.FieldChecks().mode
    ensures x.FieldOperationChecks().mode == x.FieldChecks().mode
    ensures var all := QueueOf(x.CompleteSetOfEntityChecks());
            && (c in x.EntityCommitChecks().checks.value <==> c in all && c.isCommit)
            && (c in x.EntityOperationChecks().checks.value <==> c in all && c.isOperation)
    ensures var all := QueueOf(x.CompleteSetOfFieldChecks());
            && (c in x.FieldCommitChecks().checks.value <==> c in all && c.isCommit)
            && (c in x.FieldOperationChecks().checks.value <==> c in all && c.isOperation)
  {
  }
}
