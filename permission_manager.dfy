/**
 * security/PermissionManager.java: the check runner that calls
 * `Check.ok` directly. It walks an ANY or ALL check list, defers Create
 * and Update checks by queueing a re-run of the whole list for commit
 * time, and combines entity-level and field-level annotations for
 * field-aware checks.
 */
module Manager {
  import opened Wrappers
  import opened Checks

  /** The two `ok` overloads: the user-level one and the one that also sees the object. */
  datatype CheckLevel = UserLevel | ObjectLevel

  /** One call of an `ok` overload. */
  datatype Call = Call(level: CheckLevel, invocation: Invocation)

  /** The answers of the two overloads, which the model takes as given. */
  datatype Oracles = Oracles(userOk: Invocation -> bool, objectOk: Invocation -> bool)

  /**
   * The `checkFn` lambdas: the user-level call alone (deferred first pass),
   * the user-level call `&&` the object-level call (immediate), and the
   * object-level call alone (the commit-time re-run).
   */
  datatype CheckFn = UserOnly | UserAndObject | ObjectOnly

  /** A verdict and the calls it took. */
  datatype Answer = Answer(ok: bool, calls: seq<Call>)

  function Apply(fn: CheckFn, o: Oracles, inv: Invocation): Answer
  {
    match fn
    case UserOnly => Answer(o.userOk(inv), [Call(UserLevel, inv)])
    case ObjectOnly => Answer(o.objectOk(inv), [Call(ObjectLevel, inv)])
    case UserAndObject =>
      if o.userOk(inv) then Answer(o.objectOk(inv), [Call(UserLevel, inv), Call(ObjectLevel, inv)])
      else Answer(false, [Call(UserLevel, inv)])
  }

  /**
   * The verdict of each `checkFn` and the calls it takes: the user-level
   * and object-level answers are combined with a short-circuit `&&`, so
   * the object is only asked once the user-level answer was yes.
   */
  lemma ApplyAnswers(fn: CheckFn, o: Oracles, inv: Invocation)
    ensures fn == UserOnly ==> Apply(fn, o, inv) == Answer(o.userOk(inv), [Call(UserLevel, inv)])
    ensures fn == ObjectOnly ==> Apply(fn, o, inv) == Answer(o.objectOk(inv), [Call(ObjectLevel, inv)])
    ensures fn == UserAndObject ==> Apply(fn, o, inv).ok == (o.userOk(inv) && o.objectOk(inv))
    ensures fn == UserAndObject ==>
              Apply(fn, o, inv).calls == if o.userOk(inv) then [Call(UserLevel, inv), Call(ObjectLevel, inv)]
                                         else [Call(UserLevel, inv)]
  {
  }

  /** The closure queued for commit time: re-run the whole list against the object. */
  datatype CommitRerun = CommitRerun(checks: seq<Check>, mode: CheckMode, target: Target)

  /** How a run ends, the calls it makes, and the re-runs it queues, in order. */
  datatype Run = Run(status: Status, calls: seq<Call>, deferred: seq<CommitRerun>)

  /** A run preceded by calls and queued re-runs made before it. */
  function After(calls: seq<Call>, deferred: seq<CommitRerun>, r: Run): Run {
    Run(r.status, calls + r.calls, deferred + r.deferred)
  }

  lemma AfterAfter(c1: seq<Call>, d1: seq<CommitRerun>, c2: seq<Call>, d2: seq<CommitRerun>, r: Run)
    ensures After(c1, d1, After(c2, d2, r)) == After(c1 + c2, d1 + d2, r)
  {
    assert c1 + (c2 + r.calls) == (c1 + c2) + r.calls;
    assert d1 + (d2 + r.deferred) == (d1 + d2) + r.deferred;
  }

  /**
   * `executePermissions` from the i-th check on: instantiate the check,
   * apply `checkFn`; a pass in mode ANY without deferral returns at once,
   * a failure in mode ALL raises ForbiddenAccess at once; otherwise a
   * deferred run queues one re-run of the whole list. After the last check,
   * mode ANY without deferral raises ForbiddenAccess.
   */
  function Scan(checks: seq<Check>, i: nat, mode: CheckMode, t: Target, defer: bool, fn: CheckFn, o: Oracles): Run
    requires i <= |checks|
    decreases |checks| - i
  {
    if i == |checks| then
      Run(if mode == ANY && !defer then Raised(ForbiddenAccess) else Completed, [], [])
    else if !checks[i].instantiable then Run(Raised(InvalidSyntax), [], [])
    else
      var a := Apply(fn, o, Invocation(checks[i].id, t));
      if a.ok && mode == ANY && !defer then Run(Completed, a.calls, [])
      else if !a.ok && mode == ALL then Run(Raised(ForbiddenAccess), a.calls, [])
      else After(a.calls, if defer then [CommitRerun(checks, mode, t)] else [], Scan(checks, i + 1, mode, t, defer, fn, o))
  }

  /** One more check of the scan, seen from the calls and re-runs made so far: each way it can end or go on. */
  lemma ScanAdvance(checks: seq<Check>, i: nat, mode: CheckMode, t: Target, defer: bool, fn: CheckFn, o: Oracles,
                    calls: seq<Call>, queued: seq<CommitRerun>)
    requires i < |checks|
    ensures var s := After(calls, queued, Scan(checks, i, mode, t, defer, fn, o));
            var a := Apply(fn, o, Invocation(checks[i].id, t));
            && (!checks[i].instantiable ==> s == Run(Raised(InvalidSyntax), calls, queued))
            && (checks[i].instantiable && a.ok && mode == ANY && !defer ==> s == Run(Completed, calls + a.calls, queued))
            && (checks[i].instantiable && !a.ok && mode == ALL ==> s == Run(Raised(ForbiddenAccess), calls + a.calls, queued))
            && (checks[i].instantiable && !(a.ok && mode == ANY && !defer) && !(!a.ok && mode == ALL) ==>
                  s == After(calls + a.calls, queued + (if defer then [CommitRerun(checks, mode, t)] else []),
                             Scan(checks, i + 1, mode, t, defer, fn, o)))
  {
    assert calls + [] == calls && queued + [] == queued;
    var a := Apply(fn, o, Invocation(checks[i].id, t));
    AfterAfter(calls, queued, a.calls, if defer then [CommitRerun(checks, mode, t)] else [],
               Scan(checks, i + 1, mode, t, defer, fn, o));
  }

  /** `runPermissionChecks`: nothing under BYPASS_SECURITY; Create and Update defer their object-level half. */
  function RunChecks(checks: seq<Check>, isAny: bool, kind: PermissionKind, t: Target, bypass: bool, o: Oracles): Run {
    if bypass then Run(Completed, [], [])
    else
      var defer := kind.IsDeferrable();
      Scan(checks, 0, if isAny then ANY else ALL, t, defer, if defer then UserOnly else UserAndObject, o)
  }

  /** The commit-time re-run of one queued closure. */
  function Rerun(r: CommitRerun, o: Oracles): Run {
    Scan(r.checks, 0, r.mode, r.target, false, ObjectOnly, o)
  }

  /** `executeCommitChecks`: every queued re-run in order, until one raises. */
  function Replay(reruns: seq<CommitRerun>, o: Oracles): Run
    decreases |reruns|
  {
    if reruns == [] then Run(Completed, [], [])
    else
      var r := Rerun(reruns[0], o);
      if r.status.Raised? then r else After(r.calls, r.deferred, Replay(reruns[1..], o))
  }

  lemma ReplayStep(reruns: seq<CommitRerun>, o: Oracles)
    requires reruns != []
    ensures Rerun(reruns[0], o).status.Raised? ==>
              Replay(reruns, o).status == Rerun(reruns[0], o).status && Replay(reruns, o).calls == Rerun(reruns[0], o).calls
    ensures !Rerun(reruns[0], o).status.Raised? ==>
              Replay(reruns, o).status == Replay(reruns[1..], o).status
              && Replay(reruns, o).calls == Rerun(reruns[0], o).calls + Replay(reruns[1..], o).calls
  {
  }

  /** PermissionManager.ExtractedChecks (a class of its own, unrelated to security/checks/ExtractedChecks): the two arrays of an annotation. */
  datatype AnnotationChecks = AnnotationChecks(anyChecks: seq<Check>, allChecks: seq<Check>)
  {
    /** Mode ANY iff the `any` array is non-empty; the list run is then `any`, else `all`. */
    predicate IsAny() {
      |anyChecks| > 0
    }

    function Selected(): seq<Check> {
      if IsAny() then anyChecks else allChecks
    }
  }

  /** `extractChecks`: an annotation with no check at all is an unknown permission. */
  function ExtractChecks(ann: Annotation): (r: Result<AnnotationChecks, Error>)
    ensures r.Err? <==> |ann.any| == 0 && |ann.all| == 0
    ensures r.Err? ==> r.error == InvalidSyntax
    ensures r.Ok? ==> r.value.anyChecks == ann.any && r.value.allChecks == ann.all
  {
    if |ann.any| == 0 && |ann.all| == 0 then Err(InvalidSyntax)
    else Ok(AnnotationChecks(ann.any, ann.all))
  }

  /** Extract an annotation's checks and run the selected list in its mode. */
  function RunAnnotation(ann: Annotation, kind: PermissionKind, t: Target, bypass: bool, o: Oracles): Run {
    var x := ExtractChecks(ann);
    if x.Err? then Run(Raised(x.error), [], [])
    else RunChecks(x.value.Selected(), x.value.IsAny(), kind, t, bypass, o)
  }

  /** One field of the field loop: whether it ends the check, its run, and the new `hasPassingCheck`. */
  datatype FieldStep = FieldStep(stop: bool, run: Run, hasPassing: bool)

  /**
   * One field of the any-field `checkFieldAwarePermissions`: an unannotated
   * field is skipped; an unknown permission raises; a run that raises
   * ForbiddenAccess is ignored (its queued re-runs stay); an ANY run that
   * completes ends the check; an ALL one that completes records a passing
   * check.
   */
  function CheckField(dict: Dictionary, field: string, kind: PermissionKind, t: Target,
                      bypass: bool, o: Oracles, hasPassing: bool): FieldStep
  {
    var ann := FieldAnnotation(dict, Some(field));
    if ann.None? then FieldStep(false, Run(Completed, [], []), hasPassing)
    else
      var x := ExtractChecks(ann.value);
      if x.Err? then FieldStep(true, Run(Raised(x.error), [], []), hasPassing)
      else
        var r := RunChecks(x.value.Selected(), x.value.IsAny(), kind, t, bypass, o);
        if r.status == Raised(ForbiddenAccess) then FieldStep(false, r, hasPassing)
        else if r.status.Raised? || x.value.IsAny() then FieldStep(true, r, hasPassing)
        else FieldStep(false, r, true)
  }

  /**
   * A field stops the loop only with an outcome other than
   * ForbiddenAccess; a field that does not stop it either completed or
   * raised ForbiddenAccess, and only a completed annotated field records a
   * passing check.
   */
  lemma CheckFieldOutcomes(dict: Dictionary, field: string, kind: PermissionKind, t: Target,
                           bypass: bool, o: Oracles, hasPassing: bool)
    ensures var st := CheckField(dict, field, kind, t, bypass, o, hasPassing);
            && (st.stop ==> st.run.status != Raised(ForbiddenAccess))
            && (!st.stop ==> !st.run.status.Raised? || st.run.status == Raised(ForbiddenAccess))
            && (!st.stop && st.run.status == Raised(ForbiddenAccess) ==> st.hasPassing == hasPassing)
            && (!st.stop && !st.run.status.Raised? && FieldAnnotation(dict, Some(field)).Some? ==> st.hasPassing)
            && (FieldAnnotation(dict, Some(field)).None? ==> st == FieldStep(false, Run(Completed, [], []), hasPassing))
  {
  }

  /**
   * The field loop from the i-th field on; at the end, ForbiddenAccess
   * unless some check passed.
   */
  function FieldLoop(dict: Dictionary, fields: seq<string>, i: nat, kind: PermissionKind, t: Target,
                     bypass: bool, o: Oracles, hasPassing: bool): Run
    requires i <= |fields|
    decreases |fields| - i
  {
    if i == |fields| then Run(if hasPassing then Completed else Raised(ForbiddenAccess), [], [])
    else
      var st := CheckField(dict, fields[i], kind, t, bypass, o, hasPassing);
      if st.stop then st.run
      else After(st.run.calls, st.run.deferred, FieldLoop(dict, fields, i + 1, kind, t, bypass, o, st.hasPassing))
  }

  /** One more field of the loop, seen from the calls and re-runs made so far. */
  lemma FieldLoopAdvance(dict: Dictionary, fields: seq<string>, i: nat, kind: PermissionKind, t: Target,
                         bypass: bool, o: Oracles, hasPassing: bool, loop: Run, calls: seq<Call>, queued: seq<CommitRerun>)
    requires i < |fields|
    requires loop == After(calls, queued, FieldLoop(dict, fields, i, kind, t, bypass, o, hasPassing))
    ensures var st := CheckField(dict, fields[i], kind, t, bypass, o, hasPassing);
            && (st.stop ==> loop == Run(st.run.status, calls + st.run.calls, queued + st.run.deferred))
            && (!st.stop ==> loop == After(calls + st.run.calls, queued + st.run.deferred,
                                           FieldLoop(dict, fields, i + 1, kind, t, bypass, o, st.hasPassing)))
  {
    var st := CheckField(dict, fields[i], kind, t, bypass, o, hasPassing);
    if !st.stop {
      AfterAfter(calls, queued, st.run.calls, st.run.deferred, FieldLoop(dict, fields, i + 1, kind, t, bypass, o, st.hasPassing));
    }
  }

  /**
   * The any-field `checkFieldAwarePermissions`: the entity annotation
   * first (an ANY one that does not raise ends the check; a ForbiddenAccess
   * is remembered), then the field loop over the attributes and the
   * relationships.
   */
  function FieldAware(dict: Dictionary, kind: PermissionKind, t: Target, bypass: bool, o: Oracles): Run {
    if dict.entityAnnotation.None? then FieldLoop(dict, FieldsOf(dict), 0, kind, t, bypass, o, true)
    else
      var x := ExtractChecks(dict.entityAnnotation.value);
      if x.Err? then Run(Raised(x.error), [], [])
      else
        var r := RunChecks(x.value.Selected(), x.value.IsAny(), kind, t, bypass, o);
        if r.status == Raised(ForbiddenAccess) then
          After(r.calls, r.deferred, FieldLoop(dict, FieldsOf(dict), 0, kind, t, bypass, o, false))
        else if r.status.Raised? then r
        else if x.value.IsAny() then r
        else After(r.calls, r.deferred, FieldLoop(dict, FieldsOf(dict), 0, kind, t, bypass, o, true))
  }

  /**
   * The specific-field `checkFieldAwarePermissions`: run the entity
   * annotation, remembering a ForbiddenAccess; then an annotated field
   * decides by its own run, and an unannotated one fails iff the entity
   * run failed.
   */
  function FieldAwareOf(dict: Dictionary, field: string, kind: PermissionKind, t: Target, bypass: bool, o: Oracles): Run {
    var entity :=
      if dict.entityAnnotation.None? then Run(Completed, [], [])
      else RunAnnotation(dict.entityAnnotation.value, kind, t, bypass, o);
    if entity.status.Raised? && entity.status != Raised(ForbiddenAccess) then entity
    else
      var ann := FieldAnnotation(dict, Some(field));
      var rest :=
        if ann.Some? then RunAnnotation(ann.value, kind, t, bypass, o)
        else Run(if entity.status == Raised(ForbiddenAccess) then Raised(ForbiddenAccess) else Completed, [], []);
      After(entity.calls, entity.deferred, rest)
  }

  class PermissionManager {
    /** The commit-time re-runs queued so far, in insertion order. */
    var commitChecks: seq<CommitRerun>

    constructor ()
      ensures commitChecks == []
    {
      commitChecks := [];
    }

    /** `executePermissions`, with its loop over the checks. */
    method ExecutePermissions(checks: seq<Check>, mode: CheckMode, t: Target, defer: bool, fn: CheckFn, o: Oracles)
      returns (status: Status, calls: seq<Call>)
      modifies this
      ensures var r := Scan(checks, 0, mode, t, defer, fn, o);
              status == r.status && calls == r.calls && commitChecks == old(commitChecks) + r.deferred
    {
      calls := [];
      ghost var queued: seq<CommitRerun> := [];
      ghost var scan := Scan(checks, 0, mode, t, defer, fn, o);
      assert [] + scan.calls == scan.calls && [] + scan.deferred == scan.deferred;
      var i := 0;
      while i < |checks|
        invariant 0 <= i <= |checks|
        invariant scan == After(calls, queued, Scan(checks, i, mode, t, defer, fn, o))
        invariant commitChecks == old(commitChecks) + queued
      {
        ScanAdvance(checks, i, mode, t, defer, fn, o, calls, queued);
        if !checks[i].instantiable {
          return Raised(InvalidSyntax), calls;
        }
        var a := Apply(fn, o, Invocation(checks[i].id, t));
        if a.ok && mode == ANY && !defer {
          return Completed, calls + a.calls;
        }
        if !a.ok && mode == ALL {
          return Raised(ForbiddenAccess), calls + a.calls;
        }
        var d := if defer then [CommitRerun(checks, mode, t)] else [];
        calls := calls + a.calls;
        commitChecks := commitChecks + d;
        queued := queued + d;
        i := i + 1;
      }
      assert calls + [] == calls && queued + [] == queued;
      status := if mode == ANY && !defer then Raised(ForbiddenAccess) else Completed;
    }

    /** `checkPermissions`: a plain (not field-aware) run of one check list. */
    method CheckPermissions(checks: seq<Check>, isAny: bool, kind: PermissionKind, t: Target, bypass: bool, o: Oracles)
      returns (status: Status, calls: seq<Call>)
      modifies this
      ensures var r := RunChecks(checks, isAny, kind, t, bypass, o);
              status == r.status && calls == r.calls && commitChecks == old(commitChecks) + r.deferred
    {
      status, calls := RunPermissionChecks(checks, isAny, kind, t, bypass, o);
    }

    /** `runPermissionChecks`. */
    method RunPermissionChecks(checks: seq<Check>, isAny: bool, kind: PermissionKind, t: Target, bypass: bool, o: Oracles)
      returns (status: Status, calls: seq<Call>)
      modifies this
      ensures var r := RunChecks(checks, isAny, kind, t, bypass, o);
              status == r.status && calls == r.calls && commitChecks == old(commitChecks) + r.deferred
    {
      if bypass {
        return Completed, [];
      }
      var defer := kind.IsDeferrable();
      status, calls := ExecutePermissions(checks, if isAny then ANY else ALL, t, defer,
                                          if defer then UserOnly else UserAndObject, o);
    }

    /** Extract an annotation and run it, as each field-aware check does. */
    method RunAnnotationChecks(ann: Annotation, kind: PermissionKind, t: Target, bypass: bool, o: Oracles)
      returns (status: Status, calls: seq<Call>)
      modifies this
      ensures var r := RunAnnotation(ann, kind, t, bypass, o);
              status == r.status && calls == r.calls && commitChecks == old(commitChecks) + r.deferred
    {
      var x := ExtractChecks(ann);
      if x.Err? {
        return Raised(x.error), [];
      }
      status, calls := RunPermissionChecks(x.value.Selected(), x.value.IsAny(), kind, t, bypass, o);
    }

    /** `executeCommitChecks`: the re-runs never queue anything, so the queue is left as it is. */
    method ExecuteCommitChecks(o: Oracles) returns (status: Status, calls: seq<Call>)
      ensures status == Replay(commitChecks, o).status && calls == Replay(commitChecks, o).calls
    {
      var reruns := commitChecks;
      calls := [];
      var i := 0;
      while i < |reruns|
        invariant 0 <= i <= |reruns|
        invariant Replay(reruns, o).status == Replay(reruns[i..], o).status
        invariant Replay(reruns, o).calls == calls + Replay(reruns[i..], o).calls
      {
        assert reruns[i..][1..] == reruns[i + 1..];
        ReplayStep(reruns[i..], o);
        var r := Rerun(reruns[i], o);
        if r.status.Raised? {
          return r.status, calls + r.calls;
        }
        assert calls + (r.calls + Replay(reruns[i + 1..], o).calls) == (calls + r.calls) + Replay(reruns[i + 1..], o).calls;
        calls := calls + r.calls;
        i := i + 1;
      }
      assert reruns[i..] == [];
      status := Completed;
    }

    /** The any-field `checkFieldAwarePermissions`. */
    method CheckFieldAwarePermissions(dict: Dictionary, kind: PermissionKind, t: Target, bypass: bool, o: Oracles)
      returns (status: Status, calls: seq<Call>)
      modifies this
      ensures var r := FieldAware(dict, kind, t, bypass, o);
              status == r.status && calls == r.calls && commitChecks == old(commitChecks) + r.deferred
    {
      var hasPassing := true;
      if dict.entityAnnotation.Some? {
        var x := ExtractChecks(dict.entityAnnotation.value);
        if x.Err? {
          return Raised(x.error), [];
        }
        var s, c := RunPermissionChecks(x.value.Selected(), x.value.IsAny(), kind, t, bypass, o);
        if s != Raised(ForbiddenAccess) && (s.Raised? || x.value.IsAny()) {
          return s, c;
        }
        hasPassing := s != Raised(ForbiddenAccess);
        var s', c' := CheckFields(dict, kind, t, bypass, o, hasPassing);
        status, calls := s', c + c';
      } else {
        status, calls := CheckFields(dict, kind, t, bypass, o, true);
        ghost var loop := FieldLoop(dict, FieldsOf(dict), 0, kind, t, bypass, o, true);
        assert [] + loop.calls == loop.calls && [] + loop.deferred == loop.deferred;
      }
    }

    /** The field loop of the any-field `checkFieldAwarePermissions`, over the attributes and the relationships. */
    method CheckFields(dict: Dictionary, kind: PermissionKind, t: Target, bypass: bool, o: Oracles, passing: bool)
      returns (status: Status, calls: seq<Call>)
      modifies this
      ensures var r := FieldLoop(dict, FieldsOf(dict), 0, kind, t, bypass, o, passing);
              status == r.status && calls == r.calls && commitChecks == old(commitChecks) + r.deferred
    {
      var hasPassing := passing;
      var fields := FieldsOf(dict);
      calls := [];
      ghost var queued: seq<CommitRerun> := [];
      ghost var loop := FieldLoop(dict, fields, 0, kind, t, bypass, o, passing);
      assert [] + loop.calls == loop.calls && [] + loop.deferred == loop.deferred;
      var i := 0;
      var stopped := false;
      status := Completed;
      while i < |fields| && !stopped
        invariant 0 <= i <= |fields|
        invariant !stopped ==> loop == After(calls, queued, FieldLoop(dict, fields, i, kind, t, bypass, o, hasPassing))
        invariant stopped ==> loop == Run(status, calls, queued)
        invariant commitChecks == old(commitChecks) + queued
      {
        status, calls, queued, hasPassing, stopped :=
          CheckFieldAt(dict, fields, i, kind, t, bypass, o, hasPassing, loop, calls, queued, old(commitChecks));
        i := i + 1;
      }
      if !stopped {
        assert calls + [] == calls && queued + [] == queued;
        status := if hasPassing then Completed else Raised(ForbiddenAccess);
      }
    }

    /** One turn of that loop, seen from the calls and re-runs made so far. */
    method CheckFieldAt(dict: Dictionary, fields: seq<string>, i: nat, kind: PermissionKind, t: Target, bypass: bool,
                        o: Oracles, hasPassing: bool, ghost loop: Run, calls: seq<Call>, ghost queued: seq<CommitRerun>,
                        ghost base: seq<CommitRerun>)
      returns (status: Status, calls': seq<Call>, ghost queued': seq<CommitRerun>, hasPassing': bool, stop: bool)
      requires i < |fields|
      requires loop == After(calls, queued, FieldLoop(dict, fields, i, kind, t, bypass, o, hasPassing))
      requires commitChecks == base + queued
      modifies this
      ensures stop ==> loop == Run(status, calls', queued')
      ensures !stop ==> loop == After(calls', queued', FieldLoop(dict, fields, i + 1, kind, t, bypass, o, hasPassing'))
      ensures commitChecks == base + queued'
    {
      FieldLoopAdvance(dict, fields, i, kind, t, bypass, o, hasPassing, loop, calls, queued);
      var st := CheckOneField(dict, fields[i], kind, t, bypass, o, hasPassing);
      status, calls', queued', hasPassing', stop := st.run.status, calls + st.run.calls, queued + st.run.deferred, st.hasPassing, st.stop;
    }

    /** The body of that loop, for one field. */
    method CheckOneField(dict: Dictionary, field: string, kind: PermissionKind, t: Target, bypass: bool, o: Oracles,
                         hasPassing: bool)
      returns (st: FieldStep)
      modifies this
      ensures st == CheckField(dict, field, kind, t, bypass, o, hasPassing)
      ensures commitChecks == old(commitChecks) + st.run.deferred
    {
      var ann := FieldAnnotation(dict, Some(field));
      if ann.None? {
        return FieldStep(false, Run(Completed, [], []), hasPassing);
      }
      var x := ExtractChecks(ann.value);
      if x.Err? {
        return FieldStep(true, Run(Raised(x.error), [], []), hasPassing);
      }
      var before := commitChecks;
      var status, calls := RunPermissionChecks(x.value.Selected(), x.value.IsAny(), kind, t, bypass, o);
      var run := Run(status, calls, commitChecks[|before|..]);
      assert commitChecks[|before|..] == RunChecks(x.value.Selected(), x.value.IsAny(), kind, t, bypass, o).deferred;
      if status == Raised(ForbiddenAccess) {
        st := FieldStep(false, run, hasPassing);
      } else if status.Raised? || x.value.IsAny() {
        st := FieldStep(true, run, hasPassing);
      } else {
        st := FieldStep(false, run, true);
      }
    }

    /** The specific-field `checkFieldAwarePermissions`. */
    method CheckFieldAwarePermissionsOf(dict: Dictionary, field: string, kind: PermissionKind, t: Target,
                                        bypass: bool, o: Oracles)
      returns (status: Status, calls: seq<Call>)
      modifies this
      ensures var r := FieldAwareOf(dict, field, kind, t, bypass, o);
              status == r.status && calls == r.calls && commitChecks == old(commitChecks) + r.deferred
    {
      var entityFailed := false;
      calls := [];
      if dict.entityAnnotation.Some? {
        var s, c := RunAnnotationChecks(dict.entityAnnotation.value, kind, t, bypass, o);
        calls := c;
        if s == Raised(ForbiddenAccess) {
          entityFailed := true;
        } else if s.Raised? {
          return s, calls;
        }
      }
      var ann := FieldAnnotation(dict, Some(field));
      if ann.Some? {
        var s, c := RunAnnotationChecks(ann.value, kind, t, bypass, o);
        status, calls := s, calls + c;
      } else if entityFailed {
        status := Raised(ForbiddenAccess);
      } else {
        status := Completed;
      }
    }
  }

  // ---------------------------------------------------------------------
  // Properties
  // ---------------------------------------------------------------------

  /** The verdict `checkFn` gives one check. */
  predicate Passed(fn: CheckFn, o: Oracles, c: Check, t: Target) {
    Apply(fn, o, Invocation(c.id, t)).ok
  }

  /** The calls of applying `checkFn` to each check in order. */
  function CallsOf(fn: CheckFn, o: Oracles, checks: seq<Check>, t: Target): seq<Call>
    decreases |checks|
  {
    if checks == [] then [] else Apply(fn, o, Invocation(checks[0].id, t)).calls + CallsOf(fn, o, checks[1..], t)
  }

  predicate AllAt(calls: seq<Call>, level: CheckLevel) {
    forall i :: 0 <= i < |calls| ==> calls[i].level == level
  }

  lemma AllAtAppend(a: seq<Call>, b: seq<Call>, level: CheckLevel)
    requires AllAt(a, level) && AllAt(b, level)
    ensures AllAt(a + b, level)
  {
  }

  /**
   * Mode ALL (over instantiable checks): the run completes iff every check
   * passes, and otherwise raises ForbiddenAccess at the first failing
   * check, having applied `checkFn` to exactly the checks up to it.
   */
  lemma {:induction false} AllModeFailsFast(checks: seq<Check>, i: nat, t: Target, defer: bool, fn: CheckFn, o: Oracles)
    requires i <= |checks|
    requires forall j :: i <= j < |checks| ==> checks[j].instantiable
    ensures var r := Scan(checks, i, ALL, t, defer, fn, o);
            && (r.status == Completed <==> forall j :: i <= j < |checks| ==> Passed(fn, o, checks[j], t))
            && (r.status != Completed ==> r.status == Raised(ForbiddenAccess))
            && (r.status == Completed ==> r.calls == CallsOf(fn, o, checks[i..], t))
    decreases |checks| - i
  {
    if i < |checks| {
      AllModeFailsFast(checks, i + 1, t, defer, fn, o);
      assert checks[i..][1..] == checks[i + 1..];
    }
  }

  /** In mode ALL the calls stop at the first failing check. */
  lemma {:induction false} AllModeStopsAtFirstFailure(checks: seq<Check>, i: nat, k: nat, t: Target, defer: bool,
                                                      fn: CheckFn, o: Oracles)
    requires i <= k < |checks|
    requires forall j :: i <= j <= k ==> checks[j].instantiable
    requires forall j :: i <= j < k ==> Passed(fn, o, checks[j], t)
    requires !Passed(fn, o, checks[k], t)
    ensures var r := Scan(checks, i, ALL, t, defer, fn, o);
            r.status == Raised(ForbiddenAccess) && r.calls == CallsOf(fn, o, checks[i..k + 1], t)
    decreases k - i
  {
    if i < k {
      AllModeStopsAtFirstFailure(checks, i + 1, k, t, defer, fn, o);
      assert checks[i..k + 1][1..] == checks[i + 1..k + 1];
    } else {
      assert checks[i..k + 1][1..] == [];
    }
  }

  /**
   * Mode ANY without deferral (over instantiable checks): the run completes
   * iff some check passes, and otherwise raises ForbiddenAccess.
   */
  lemma {:induction false} AnyModeNeedsOnePass(checks: seq<Check>, i: nat, t: Target, fn: CheckFn, o: Oracles)
    requires i <= |checks|
    requires forall j :: i <= j < |checks| ==> checks[j].instantiable
    ensures var r := Scan(checks, i, ANY, t, false, fn, o);
            && (r.status == Completed <==> exists j :: i <= j < |checks| && Passed(fn, o, checks[j], t))
            && (r.status != Completed ==> r.status == Raised(ForbiddenAccess))
            && r.deferred == []
    decreases |checks| - i
  {
    if i < |checks| {
      AnyModeNeedsOnePass(checks, i + 1, t, fn, o);
    }
  }

  /** In mode ANY without deferral, the first passing check ends the run: no later check is called. */
  lemma {:induction false} AnyModeStopsAtFirstPass(checks: seq<Check>, i: nat, k: nat, t: Target, fn: CheckFn, o: Oracles)
    requires i <= k < |checks|
    requires forall j :: i <= j <= k ==> checks[j].instantiable
    requires forall j :: i <= j < k ==> !Passed(fn, o, checks[j], t)
    requires Passed(fn, o, checks[k], t)
    ensures var r := Scan(checks, i, ANY, t, false, fn, o);
            r.status == Completed && r.calls == CallsOf(fn, o, checks[i..k + 1], t)
    decreases k - i
  {
    if i < k {
      AnyModeStopsAtFirstPass(checks, i + 1, k, t, fn, o);
      assert checks[i..k + 1][1..] == checks[i + 1..k + 1];
    } else {
      assert checks[i..k + 1][1..] == [];
    }
  }

  /** A check that cannot be instantiated raises InvalidSyntax when reached. */
  lemma NonInstantiableRaises(checks: seq<Check>, i: nat, mode: CheckMode, t: Target, defer: bool, fn: CheckFn, o: Oracles)
    requires i < |checks| && !checks[i].instantiable
    ensures Scan(checks, i, mode, t, defer, fn, o) == Run(Raised(InvalidSyntax), [], [])
  {
  }

  /**
   * A deferred run never raises ForbiddenAccess in mode ANY, calls only the
   * user-level overload, and queues one re-run of the whole list per check
   * it calls that does not raise, whether that check passed or not; the
   * check that raises ForbiddenAccess is the only call without a re-run, so
   * a failed ALL run keeps the re-runs queued before it. Having completed,
   * it queued one per check.
   */
  lemma {:induction false} DeferredRunQueuesReruns(checks: seq<Check>, i: nat, mode: CheckMode, t: Target, o: Oracles)
    requires i <= |checks|
    ensures var r := Scan(checks, i, mode, t, true, UserOnly, o);
            && AllAt(r.calls, UserLevel)
            && (forall j :: 0 <= j < |r.deferred| ==> r.deferred[j] == CommitRerun(checks, mode, t))
            && (mode == ANY ==> r.status != Raised(ForbiddenAccess))
            && (r.status == Completed ==> |r.deferred| == |checks| - i)
            && |r.deferred| <= |checks| - i
            && |r.calls| == |r.deferred| + (if r.status == Raised(ForbiddenAccess) then 1 else 0)
    decreases |checks| - i
  {
    if i < |checks| && checks[i].instantiable {
      DeferredRunQueuesReruns(checks, i + 1, mode, t, o);
      var a := Apply(UserOnly, o, Invocation(checks[i].id, t));
      AllAtAppend(a.calls, Scan(checks, i + 1, mode, t, true, UserOnly, o).calls, UserLevel);
    }
  }

  /**
   * A run without deferral queues nothing; with UserAndObject the
   * object-level overload is only asked about a check whose user-level
   * answer was yes.
   */
  lemma {:induction false} ImmediateRunQueuesNothing(checks: seq<Check>, i: nat, mode: CheckMode, t: Target,
                                                     fn: CheckFn, o: Oracles)
    requires i <= |checks|
    ensures var r := Scan(checks, i, mode, t, false, fn, o);
            && r.deferred == []
            && (fn == UserAndObject ==>
                  forall j :: 0 <= j < |r.calls| && r.calls[j].level == ObjectLevel ==> o.userOk(r.calls[j].invocation))
            && (fn == ObjectOnly ==> AllAt(r.calls, ObjectLevel))
    decreases |checks| - i
  {
    if i < |checks| && checks[i].instantiable {
      ImmediateRunQueuesNothing(checks, i + 1, mode, t, fn, o);
      var a := Apply(fn, o, Invocation(checks[i].id, t));
      var rest := Scan(checks, i + 1, mode, t, false, fn, o);
      if fn == ObjectOnly {
        AllAtAppend(a.calls, rest.calls, ObjectLevel);
      }
    }
  }

  /** A commit-time re-run queues nothing and calls only the object-level overload. */
  lemma ReRunQueuesNothing(r: CommitRerun, o: Oracles)
    ensures Rerun(r, o).deferred == []
    ensures AllAt(Rerun(r, o).calls, ObjectLevel)
  {
    ImmediateRunQueuesNothing(r.checks, 0, r.mode, r.target, ObjectOnly, o);
  }

  /**
   * Replaying the queue completes iff every re-run completes; otherwise
   * it ends with the first re-run that raises. Every call it makes is at
   * object level.
   */
  lemma {:induction false} ReplayCompletes(reruns: seq<CommitRerun>, o: Oracles)
    ensures Replay(reruns, o).status == Completed <==> forall i :: 0 <= i < |reruns| ==> Rerun(reruns[i], o).status == Completed
    ensures AllAt(Replay(reruns, o).calls, ObjectLevel)
    decreases |reruns|
  {
    if reruns != [] {
      ReplayCompletes(reruns[1..], o);
      ReRunQueuesNothing(reruns[0], o);
      assert forall i :: 1 <= i < |reruns| ==> reruns[i] == reruns[1..][i - 1];
      var r := Rerun(reruns[0], o);
      if !r.status.Raised? {
        AllAtAppend(r.calls, Replay(reruns[1..], o).calls, ObjectLevel);
      }
      if Rerun(reruns[0], o).status.Raised? {
        assert Rerun(reruns[0], o).status != Completed;
      }
    }
  }

  /** Under BYPASS_SECURITY nothing is called, queued or raised. */
  lemma BypassDoesNothing(checks: seq<Check>, isAny: bool, kind: PermissionKind, t: Target, o: Oracles)
    ensures RunChecks(checks, isAny, kind, t, true, o) == Run(Completed, [], [])
  {
  }

  /**
   * Create and Update defer: only user-level calls now, one re-run queued
   * per check passed; Read, Delete and Share do not: nothing is queued.
   */
  lemma DeferralFollowsKind(checks: seq<Check>, isAny: bool, kind: PermissionKind, t: Target, o: Oracles)
    ensures kind.IsDeferrable() ==> AllAt(RunChecks(checks, isAny, kind, t, false, o).calls, UserLevel)
    ensures !kind.IsDeferrable() ==> RunChecks(checks, isAny, kind, t, false, o).deferred == []
    ensures kind.IsDeferrable() && RunChecks(checks, isAny, kind, t, false, o).status == Completed ==>
              |RunChecks(checks, isAny, kind, t, false, o).deferred| == |checks|
  {
    var mode := if isAny then ANY else ALL;
    if kind.IsDeferrable() {
      DeferredRunQueuesReruns(checks, 0, mode, t, o);
    } else {
      ImmediateRunQueuesNothing(checks, 0, mode, t, UserAndObject, o);
    }
  }

  /** `extractChecks` chooses mode ANY exactly when the `any` array is non-empty. */
  lemma ExtractChoosesMode(ann: Annotation)
    requires ExtractChecks(ann).Ok?
    ensures ExtractChecks(ann).value.IsAny() <==> |ann.any| > 0
    ensures ExtractChecks(ann).value.Selected() == if |ann.any| > 0 then ann.any else ann.all
  {
  }

  /**
   * The field loop raises ForbiddenAccess only if no check had passed
   * when it started and no field's run completed.
   */
  lemma {:induction false} FieldLoopForbidden(dict: Dictionary, fields: seq<string>, i: nat, kind: PermissionKind,
                                              t: Target, bypass: bool, o: Oracles, hasPassing: bool)
    requires i <= |fields|
    requires FieldLoop(dict, fields, i, kind, t, bypass, o, hasPassing).status == Raised(ForbiddenAccess)
    ensures !hasPassing
    ensures forall j :: i <= j < |fields| && FieldAnnotation(dict, Some(fields[j])).Some? ==>
              RunAnnotation(FieldAnnotation(dict, Some(fields[j])).value, kind, t, bypass, o).status == Raised(ForbiddenAccess)
    decreases |fields| - i
  {
    if i < |fields| {
      var ann := FieldAnnotation(dict, Some(fields[i]));
      if ann.None? {
        FieldLoopForbidden(dict, fields, i + 1, kind, t, bypass, o, hasPassing);
      } else {
        var r := RunAnnotation(ann.value, kind, t, bypass, o);
        if r.status == Raised(ForbiddenAccess) {
          FieldLoopForbidden(dict, fields, i + 1, kind, t, bypass, o, hasPassing);
        } else {
          FieldLoopForbidden(dict, fields, i + 1, kind, t, bypass, o, true);
        }
      }
    }
  }

  /**
   * The any-field check raises ForbiddenAccess only if the entity has an
   * annotation whose run raised ForbiddenAccess and every annotated field's
   * run raised ForbiddenAccess too. In particular, without an entity
   * annotation field failures alone never deny.
   */
  lemma FieldAwareForbidden(dict: Dictionary, kind: PermissionKind, t: Target, bypass: bool, o: Oracles)
    requires FieldAware(dict, kind, t, bypass, o).status == Raised(ForbiddenAccess)
    ensures dict.entityAnnotation.Some?
    ensures RunAnnotation(dict.entityAnnotation.value, kind, t, bypass, o).status == Raised(ForbiddenAccess)
    ensures forall f :: f in FieldsOf(dict) && FieldAnnotation(dict, Some(f)).Some? ==>
              RunAnnotation(FieldAnnotation(dict, Some(f)).value, kind, t, bypass, o).status == Raised(ForbiddenAccess)
  {
    var fields := FieldsOf(dict);
    if dict.entityAnnotation.None? {
      FieldLoopForbidden(dict, fields, 0, kind, t, bypass, o, true);
    } else {
      var r := RunAnnotation(dict.entityAnnotation.value, kind, t, bypass, o);
      if r.status == Raised(ForbiddenAccess) {
        FieldLoopForbidden(dict, fields, 0, kind, t, bypass, o, false);
      } else {
        FieldLoopForbidden(dict, fields, 0, kind, t, bypass, o, true);
      }
    }
    forall f | f in fields && FieldAnnotation(dict, Some(f)).Some?
      ensures RunAnnotation(FieldAnnotation(dict, Some(f)).value, kind, t, bypass, o).status == Raised(ForbiddenAccess)
    {
      var j :| 0 <= j < |fields| && fields[j] == f;
    }
  }

  /**
   * An entity annotation in mode ANY whose run does not raise settles the
   * any-field check on its own: no field is looked at.
   */
  lemma AnyEntitySettles(dict: Dictionary, kind: PermissionKind, t: Target, bypass: bool, o: Oracles)
    requires dict.entityAnnotation.Some?
    requires |dict.entityAnnotation.value.any| > 0
    requires !RunAnnotation(dict.entityAnnotation.value, kind, t, bypass, o).status.Raised?
    ensures FieldAware(dict, kind, t, bypass, o) == RunAnnotation(dict.entityAnnotation.value, kind, t, bypass, o)
  {
  }

  /**
   * For one field: an annotated field is decided by its own run once the
   * entity run did not raise anything but ForbiddenAccess; an unannotated
   * field fails iff the entity run raised ForbiddenAccess.
   */
  lemma FieldAwareOfDecides(dict: Dictionary, field: string, kind: PermissionKind, t: Target, bypass: bool, o: Oracles)
    ensures var entity := if dict.entityAnnotation.None? then Run(Completed, [], [])
                          else RunAnnotation(dict.entityAnnotation.value, kind, t, bypass, o);
            var ann := FieldAnnotation(dict, Some(field));
            var r := FieldAwareOf(dict, field, kind, t, bypass, o);
            && (entity.status.Raised? && entity.status != Raised(ForbiddenAccess) ==> r.status == entity.status)
            && (!entity.status.Raised? || entity.status == Raised(ForbiddenAccess) ==>
                  && (ann.Some? ==> r.status == RunAnnotation(ann.value, kind, t, bypass, o).status)
                  && (ann.None? ==> (r.status == Raised(ForbiddenAccess) <==> entity.status == Raised(ForbiddenAccess)))
                  && (ann.None? ==> r.status.Raised? ==> r.status == Raised(ForbiddenAccess)))
  {
  }
}
