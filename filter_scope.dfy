/**
 * core/FilterScope.java: the scope of one filtered query. It holds the
 * user checks of a read permission and folds their ALLOW / DENY / FILTER
 * answers into one composite permission, computed once and remembered.
 */
module Filters {
  import opened Wrappers
  import opened Checks

  /** UserCheck.UserPermission. */
  datatype UserPermission = ALLOW | DENY | FILTER

  /** A user-check class, which may fail to instantiate. */
  datatype UserCheckClass = UserCheckClass(id: nat, instantiable: bool)

  /** An instance of a user-check class. */
  datatype UserCheck = UserCheck(id: nat)

  /** The user's answer to each check, which the model takes as given. */
  type User = UserCheck -> UserPermission

  /** One instance per class, in order. */
  function Instances(classes: seq<UserCheckClass>): seq<UserCheck> {
    seq(|classes|, i requires 0 <= i < |classes| => UserCheck(classes[i].id))
  }

  /** An answer that ends the loop: ALLOW in ANY mode, DENY in ALL mode. */
  predicate Shortcut(isAny: bool, p: UserPermission) {
    (isAny && p == ALLOW) || (!isAny && p == DENY)
  }

  /** The composite permission and how many checks were asked for it. */
  datatype Composite = Composite(permission: UserPermission, consulted: nat)

  /**
   * The loop of `getUserPermission` from the i-th check on; `sawFilter`
   * says whether the composite has already been set to FILTER.
   */
  function Compose(checks: seq<UserCheck>, i: nat, isAny: bool, user: User, sawFilter: bool): (r: Composite)
    requires i <= |checks|
    ensures i <= r.consulted <= |checks|
    decreases |checks| - i
  {
    if i == |checks| then Composite(if sawFilter then FILTER else if isAny then DENY else ALLOW, i)
    else
      var p := user(checks[i]);
      if p == ALLOW && isAny then Composite(ALLOW, i + 1)
      else if p == DENY && !isAny then Composite(DENY, i + 1)
      else Compose(checks, i + 1, isAny, user, sawFilter || p == FILTER)
  }

  /** The composite permission of a check list, asked from the first check. */
  function Permission(checks: seq<UserCheck>, isAny: bool, user: User): Composite {
    Compose(checks, 0, isAny, user, false)
  }

  /** The first shortcut answer decides, and no check after it is asked. */
  lemma {:induction false} ComposeStopsAt(checks: seq<UserCheck>, i: nat, isAny: bool, user: User, sawFilter: bool, k: nat)
    requires i <= k < |checks|
    requires Shortcut(isAny, user(checks[k]))
    requires forall j :: i <= j < k ==> !Shortcut(isAny, user(checks[j]))
    ensures Compose(checks, i, isAny, user, sawFilter) == Composite(user(checks[k]), k + 1)
    decreases k - i
  {
    if i < k {
      ComposeStopsAt(checks, i + 1, isAny, user, sawFilter || user(checks[i]) == FILTER, k);
    }
  }

  /** Without a shortcut answer every check is asked, and FILTER wins over the default. */
  lemma {:induction false} ComposeRunsThrough(checks: seq<UserCheck>, i: nat, isAny: bool, user: User, sawFilter: bool)
    requires i <= |checks|
    requires forall j :: i <= j < |checks| ==> !Shortcut(isAny, user(checks[j]))
    ensures var filtered := sawFilter || exists j :: i <= j < |checks| && user(checks[j]) == FILTER;
            Compose(checks, i, isAny, user, sawFilter)
            == Composite(if filtered then FILTER else if isAny then DENY else ALLOW, |checks|)
    decreases |checks| - i
  {
    if i < |checks| {
      var f := sawFilter || user(checks[i]) == FILTER;
      ComposeRunsThrough(checks, i + 1, isAny, user, f);
      var later := exists j :: i + 1 <= j < |checks| && user(checks[j]) == FILTER;
      var here := exists j :: i <= j < |checks| && user(checks[j]) == FILTER;
      if here && !sawFilter && user(checks[i]) != FILTER {
        var j :| i <= j < |checks| && user(checks[j]) == FILTER;
        assert i + 1 <= j;
      }
      assert (sawFilter || here) == (f || later);
    }
  }

  /** In ANY mode the first ALLOW decides ALLOW, and the checks after it are not asked. */
  lemma AnyModeFirstAllow(checks: seq<UserCheck>, user: User, k: nat)
    requires k < |checks| && user(checks[k]) == ALLOW
    requires forall j :: 0 <= j < k ==> user(checks[j]) != ALLOW
    ensures Permission(checks, true, user) == Composite(ALLOW, k + 1)
  {
    ComposeStopsAt(checks, 0, true, user, false, k);
  }

  /** In ALL mode the first DENY decides DENY, whatever FILTER answers came before it. */
  lemma AllModeFirstDeny(checks: seq<UserCheck>, user: User, k: nat)
    requires k < |checks| && user(checks[k]) == DENY
    requires forall j :: 0 <= j < k ==> user(checks[j]) != DENY
    ensures Permission(checks, false, user) == Composite(DENY, k + 1)
  {
    ComposeStopsAt(checks, 0, false, user, false, k);
  }

  /** Without a shortcut: FILTER if some check answered FILTER, else DENY in ANY mode and ALLOW in ALL mode. */
  lemma NoShortcutResult(checks: seq<UserCheck>, isAny: bool, user: User)
    requires forall j :: 0 <= j < |checks| ==> !Shortcut(isAny, user(checks[j]))
    ensures Permission(checks, isAny, user).consulted == |checks|
    ensures (exists j :: 0 <= j < |checks| && user(checks[j]) == FILTER) ==> Permission(checks, isAny, user).permission == FILTER
    ensures (forall j :: 0 <= j < |checks| ==> user(checks[j]) != FILTER) ==>
              Permission(checks, isAny, user).permission == if isAny then DENY else ALLOW
  {
    ComposeRunsThrough(checks, 0, isAny, user, false);
  }

  /** Whatever the answers, the composite is a shortcut answer or comes after asking every check. */
  lemma {:induction false} ComposeConsults(checks: seq<UserCheck>, i: nat, isAny: bool, user: User, sawFilter: bool)
    requires i <= |checks|
    ensures var c := Compose(checks, i, isAny, user, sawFilter);
            && (c.consulted < |checks| || Shortcut(isAny, c.permission) ==>
                  c.consulted > i && c.permission == user(checks[c.consulted - 1]) && Shortcut(isAny, c.permission))
            && forall j :: i <= j < c.consulted - 1 ==> !Shortcut(isAny, user(checks[j]))
    decreases |checks| - i
  {
    if i < |checks| && !Shortcut(isAny, user(checks[i])) {
      ComposeConsults(checks, i + 1, isAny, user, sawFilter || user(checks[i]) == FILTER);
    }
  }

  /**
   * FilterScope. The request scope is not modelled: the user it supplies
   * is a parameter of `GetUserPermission`.
   */
  class FilterScope {
    const isAny: bool
    const userChecks: seq<UserCheck>
    /** The remembered composite, null until first computed. */
    var filterUserPermission: Option<UserPermission>

    /** The one-argument constructor: mode ALL and no checks. */
    constructor()
      ensures !isAny && userChecks == [] && filterUserPermission == None
    {
      isAny := false;
      userChecks := [];
      filterUserPermission := None;
    }

    constructor Of(isAny: bool, userChecks: seq<UserCheck>)
      ensures this.isAny == isAny && this.userChecks == userChecks && filterUserPermission == None
    {
      this.isAny := isAny;
      this.userChecks := userChecks;
      filterUserPermission := None;
    }

    /**
     * The three-argument constructor: instantiate each class in order, and
     * raise IllegalStateException at the first that cannot be.
     */
    static method Create(isAny: bool, classes: seq<UserCheckClass>) returns (r: Result<FilterScope, Error>)
      ensures r.Err? <==> exists i :: 0 <= i < |classes| && !classes[i].instantiable
      ensures r.Err? ==> r.error == IllegalState
      ensures r.Ok? ==> fresh(r.value) && r.value.isAny == isAny && r.value.userChecks == Instances(classes)
                        && r.value.filterUserPermission == None
    {
      var checks: seq<UserCheck> := [];
      var i := 0;
      while i < |classes|
        invariant 0 <= i <= |classes|
        invariant forall j :: 0 <= j < i ==> classes[j].instantiable
        invariant checks == Instances(classes[..i])
      {
        if !classes[i].instantiable {
          return Err(IllegalState);
        }
        checks := checks + [UserCheck(classes[i].id)];
        i := i + 1;
      }
      assert classes[..i] == classes;
      var scope := new FilterScope.Of(isAny, checks);
      r := Ok(scope);
    }

    /**
     * `getUserPermission`: the remembered composite if there is one;
     * otherwise ask the checks in order, stop at the first shortcut
     * answer, fall back to FILTER or to the mode's default, and remember
     * the result. `asked` lists the checks the user was asked about.
     */
    method GetUserPermission(user: User) returns (p: UserPermission, asked: seq<UserCheck>)
      modifies this
      ensures old(filterUserPermission).Some? ==>
                p == old(filterUserPermission).value && asked == [] && filterUserPermission == old(filterUserPermission)
      ensures old(filterUserPermission).None? ==>
                var c := Permission(userChecks, isAny, user);
                p == c.permission && asked == userChecks[..c.consulted] && filterUserPermission == Some(p)
    {
      if filterUserPermission.Some? {
        return filterUserPermission.value, [];
      }
      ghost var c := Permission(userChecks, isAny, user);
      var composite: Option<UserPermission> := None;
      asked := [];
      var i := 0;
      while i < |userChecks|
        invariant 0 <= i <= |userChecks|
        invariant asked == userChecks[..i]
        invariant composite == None || composite == Some(FILTER)
        invariant c == Compose(userChecks, i, isAny, user, composite.Some?)
      {
        var v := user(userChecks[i]);
        asked := userChecks[..i + 1];
        if v == ALLOW && isAny {
          composite := Some(ALLOW);
          break;
        }
        if v == DENY && !isAny {
          composite := Some(DENY);
          break;
        }
        if v == FILTER {
          composite := Some(FILTER);
        }
        i := i + 1;
      }
      if composite == None {
        composite := Some(if isAny then DENY else ALLOW);
      }
      p := composite.value;
      filterUserPermission := composite;
    }
  }

  /** The one-argument constructor's scope, with no checks, allows; an empty ANY scope denies. */
  lemma EmptyScopeDefaults(isAny: bool, user: User)
    ensures Permission([], isAny, user) == Composite(if isAny then DENY else ALLOW, 0)
  {
  }
}
