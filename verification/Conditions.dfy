/** The status conditions of a Lumigo object. */
module Conditions {
  import opened Sequences

  datatype ConditionType = Active | Error

  datatype ConditionStatus = IsTrue | IsFalse | IsUnknown

  datatype Condition = Condition(
    kind: ConditionType, status: ConditionStatus, lastUpdate: int, lastTransition: int, message: string)

  function KindOf(c: Condition): ConditionType { c.kind }

  predicate HasCondition(cs: seq<Condition>, t: ConditionType) { HasKey(KindOf, cs, t) }

  /** `GetLumigoConditionByType` */
  function ConditionByType(cs: seq<Condition>, t: ConditionType): Condition
    requires HasCondition(cs, t)
  {
    cs[FirstIndex(KindOf, cs, t)]
  }

  predicate Holds(cs: seq<Condition>, t: ConditionType) {
    HasCondition(cs, t) && ConditionByType(cs, t).status == IsTrue
  }

  predicate IsActive(cs: seq<Condition>) { Holds(cs, Active) }
  predicate HasError(cs: seq<Condition>) { Holds(cs, Error) }

  datatype Update = Update(kind: ConditionType, now: int, status: ConditionStatus, message: string)

  /** `setLumigoCondition` */
  function Refresh(c: Condition, u: Update): Condition {
    c.(lastTransition := if c.status != u.status then u.now else c.lastTransition,
       status := u.status, lastUpdate := u.now, message := u.message)
  }

  /** `updateLumigoConditions`: a missing condition is only ever added as true. */
  function Apply(cs: seq<Condition>, u: Update): seq<Condition> {
    var i := FirstIndex(KindOf, cs, u.kind);
    if i < |cs| then cs[i := Refresh(cs[i], u)]
    else if u.status == IsTrue then cs + [Condition(u.kind, u.status, u.now, u.now, u.message)]
    else cs
  }

  function ApplyAll(cs: seq<Condition>, us: seq<Update>): seq<Condition> {
    if us == [] then cs else Apply(ApplyAll(cs, us[..|us| - 1]), us[|us| - 1])
  }

  function ActiveUpdate(now: int, active: bool, message: string): Update {
    Update(Active, now, if active then IsTrue else IsFalse, message)
  }

  const SEE_ERROR := "This Lumigo has an error, see the 'Error' condition"

  function SetErrorAndActive(cs: seq<Condition>, now: int, error: string): seq<Condition> {
    Apply(Apply(cs, ActiveUpdate(now, false, SEE_ERROR)),
          Update(Error, now, IsTrue, error))
  }

  function ClearError(cs: seq<Condition>, now: int): seq<Condition> {
    Apply(cs, Update(Error, now, IsFalse, ""))
  }

  /** The status sub-object that the reconciler edits in place. */
  class LumigoStatus {
    var conditions: seq<Condition>

    constructor (cs: seq<Condition>)
      ensures conditions == cs
    {
      conditions := cs;
    }

    method UpdateLumigoConditions(u: Update)
      modifies this
      ensures conditions == Apply(old(conditions), u)
    {
      var i := IndexOfKey(KindOf, conditions, u.kind);
      if i > -1 {
        var c := conditions[i];
        if c.status != u.status {
          c := c.(lastTransition := u.now, status := u.status);
        }
        conditions := conditions[i := c.(lastUpdate := u.now, message := u.message)];
      } else if u.status == IsTrue {
        conditions := conditions + [Condition(u.kind, u.status, u.now, u.now, u.message)];
      }
    }

    method SetErrorAndActiveConditions(now: int, error: string)
      modifies this
      ensures conditions == SetErrorAndActive(old(conditions), now, error)
    {
      UpdateLumigoConditions(ActiveUpdate(now, false, SEE_ERROR));
      UpdateLumigoConditions(Update(Error, now, IsTrue, error));
    }

    method ClearErrorCondition(now: int)
      modifies this
      ensures conditions == ClearError(old(conditions), now)
    {
      UpdateLumigoConditions(Update(Error, now, IsFalse, ""));
    }
  }

  // ---------------------------------------------------------------- one update

  /** One update touches its own condition only, adds at most one entry and drops none. */
  lemma ApplyEffect(cs: seq<Condition>, u: Update, t: ConditionType)
    requires DistinctKeys(KindOf, cs)
    ensures DistinctKeys(KindOf, Apply(cs, u))
    ensures HasCondition(Apply(cs, u), t) <==> HasCondition(cs, t) || (t == u.kind && u.status == IsTrue)
    ensures t != u.kind && HasCondition(cs, t) ==> ConditionByType(Apply(cs, u), t) == ConditionByType(cs, t)
    ensures t == u.kind && HasCondition(cs, t) ==>
              ConditionByType(Apply(cs, u), t) == Refresh(ConditionByType(cs, t), u)
    ensures t == u.kind && !HasCondition(cs, t) && u.status == IsTrue ==>
              ConditionByType(Apply(cs, u), t) == Condition(t, u.status, u.now, u.now, u.message)
    ensures t == u.kind && HasCondition(Apply(cs, u), t) ==> ConditionByType(Apply(cs, u), t).status == u.status
  {
    var r := Apply(cs, u);
    var i, j := FirstIndex(KindOf, cs, u.kind), FirstIndex(KindOf, cs, t);
    if j < |cs| {
      FirstIndexStable(KindOf, cs, r, t);
    } else if t == u.kind && u.status == IsTrue {
      assert KindOf(r[|cs|]) == t;
    } else {
      assert forall k :: 0 <= k < |r| ==> KindOf(r[k]) != t;
    }
  }

  // ---------------------------------------------------------------- histories

  /** The updates of condition `t` since it came into being: those before its first "true"
      have no effect. */
  function Effective(t: ConditionType, us: seq<Update>): seq<Update> {
    if us == [] then []
    else
      var e, u := Effective(t, us[..|us| - 1]), us[|us| - 1];
      if u.kind == t && (e != [] || u.status == IsTrue) then e + [u] else e
  }

  /** `e[i]` begins the run of equal statuses that `e` ends with. */
  ghost predicate BeginsLastRun(e: seq<Update>, i: nat) {
    && i < |e|
    && (forall j :: i <= j < |e| ==> e[j].status == e[|e| - 1].status)
    && (i > 0 ==> e[i - 1].status != e[i].status)
  }

  ghost predicate ClockAdvances(us: seq<Update>) {
    forall i, j :: 0 <= i < j < |us| ==> us[i].now <= us[j].now
  }

  /** What the condition list knows after any history of updates: each condition exists once
      it has been set true, mirrors its last update, and its transition time is that of the
      update that began the current unbroken run of equal statuses. */
  lemma {:induction false} TransitionTimeHistory(us: seq<Update>, t: ConditionType)
    ensures var cs, e := ApplyAll([], us), Effective(t, us);
            && DistinctKeys(KindOf, cs)
            && (HasCondition(cs, t) <==> e != [])
            && (e != [] ==>
                  var c, last := ConditionByType(cs, t), e[|e| - 1];
                  && c == Condition(t, last.status, last.now, c.lastTransition, last.message)
                  && exists i: nat :: BeginsLastRun(e, i) && c.lastTransition == e[i].now)
  {
    if us != [] {
      var before, u := us[..|us| - 1], us[|us| - 1];
      TransitionTimeHistory(before, t);
      ApplyEffect(ApplyAll([], before), u, t);
      var e0, e := Effective(t, before), Effective(t, us);
      if u.kind == t && e != [] {
        if e0 != [] && e0[|e0| - 1].status == u.status {
          var i: nat :| BeginsLastRun(e0, i) && ConditionByType(ApplyAll([], before), t).lastTransition == e0[i].now;
          assert BeginsLastRun(e, i) && e[i] == e0[i];
        } else {
          assert BeginsLastRun(e, |e| - 1);
        }
      }
    }
  }

  /** With a clock that never runs backwards, a transition is never later than the update. */
  lemma {:induction false} TransitionsPrecedeUpdates(us: seq<Update>, t: ConditionType)
    requires ClockAdvances(us)
    ensures HasCondition(ApplyAll([], us), t) ==>
              var c := ConditionByType(ApplyAll([], us), t);
              c.lastTransition <= c.lastUpdate <= us[|us| - 1].now
  {
    if us != [] {
      var before := us[..|us| - 1];
      TransitionsPrecedeUpdates(before, t);
      TransitionTimeHistory(before, t);
      ApplyEffect(ApplyAll([], before), us[|us| - 1], t);
      assert before != [] ==> before[|before| - 1] == us[|us| - 2];
    }
  }
}
