/** A model of knative.dev/pkg's living condition set, the library behind the
    status lifecycle of a KnativeEventing: a list of conditions kept sorted by
    type, upserted one at a time, and a "happy" condition that turns True when
    every dependent condition is True. */
module Conditions {
  import opened Types
  import opened Strings

  /** apis.NewLivingConditionSet(dependents...): the happy type and its dependents. */
  datatype LivingConditionSet = LivingConditionSet(happy: string, dependents: seq<string>)

  /** apis.ConditionReady. */
  const ConditionReady := "Ready"

  /** The first condition of type t, if any (GetCondition). */
  function GetCondition(conds: seq<Condition>, t: string): (r: Option<Condition>)
    ensures r.Some? ==> r.value in conds && r.value.conditionType == t
    ensures r.None? ==> forall c :: c in conds ==> c.conditionType != t
  {
    if conds == [] then None
    else if conds[0].conditionType == t then Some(conds[0])
    else GetCondition(conds[1..], t)
  }

  /** Condition.IsTrue on a possibly nil condition. */
  predicate IsTrue(c: Option<Condition>) {
    c.Some? && c.value.status == True
  }

  /** Condition.IsUnknown on a possibly nil condition: a missing condition is unknown. */
  predicate IsUnknown(c: Option<Condition>) {
    c.None? || c.value.status == Unknown
  }

  /** Conditions in strictly increasing order of type, as the library leaves them. */
  predicate SortedByType(conds: seq<Condition>) {
    forall i, j :: 0 <= i < j < |conds| ==> LexLess(conds[i].conditionType, conds[j].conditionType)
  }

  predicate DistinctTypes(conds: seq<Condition>) {
    forall i, j :: 0 <= i < j < |conds| ==> conds[i].conditionType != conds[j].conditionType
  }

  /** Places c before the first condition whose type is greater. */
  function InsertByType(conds: seq<Condition>, c: Condition): seq<Condition> {
    if conds == [] then [c]
    else if LexLess(c.conditionType, conds[0].conditionType) then [c] + conds
    else [conds[0]] + InsertByType(conds[1..], c)
  }

  /** Sorting by type (sort.Slice with `conditions[i].Type < conditions[j].Type`). */
  function SortByType(conds: seq<Condition>): seq<Condition>
    decreases |conds|
  {
    if conds == [] then []
    else InsertByType(SortByType(conds[..|conds| - 1]), conds[|conds| - 1])
  }

  /** The conditions whose type is not t, in their order. */
  function RemoveType(conds: seq<Condition>, t: string): seq<Condition> {
    if conds == [] then []
    else if conds[0].conditionType == t then RemoveType(conds[1..], t)
    else [conds[0]] + RemoveType(conds[1..], t)
  }

  /** SetCondition: a condition already present as it is leaves the list alone;
      otherwise the conditions of its type are dropped, it is appended, and the
      list is sorted by type. */
  function SetCondition(conds: seq<Condition>, c: Condition): seq<Condition> {
    if c in conds then conds
    else SortByType(RemoveType(conds, c.conditionType) + [c])
  }

  /** InitializeConditions: adds the happy condition as Unknown when it is
      missing, then every missing dependent as True when the happy condition is
      True and as Unknown otherwise; present conditions are kept. */
  function InitializeConditions(cs: LivingConditionSet, conds: seq<Condition>): seq<Condition> {
    var withHappy :=
      if GetCondition(conds, cs.happy).None? then SetCondition(conds, Condition(cs.happy, Unknown, "", ""))
      else conds;
    var status := if IsTrue(GetCondition(withHappy, cs.happy)) then True else Unknown;
    InitializeDependents(withHappy, cs.dependents, status)
  }

  /** The loop over the dependents in InitializeConditions. */
  function InitializeDependents(conds: seq<Condition>, ts: seq<string>, status: ConditionStatus): seq<Condition>
    decreases |ts|
  {
    if ts == [] then conds
    else
      var next :=
        if GetCondition(conds, ts[0]).None? then SetCondition(conds, Condition(ts[0], status, "", ""))
        else conds;
      InitializeDependents(next, ts[1..], status)
  }

  predicate AllTrue(conds: seq<Condition>, ts: seq<string>) {
    forall t :: t in ts ==> IsTrue(GetCondition(conds, t))
  }

  /** MarkTrue: sets t True, then the happy condition True when every
      dependent is True; otherwise the happy condition is left as it was. */
  function MarkTrue(cs: LivingConditionSet, conds: seq<Condition>, t: string): seq<Condition> {
    var marked := SetCondition(conds, Condition(t, True, "", ""));
    if AllTrue(marked, cs.dependents) then SetCondition(marked, Condition(cs.happy, True, "", ""))
    else marked
  }

  /** MarkFalse: sets t False, and the happy condition False with the same reason
      and message when t is a dependent. */
  function MarkFalse(cs: LivingConditionSet, conds: seq<Condition>, t: string, reason: string, message: string): seq<Condition> {
    var marked := SetCondition(conds, Condition(t, False, reason, message));
    if t in cs.dependents then SetCondition(marked, Condition(cs.happy, False, reason, message))
    else marked
  }

  /** IsHappy: the happy condition is present and True. */
  predicate IsHappy(cs: LivingConditionSet, conds: seq<Condition>) {
    IsTrue(GetCondition(conds, cs.happy))
  }

  /** A set the lemmas below are about: the happy type is not a dependent, and
      there is at least one dependent. */
  predicate WellFormedSet(cs: LivingConditionSet) {
    cs.happy !in cs.dependents && cs.dependents != []
  }

  /** The invariant every operation keeps: sorted by type, and the happy
      condition is True exactly when all dependents are. */
  predicate Consistent(cs: LivingConditionSet, conds: seq<Condition>) {
    SortedByType(conds) && (IsHappy(cs, conds) <==> AllTrue(conds, cs.dependents))
  }

  // ---------------------------------------------------------------------------
  // Sorting

  lemma SortedIsDistinct(conds: seq<Condition>)
    requires SortedByType(conds)
    ensures DistinctTypes(conds)
  {
    forall i, j | 0 <= i < j < |conds|
      ensures conds[i].conditionType != conds[j].conditionType
    {
      LexLessIrreflexive(conds[i].conditionType);
    }
  }

  lemma {:induction false} InsertByTypeElements(conds: seq<Condition>, c: Condition)
    ensures multiset(InsertByType(conds, c)) == multiset(conds) + multiset{c}
    decreases |conds|
  {
    if conds != [] && !LexLess(c.conditionType, conds[0].conditionType) {
      InsertByTypeElements(conds[1..], c);
      assert conds == [conds[0]] + conds[1..];
    }
  }

  lemma {:induction false} InsertByTypeSorted(conds: seq<Condition>, c: Condition)
    requires SortedByType(conds)
    requires forall x :: x in conds ==> x.conditionType != c.conditionType
    ensures SortedByType(InsertByType(conds, c))
    decreases |conds|
  {
    if conds == [] {
    } else if LexLess(c.conditionType, conds[0].conditionType) {
      forall j | 0 < j < |conds|
        ensures LexLess(c.conditionType, conds[j].conditionType)
      {
        LexLessTransitive(c.conditionType, conds[0].conditionType, conds[j].conditionType);
      }
    } else {
      LexLessTotal(c.conditionType, conds[0].conditionType);
      var tail := conds[1..];
      var rest := InsertByType(tail, c);
      InsertByTypeSorted(tail, c);
      InsertByTypeElements(tail, c);
      forall k | 0 <= k < |rest|
        ensures LexLess(conds[0].conditionType, rest[k].conditionType)
      {
        assert rest[k] in multiset(rest);
        if rest[k] != c {
          assert rest[k] in multiset(tail);
          var idx :| 0 <= idx < |tail| && tail[idx] == rest[k];
          assert conds[idx + 1] == rest[k];
        }
      }
    }
  }

  lemma {:induction false} SortByTypeElements(conds: seq<Condition>)
    ensures multiset(SortByType(conds)) == multiset(conds)
    decreases |conds|
  {
    if conds != [] {
      var init := conds[..|conds| - 1];
      SortByTypeElements(init);
      InsertByTypeElements(SortByType(init), conds[|conds| - 1]);
      assert conds == init + [conds[|conds| - 1]];
    }
  }

  /** In a list of distinct types, the last type occurs nowhere before. */
  lemma LastTypeFresh(conds: seq<Condition>)
    requires DistinctTypes(conds) && conds != []
    ensures forall x :: x in conds[..|conds| - 1] ==> x.conditionType != conds[|conds| - 1].conditionType
  {
    forall x | x in conds[..|conds| - 1]
      ensures x.conditionType != conds[|conds| - 1].conditionType
    {
      var idx :| 0 <= idx < |conds| - 1 && conds[idx] == x;
    }
  }

  lemma {:induction false} SortByTypeSorted(conds: seq<Condition>)
    requires DistinctTypes(conds)
    ensures SortedByType(SortByType(conds))
    decreases |conds|
  {
    if conds != [] {
      var init := conds[..|conds| - 1];
      var last := conds[|conds| - 1];
      SortByTypeSorted(init);
      SortByTypeElements(init);
      LastTypeFresh(conds);
      forall x | x in SortByType(init)
        ensures x.conditionType != last.conditionType
      {
        assert x in multiset(SortByType(init));
      }
      InsertByTypeSorted(SortByType(init), last);
    }
  }

  lemma {:induction false} RemoveTypeFacts(conds: seq<Condition>, t: string)
    ensures forall x :: x in RemoveType(conds, t) <==> x in conds && x.conditionType != t
    ensures DistinctTypes(conds) ==> DistinctTypes(RemoveType(conds, t))
    decreases |conds|
  {
    if conds != [] {
      RemoveTypeFacts(conds[1..], t);
      if DistinctTypes(conds) && conds[0].conditionType != t {
        var rest := RemoveType(conds[1..], t);
        assert DistinctTypes(conds[1..]);
        forall k | 0 <= k < |rest|
          ensures conds[0].conditionType != rest[k].conditionType
        {
          assert rest[k] in conds[1..];
          var idx :| 0 <= idx < |conds[1..]| && conds[1..][idx] == rest[k];
          assert conds[idx + 1] == rest[k];
        }
      }
    }
  }

  /** A sorted list is determined by its elements. */
  lemma {:induction false} SortedUnique(a: seq<Condition>, b: seq<Condition>)
    requires SortedByType(a) && SortedByType(b)
    requires forall x :: x in a <==> x in b
    ensures a == b
    decreases |a|
  {
    assert a != [] ==> a[0] in b;
    assert b != [] ==> b[0] in a;
    if a != [] && b != [] {
      var k :| 0 <= k < |b| && b[k] == a[0];
      var m :| 0 <= m < |a| && a[m] == b[0];
      if k > 0 {
        assert LexLess(b[0].conditionType, a[0].conditionType);
        if m > 0 {
          LexLessAsymmetric(a[0].conditionType, a[m].conditionType);
        } else {
          LexLessIrreflexive(a[0].conditionType);
        }
      }
      assert a[0] == b[0];
      forall x
        ensures x in a[1..] <==> x in b[1..]
      {
        if x in a[1..] {
          var i :| 0 <= i < |a[1..]| && a[1..][i] == x;
          LexLessIrreflexive(a[0].conditionType);
          assert x != b[0] && x in b;
        }
        if x in b[1..] {
          var i :| 0 <= i < |b[1..]| && b[1..][i] == x;
          LexLessIrreflexive(b[0].conditionType);
          assert x != a[0] && x in a;
        }
      }
      SortedUnique(a[1..], b[1..]);
      assert a == [a[0]] + a[1..] && b == [b[0]] + b[1..];
    }
  }

  // ---------------------------------------------------------------------------
  // Looking conditions up

  /** In a list without repeated types, the condition found for t is the one of
      type t that the list holds. */
  lemma GetConditionFinds(conds: seq<Condition>, x: Condition)
    requires DistinctTypes(conds)
    requires x in conds
    ensures GetCondition(conds, x.conditionType) == Some(x)
  {
    var r := GetCondition(conds, x.conditionType);
    var i :| 0 <= i < |conds| && conds[i] == x;
    var j :| 0 <= j < |conds| && conds[j] == r.value;
    assert i == j;
  }

  /** SetCondition keeps the order, makes c the condition of its type, and
      leaves the condition of every other type as it was. */
  lemma SetConditionFacts(conds: seq<Condition>, c: Condition)
    requires SortedByType(conds)
    ensures SortedByType(SetCondition(conds, c))
    ensures GetCondition(SetCondition(conds, c), c.conditionType) == Some(c)
    ensures forall t :: t != c.conditionType ==> GetCondition(SetCondition(conds, c), t) == GetCondition(conds, t)
  {
    SortedIsDistinct(conds);
    if c in conds {
      GetConditionFinds(conds, c);
    } else {
      var removed := RemoveType(conds, c.conditionType);
      RemoveTypeFacts(conds, c.conditionType);
      var appended := removed + [c];
      assert DistinctTypes(appended);
      SortByTypeSorted(appended);
      SortByTypeElements(appended);
      var r := SortByType(appended);
      assert SetCondition(conds, c) == r;
      assert forall x :: x in r <==> x in multiset(appended);
      SortedIsDistinct(r);
      GetConditionFinds(r, c);
      forall t | t != c.conditionType
        ensures GetCondition(r, t) == GetCondition(conds, t)
      {
        var before := GetCondition(conds, t);
        if before.Some? {
          assert before.value in appended;
          GetConditionFinds(r, before.value);
        }
      }
    }
  }

  /** Four conditions whose types ascend pairwise in a chain are sorted. */
  lemma ChainSorted(c0: Condition, c1: Condition, c2: Condition, c3: Condition)
    requires LexLess(c0.conditionType, c1.conditionType)
    requires LexLess(c1.conditionType, c2.conditionType)
    requires LexLess(c2.conditionType, c3.conditionType)
    ensures SortedByType([c0, c1, c2, c3])
  {
    LexLessTransitive(c0.conditionType, c1.conditionType, c2.conditionType);
    LexLessTransitive(c0.conditionType, c2.conditionType, c3.conditionType);
    LexLessTransitive(c1.conditionType, c2.conditionType, c3.conditionType);
  }

  /** A sorted list in which exactly four conditions, of increasing types, can
      be found is the list of those four. */
  lemma FourInOrder(r: seq<Condition>, c0: Condition, c1: Condition, c2: Condition, c3: Condition)
    requires SortedByType(r)
    requires LexLess(c0.conditionType, c1.conditionType)
    requires LexLess(c1.conditionType, c2.conditionType)
    requires LexLess(c2.conditionType, c3.conditionType)
    requires GetCondition(r, c0.conditionType) == Some(c0) && GetCondition(r, c1.conditionType) == Some(c1)
    requires GetCondition(r, c2.conditionType) == Some(c2) && GetCondition(r, c3.conditionType) == Some(c3)
    requires forall t :: t != c0.conditionType && t != c1.conditionType && t != c2.conditionType && t != c3.conditionType ==>
               GetCondition(r, t).None?
    ensures r == [c0, c1, c2, c3]
  {
    var expected := [c0, c1, c2, c3];
    ChainSorted(c0, c1, c2, c3);
    SortedIsDistinct(r);
    forall x | x in r
      ensures x in expected
    {
      GetConditionFinds(r, x);
    }
    SortedUnique(r, expected);
  }

  // ---------------------------------------------------------------------------
  // The condition-set operations

  /** InitializeDependents adds exactly the missing conditions among ts, each
      with the given status, and keeps everything else. */
  lemma {:induction false} InitializeDependentsSorted(conds: seq<Condition>, ts: seq<string>, status: ConditionStatus)
    requires SortedByType(conds)
    ensures SortedByType(InitializeDependents(conds, ts, status))
    decreases |ts|
  {
    if ts != [] {
      var c := Condition(ts[0], status, "", "");
      SetConditionFacts(conds, c);
      InitializeDependentsSorted(if GetCondition(conds, ts[0]).None? then SetCondition(conds, c) else conds, ts[1..], status);
    }
  }

  lemma {:induction false} InitializeDependentsFacts(conds: seq<Condition>, ts: seq<string>, status: ConditionStatus)
    requires SortedByType(conds)
    ensures SortedByType(InitializeDependents(conds, ts, status))
    ensures forall t :: GetCondition(conds, t).Some? ==>
              GetCondition(InitializeDependents(conds, ts, status), t) == GetCondition(conds, t)
    ensures forall t :: GetCondition(conds, t).None? && t in ts ==>
              GetCondition(InitializeDependents(conds, ts, status), t) == Some(Condition(t, status, "", ""))
    ensures forall t :: GetCondition(conds, t).None? && t !in ts ==>
              GetCondition(InitializeDependents(conds, ts, status), t).None?
    decreases |ts|
  {
    InitializeDependentsSorted(conds, ts, status);
    if ts != [] {
      var c := Condition(ts[0], status, "", "");
      var next := if GetCondition(conds, ts[0]).None? then SetCondition(conds, c) else conds;
      SetConditionFacts(conds, c);
      InitializeDependentsFacts(next, ts[1..], status);
      var r := InitializeDependents(conds, ts, status);
      assert r == InitializeDependents(next, ts[1..], status);
      forall t
        ensures GetCondition(conds, t).Some? ==> GetCondition(r, t) == GetCondition(conds, t)
        ensures GetCondition(conds, t).None? && t in ts ==> GetCondition(r, t) == Some(Condition(t, status, "", ""))
        ensures GetCondition(conds, t).None? && t !in ts ==> GetCondition(r, t).None?
      {
        assert t in ts <==> t == ts[0] || t in ts[1..];
      }
    }
  }


  /** Every operation keeps a consistent list consistent. */
  lemma InitializeConditionsConsistent(cs: LivingConditionSet, conds: seq<Condition>)
    requires WellFormedSet(cs) && Consistent(cs, conds)
    ensures Consistent(cs, InitializeConditions(cs, conds))
    ensures forall t :: t in cs.dependents || t == cs.happy ==>
              GetCondition(InitializeConditions(cs, conds), t).Some?
    ensures forall t :: GetCondition(conds, t).Some? ==>
              GetCondition(InitializeConditions(cs, conds), t) == GetCondition(conds, t)
  {
    var withHappy :=
      if GetCondition(conds, cs.happy).None? then SetCondition(conds, Condition(cs.happy, Unknown, "", ""))
      else conds;
    if GetCondition(conds, cs.happy).None? {
      SetConditionFacts(conds, Condition(cs.happy, Unknown, "", ""));
    }
    var status := if IsTrue(GetCondition(withHappy, cs.happy)) then True else Unknown;
    InitializeDependentsFacts(withHappy, cs.dependents, status);
    var r := InitializeConditions(cs, conds);
    assert r == InitializeDependents(withHappy, cs.dependents, status);
    assert GetCondition(r, cs.happy) == GetCondition(withHappy, cs.happy);
    if IsHappy(cs, r) {
      forall t | t in cs.dependents
        ensures IsTrue(GetCondition(r, t))
      {
        assert IsTrue(GetCondition(conds, t));
      }
    } else if AllTrue(r, cs.dependents) {
      assert false;
    }
  }

  lemma MarkTrueConsistent(cs: LivingConditionSet, conds: seq<Condition>, t: string)
    requires WellFormedSet(cs) && Consistent(cs, conds) && t != cs.happy
    ensures Consistent(cs, MarkTrue(cs, conds, t))
    ensures GetCondition(MarkTrue(cs, conds, t), t) == Some(Condition(t, True, "", ""))
    ensures forall u :: u != t && u != cs.happy ==>
              GetCondition(MarkTrue(cs, conds, t), u) == GetCondition(conds, u)
  {
    var marked := SetCondition(conds, Condition(t, True, "", ""));
    SetConditionFacts(conds, Condition(t, True, "", ""));
    if AllTrue(marked, cs.dependents) {
      SetConditionFacts(marked, Condition(cs.happy, True, "", ""));
      var r := SetCondition(marked, Condition(cs.happy, True, "", ""));
      assert forall u :: u in cs.dependents ==> GetCondition(r, u) == GetCondition(marked, u);
    } else if IsHappy(cs, marked) {
      forall u | u in cs.dependents
        ensures IsTrue(GetCondition(marked, u))
      {
        if u != t {
          assert IsTrue(GetCondition(conds, u));
        }
      }
      assert false;
    }
  }

  lemma MarkFalseConsistent(cs: LivingConditionSet, conds: seq<Condition>, t: string, reason: string, message: string)
    requires WellFormedSet(cs) && Consistent(cs, conds) && t != cs.happy
    ensures Consistent(cs, MarkFalse(cs, conds, t, reason, message))
    ensures GetCondition(MarkFalse(cs, conds, t, reason, message), t) == Some(Condition(t, False, reason, message))
    ensures t in cs.dependents ==>
              GetCondition(MarkFalse(cs, conds, t, reason, message), cs.happy) == Some(Condition(cs.happy, False, reason, message))
    ensures forall u :: u != t && u != cs.happy ==>
              GetCondition(MarkFalse(cs, conds, t, reason, message), u) == GetCondition(conds, u)
  {
    var marked := SetCondition(conds, Condition(t, False, reason, message));
    SetConditionFacts(conds, Condition(t, False, reason, message));
    if t in cs.dependents {
      SetConditionFacts(marked, Condition(cs.happy, False, reason, message));
    } else {
      assert forall u :: u in cs.dependents ==> GetCondition(marked, u) == GetCondition(conds, u);
    }
  }

  /** The empty list is consistent: no dependent is True and there is no happy
      condition. */
  lemma EmptyConsistent(cs: LivingConditionSet)
    requires WellFormedSet(cs)
    ensures Consistent(cs, [])
  {
    assert cs.dependents[0] in cs.dependents;
  }
}
