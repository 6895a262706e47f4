/** The status lifecycle of a KnativeEventing: its condition set and the
    Mark* methods that upsert conditions into a status in place. */
module Lifecycle {
  import opened Types
  import opened Strings
  import opened Conditions

  const DependenciesInstalled := "DependenciesInstalled"
  const DeploymentsAvailable := "DeploymentsAvailable"
  const InstallSucceeded := "InstallSucceeded"

  /** eventingCondSet: Ready depends on the three conditions, in this order. */
  const EventingCondSet := LivingConditionSet(ConditionReady, [DependenciesInstalled, DeploymentsAvailable, InstallSucceeded])

  /** The conditions after MarkInstallFailed(msg). */
  function InstallFailedConditions(conds: seq<Condition>, msg: string): seq<Condition> {
    MarkFalse(EventingCondSet, conds, InstallSucceeded, "Error", "Install failed with message: " + msg)
  }

  /** The conditions after MarkInstallSucceeded: InstallSucceeded is marked True,
      then DependenciesInstalled too when it is unknown or missing. */
  function InstallSucceededConditions(conds: seq<Condition>): seq<Condition> {
    var marked := MarkTrue(EventingCondSet, conds, InstallSucceeded);
    if IsUnknown(Conditions.GetCondition(marked, DependenciesInstalled)) then MarkTrue(EventingCondSet, marked, DependenciesInstalled)
    else marked
  }

  /** The conditions after MarkDependenciesInstalled. */
  function DependenciesInstalledConditions(conds: seq<Condition>): seq<Condition> {
    MarkTrue(EventingCondSet, conds, DependenciesInstalled)
  }

  /** The conditions after MarkDeploymentsAvailable. */
  function DeploymentsAvailableConditions(conds: seq<Condition>): seq<Condition> {
    MarkTrue(EventingCondSet, conds, DeploymentsAvailable)
  }

  /** The conditions after MarkDeploymentsNotReady. */
  function DeploymentsNotReadyConditions(conds: seq<Condition>): seq<Condition> {
    MarkFalse(EventingCondSet, conds, DeploymentsAvailable, "NotReady", "Waiting on deployments")
  }

  /** KnativeEventingStatus: its methods change the condition list in place. */
  class KnativeEventingStatus {
    var conditions: seq<Condition>
    var version: string

    constructor (status: EventingStatus)
      ensures conditions == status.conditions && version == status.version
    {
      conditions := status.conditions;
      version := status.version;
    }

    function Value(): EventingStatus
      reads this
    {
      EventingStatus(conditions, version)
    }

    /** GetCondition returns the condition of type t, if the status holds one. */
    function GetCondition(t: string): (r: Option<Condition>)
      reads this
      ensures r.Some? ==> r.value in conditions && r.value.conditionType == t
      ensures r.None? ==> forall c :: c in conditions ==> c.conditionType != t
    {
      Conditions.GetCondition(conditions, t)
    }

    /** IsReady: the Ready condition is present and True; on a consistent
        status, exactly when the three dependents are all True. */
    function IsReady(): (r: bool)
      reads this
      ensures r <==> IsTrue(GetCondition(ConditionReady))
      ensures Consistent(EventingCondSet, conditions) ==>
                (r <==> IsTrue(GetCondition(DependenciesInstalled)) &&
                        IsTrue(GetCondition(DeploymentsAvailable)) &&
                        IsTrue(GetCondition(InstallSucceeded)))
    {
      if Consistent(EventingCondSet, conditions) then
        IsReadyIffAllTrue(conditions);
        IsHappy(EventingCondSet, conditions)
      else
        IsHappy(EventingCondSet, conditions)
    }

    method InitializeConditions()
      modifies this
      ensures conditions == Conditions.InitializeConditions(EventingCondSet, old(conditions))
      ensures version == old(version)
    {
      conditions := Conditions.InitializeConditions(EventingCondSet, conditions);
    }

    method MarkInstallFailed(msg: string)
      modifies this
      ensures conditions == InstallFailedConditions(old(conditions), msg)
      ensures version == old(version)
    {
      conditions := MarkFalse(EventingCondSet, conditions, InstallSucceeded, "Error", "Install failed with message: " + msg);
    }

    method MarkInstallSucceeded()
      modifies this
      ensures conditions == InstallSucceededConditions(old(conditions))
      ensures version == old(version)
    {
      conditions := MarkTrue(EventingCondSet, conditions, InstallSucceeded);
      if IsUnknown(GetCondition(DependenciesInstalled)) {
        MarkDependenciesInstalled();
      }
    }

    method MarkDependenciesInstalled()
      modifies this
      ensures conditions == DependenciesInstalledConditions(old(conditions))
      ensures version == old(version)
    {
      conditions := MarkTrue(EventingCondSet, conditions, DependenciesInstalled);
    }

    method MarkDeploymentsAvailable()
      modifies this
      ensures conditions == DeploymentsAvailableConditions(old(conditions))
      ensures version == old(version)
    {
      conditions := MarkTrue(EventingCondSet, conditions, DeploymentsAvailable);
    }

    method MarkDeploymentsNotReady()
      modifies this
      ensures conditions == DeploymentsNotReadyConditions(old(conditions))
      ensures version == old(version)
    {
      conditions := MarkFalse(EventingCondSet, conditions, DeploymentsAvailable, "NotReady", "Waiting on deployments");
    }
  }

  // ---------------------------------------------------------------------------
  // Properties of the eventing condition set

  lemma EventingCondSetWellFormed()
    ensures WellFormedSet(EventingCondSet)
  {
  }

  /** The order of the four condition types as Go compares strings. */
  lemma ConditionTypeOrder()
    ensures LexLess(DependenciesInstalled, DeploymentsAvailable)
    ensures LexLess(DeploymentsAvailable, InstallSucceeded)
    ensures LexLess(InstallSucceeded, ConditionReady)
  {
    LexLessAtFirstDifference(DependenciesInstalled, DeploymentsAvailable, 3);
    LexLessAtFirstDifference(DeploymentsAvailable, InstallSucceeded, 0);
    LexLessAtFirstDifference(InstallSucceeded, ConditionReady, 0);
  }

  /** Initializing an empty status adds the three dependents and Ready, each
      Unknown with no reason and no message, and nothing else. */
  lemma InitializeEmptyFacts()
    ensures Consistent(EventingCondSet, Conditions.InitializeConditions(EventingCondSet, []))
    ensures forall t :: t in EventingCondSet.dependents || t == ConditionReady ==>
              Conditions.GetCondition(Conditions.InitializeConditions(EventingCondSet, []), t) == Some(Condition(t, Unknown, "", ""))
    ensures forall t :: t !in EventingCondSet.dependents && t != ConditionReady ==>
              Conditions.GetCondition(Conditions.InitializeConditions(EventingCondSet, []), t).None?
  {
    var ready := Condition(ConditionReady, Unknown, "", "");
    SetConditionFacts([], ready);
    var withHappy := SetCondition([], ready);
    assert forall t :: t != ConditionReady ==> Conditions.GetCondition(withHappy, t).None?;
    InitializeDependentsFacts(withHappy, EventingCondSet.dependents, Unknown);
    EmptyConsistent(EventingCondSet);
    InitializeConditionsConsistent(EventingCondSet, []);
  }

  /** The condition types of the set are the three dependents and Ready. */
  lemma EventingCondSetTypes()
    ensures forall t :: t in EventingCondSet.dependents || t == ConditionReady <==>
              t == DependenciesInstalled || t == DeploymentsAvailable || t == InstallSucceeded || t == ConditionReady
  {
  }

  /** A sorted list holding exactly the four conditions of the set, all
      Unknown, is the list of them in type order. */
  lemma UnknownConditionsInOrder(r: seq<Condition>)
    requires SortedByType(r)
    requires forall t :: t in EventingCondSet.dependents || t == ConditionReady ==>
               Conditions.GetCondition(r, t) == Some(Condition(t, Unknown, "", ""))
    requires forall t :: t !in EventingCondSet.dependents && t != ConditionReady ==>
               Conditions.GetCondition(r, t).None?
    ensures r == [
      Condition(DependenciesInstalled, Unknown, "", ""),
      Condition(DeploymentsAvailable, Unknown, "", ""),
      Condition(InstallSucceeded, Unknown, "", ""),
      Condition(ConditionReady, Unknown, "", "")]
  {
    ConditionTypeOrder();
    EventingCondSetTypes();
    FourInOrder(r,
      Condition(DependenciesInstalled, Unknown, "", ""),
      Condition(DeploymentsAvailable, Unknown, "", ""),
      Condition(InstallSucceeded, Unknown, "", ""),
      Condition(ConditionReady, Unknown, "", ""));
  }

  /** Initializing an empty status yields the three dependents and Ready, all
      Unknown, in this order. */
  lemma InitializeEmptyStatus()
    ensures Conditions.InitializeConditions(EventingCondSet, []) == [
      Condition(DependenciesInstalled, Unknown, "", ""),
      Condition(DeploymentsAvailable, Unknown, "", ""),
      Condition(InstallSucceeded, Unknown, "", ""),
      Condition(ConditionReady, Unknown, "", "")]
  {
    InitializeEmptyFacts();
    UnknownConditionsInOrder(Conditions.InitializeConditions(EventingCondSet, []));
  }

  /** IsReady holds exactly when all three dependent conditions are True, for
      every status the operations below produce. */
  lemma IsReadyIffAllTrue(conds: seq<Condition>)
    requires Consistent(EventingCondSet, conds)
    ensures IsHappy(EventingCondSet, conds) <==>
              IsTrue(Conditions.GetCondition(conds, DependenciesInstalled)) &&
              IsTrue(Conditions.GetCondition(conds, DeploymentsAvailable)) &&
              IsTrue(Conditions.GetCondition(conds, InstallSucceeded))
  {
    assert forall t :: t in EventingCondSet.dependents <==>
      t == DependenciesInstalled || t == DeploymentsAvailable || t == InstallSucceeded;
  }

  lemma InitializeConditionsFacts(conds: seq<Condition>)
    requires Consistent(EventingCondSet, conds)
    ensures Consistent(EventingCondSet, Conditions.InitializeConditions(EventingCondSet, conds))
    ensures forall t :: Conditions.GetCondition(conds, t).Some? ==>
              Conditions.GetCondition(Conditions.InitializeConditions(EventingCondSet, conds), t) == Conditions.GetCondition(conds, t)
  {
    InitializeConditionsConsistent(EventingCondSet, conds);
  }

  /** MarkInstallFailed sets InstallSucceeded and Ready False with reason "Error"
      and the message carrying msg; the other dependents are untouched. */
  lemma InstallFailedFacts(conds: seq<Condition>, msg: string)
    requires Consistent(EventingCondSet, conds)
    ensures Consistent(EventingCondSet, InstallFailedConditions(conds, msg))
    ensures Conditions.GetCondition(InstallFailedConditions(conds, msg), InstallSucceeded) ==
              Some(Condition(InstallSucceeded, False, "Error", "Install failed with message: " + msg))
    ensures Conditions.GetCondition(InstallFailedConditions(conds, msg), ConditionReady) ==
              Some(Condition(ConditionReady, False, "Error", "Install failed with message: " + msg))
    ensures Conditions.GetCondition(InstallFailedConditions(conds, msg), DependenciesInstalled) ==
              Conditions.GetCondition(conds, DependenciesInstalled)
    ensures Conditions.GetCondition(InstallFailedConditions(conds, msg), DeploymentsAvailable) ==
              Conditions.GetCondition(conds, DeploymentsAvailable)
  {
    MarkFalseConsistent(EventingCondSet, conds, InstallSucceeded, "Error", "Install failed with message: " + msg);
  }

  /** MarkInstallSucceeded sets InstallSucceeded True; DependenciesInstalled
      becomes True when it was unknown or missing, and otherwise (True or False)
      keeps its value; DeploymentsAvailable is untouched. */
  lemma InstallSucceededFacts(conds: seq<Condition>)
    requires Consistent(EventingCondSet, conds)
    ensures Consistent(EventingCondSet, InstallSucceededConditions(conds))
    ensures Conditions.GetCondition(InstallSucceededConditions(conds), InstallSucceeded) ==
              Some(Condition(InstallSucceeded, True, "", ""))
    ensures IsUnknown(Conditions.GetCondition(conds, DependenciesInstalled)) ==>
              Conditions.GetCondition(InstallSucceededConditions(conds), DependenciesInstalled) ==
                Some(Condition(DependenciesInstalled, True, "", ""))
    ensures !IsUnknown(Conditions.GetCondition(conds, DependenciesInstalled)) ==>
              Conditions.GetCondition(InstallSucceededConditions(conds), DependenciesInstalled) ==
                Conditions.GetCondition(conds, DependenciesInstalled)
    ensures Conditions.GetCondition(InstallSucceededConditions(conds), DeploymentsAvailable) ==
              Conditions.GetCondition(conds, DeploymentsAvailable)
  {
    var marked := MarkTrue(EventingCondSet, conds, InstallSucceeded);
    MarkTrueConsistent(EventingCondSet, conds, InstallSucceeded);
    if IsUnknown(Conditions.GetCondition(marked, DependenciesInstalled)) {
      MarkTrueConsistent(EventingCondSet, marked, DependenciesInstalled);
    }
  }

  /** MarkDependenciesInstalled sets only its own condition True among the
      dependents. */
  lemma DependenciesInstalledFacts(conds: seq<Condition>)
    requires Consistent(EventingCondSet, conds)
    ensures Consistent(EventingCondSet, DependenciesInstalledConditions(conds))
    ensures Conditions.GetCondition(DependenciesInstalledConditions(conds), DependenciesInstalled) ==
              Some(Condition(DependenciesInstalled, True, "", ""))
    ensures Conditions.GetCondition(DependenciesInstalledConditions(conds), DeploymentsAvailable) ==
              Conditions.GetCondition(conds, DeploymentsAvailable)
    ensures Conditions.GetCondition(DependenciesInstalledConditions(conds), InstallSucceeded) ==
              Conditions.GetCondition(conds, InstallSucceeded)
  {
    MarkTrueConsistent(EventingCondSet, conds, DependenciesInstalled);
  }

  /** MarkDeploymentsAvailable sets only its own condition True among the
      dependents. */
  lemma DeploymentsAvailableFacts(conds: seq<Condition>)
    requires Consistent(EventingCondSet, conds)
    ensures Consistent(EventingCondSet, DeploymentsAvailableConditions(conds))
    ensures Conditions.GetCondition(DeploymentsAvailableConditions(conds), DeploymentsAvailable) ==
              Some(Condition(DeploymentsAvailable, True, "", ""))
    ensures Conditions.GetCondition(DeploymentsAvailableConditions(conds), DependenciesInstalled) ==
              Conditions.GetCondition(conds, DependenciesInstalled)
    ensures Conditions.GetCondition(DeploymentsAvailableConditions(conds), InstallSucceeded) ==
              Conditions.GetCondition(conds, InstallSucceeded)
  {
    MarkTrueConsistent(EventingCondSet, conds, DeploymentsAvailable);
  }

  /** MarkDeploymentsNotReady sets DeploymentsAvailable and Ready False with
      reason "NotReady" and message "Waiting on deployments". */
  lemma DeploymentsNotReadyFacts(conds: seq<Condition>)
    requires Consistent(EventingCondSet, conds)
    ensures Consistent(EventingCondSet, DeploymentsNotReadyConditions(conds))
    ensures Conditions.GetCondition(DeploymentsNotReadyConditions(conds), DeploymentsAvailable) ==
              Some(Condition(DeploymentsAvailable, False, "NotReady", "Waiting on deployments"))
    ensures Conditions.GetCondition(DeploymentsNotReadyConditions(conds), ConditionReady) ==
              Some(Condition(ConditionReady, False, "NotReady", "Waiting on deployments"))
    ensures Conditions.GetCondition(DeploymentsNotReadyConditions(conds), DependenciesInstalled) ==
              Conditions.GetCondition(conds, DependenciesInstalled)
    ensures Conditions.GetCondition(DeploymentsNotReadyConditions(conds), InstallSucceeded) ==
              Conditions.GetCondition(conds, InstallSucceeded)
  {
    MarkFalseConsistent(EventingCondSet, conds, DeploymentsAvailable, "NotReady", "Waiting on deployments");
  }

  /** From a status whose three dependents are all unknown: a successful install
      leaves it not ready while deployments are unknown, it becomes ready once
      they are available, and is not ready again when they stop being ready. */
  lemma InstallThenDeployments(conds: seq<Condition>)
    requires Consistent(EventingCondSet, conds)
    requires IsUnknown(Conditions.GetCondition(conds, DependenciesInstalled))
    requires IsUnknown(Conditions.GetCondition(conds, DeploymentsAvailable))
    ensures !IsHappy(EventingCondSet, InstallSucceededConditions(conds))
    ensures IsHappy(EventingCondSet, DeploymentsAvailableConditions(InstallSucceededConditions(conds)))
    ensures !IsHappy(EventingCondSet, DeploymentsNotReadyConditions(DeploymentsAvailableConditions(InstallSucceededConditions(conds))))
  {
    var installed := InstallSucceededConditions(conds);
    InstallSucceededFacts(conds);
    IsReadyIffAllTrue(installed);
    var available := DeploymentsAvailableConditions(installed);
    DeploymentsAvailableFacts(installed);
    IsReadyIffAllTrue(available);
    DeploymentsNotReadyFacts(available);
    IsReadyIffAllTrue(DeploymentsNotReadyConditions(available));
  }

  /** The same sequence from a freshly initialized status. */
  lemma InstallScenario()
    ensures var installed := InstallSucceededConditions(Conditions.InitializeConditions(EventingCondSet, []));
            && !IsHappy(EventingCondSet, installed)
            && IsHappy(EventingCondSet, DeploymentsAvailableConditions(installed))
            && !IsHappy(EventingCondSet, DeploymentsNotReadyConditions(DeploymentsAvailableConditions(installed)))
  {
    InitializeEmptyFacts();
    InstallThenDeployments(Conditions.InitializeConditions(EventingCondSet, []));
  }
}
