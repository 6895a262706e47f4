/** The KnativeEventing reconciler's bookkeeping: the set of keys of the
    KnativeEventing objects it has seen, and the teardown of the shared
    manifest once the last of them is gone. */
module EventingReconciler {
  import opened Types
  import opened Strings
  import opened Cluster

  /** The reconciler's state: the keys it tracks and how many times it has
      called DeleteAll on its manifest. */
  datatype Tracking = Tracking(eventings: set<string>, teardowns: nat)

  /** One Reconcile as a value: the new tracking state, the cluster after the
      lister read, and the returned error. A key that does not split is
      dropped with success; a missing object removes its key and tears down
      when no key is left; any other read error is returned; a present object
      adds its key. */
  function ReconcileEffect(t: Tracking, s: ClusterState, key: string): (Tracking, ClusterState, Outcome) {
    var split := SplitMetaNamespaceKey(key);
    if split.Failure? then (t, s, Pass)
    else
      var (s1, r) := s.GetEventing(Key(split.value.0, split.value.1));
      if r == Failure(NotFound) then
        var rest := t.eventings - {key};
        (Tracking(rest, if |rest| == 0 then t.teardowns + 1 else t.teardowns), s1, Pass)
      else if r.Failure? then (t, s1, Fail(r.error))
      else (t.(eventings := t.eventings + {key}), s1, Pass)
  }

  /** The reconciler of KnativeEventing objects. */
  class KnativeEventingReconciler {
    var eventings: set<string>
    var teardowns: nat

    constructor ()
      ensures eventings == {} && teardowns == 0
    {
      eventings := {};
      teardowns := 0;
    }

    function State(): Tracking
      reads this
    {
      Tracking(eventings, teardowns)
    }

    /** config.DeleteAll: deletes every resource of the manifest; its error is
        not looked at. */
    method DeleteAll()
      modifies this
      ensures eventings == old(eventings) && teardowns == old(teardowns) + 1
    {
      teardowns := teardowns + 1;
    }

    /** Reconcile: the lister read goes through `cluster`. */
    method Reconcile(key: string, cluster: FakeCluster) returns (err: Outcome)
      modifies this, cluster
      ensures (State(), cluster.state, err) == ReconcileEffect(old(State()), old(cluster.state), key)
    {
      var split := SplitMetaNamespaceKey(key);
      if split.Failure? {
        return Pass;
      }
      var (namespace, name) := split.value;
      var r := cluster.GetEventing(Key(namespace, name));
      if r == Failure(NotFound) {
        eventings := eventings - {key};
        if |eventings| == 0 {
          DeleteAll();
        }
        return Pass;
      } else if r.Failure? {
        return Fail(r.error);
      }
      eventings := eventings + {key};
      return Pass;
    }
  }

  // ---------------------------------------------------------------------------
  // Properties

  /** The object a split key names, when the lister finds it. */
  predicate Present(s: ClusterState, key: string) {
    var split := SplitMetaNamespaceKey(key);
    split.Success? && (KnativeEventings, Get) !in s.faults && Key(split.value.0, split.value.1) in s.eventings
  }

  /** The object a split key names, when the lister reports it missing. */
  predicate Absent(s: ClusterState, key: string) {
    var split := SplitMetaNamespaceKey(key);
    split.Success? && (KnativeEventings, Get) !in s.faults && Key(split.value.0, split.value.1) !in s.eventings
  }

  /** A key that does not split is dropped with success: nothing is read, the
      set is not changed and nothing is torn down. */
  lemma ReconcileUnsplittableKey(t: Tracking, s: ClusterState, key: string)
    requires SplitMetaNamespaceKey(key).Failure?
    ensures ReconcileEffect(t, s, key) == (t, s, Pass)
  {
  }

  /** A present object adds its key, never tears down and succeeds; adding
      is idempotent. */
  lemma ReconcilePresent(t: Tracking, s: ClusterState, key: string)
    requires Present(s, key)
    ensures var (t1, s1, o) := ReconcileEffect(t, s, key);
            && o == Pass && t1.eventings == t.eventings + {key} && t1.teardowns == t.teardowns
            && key in t1.eventings
            && ReconcileEffect(t1, s1, key).0 == t1
  {
  }

  /** A missing object removes its key; DeleteAll runs exactly when no key
      is left afterwards, and the call succeeds either way. */
  lemma ReconcileAbsent(t: Tracking, s: ClusterState, key: string)
    requires Absent(s, key)
    ensures var (t1, _, o) := ReconcileEffect(t, s, key);
            && o == Pass && t1.eventings == t.eventings - {key}
            && (t1.teardowns == t.teardowns + 1 <==> t.eventings <= {key})
            && (t1.teardowns == t.teardowns <==> !(t.eventings <= {key}))
  {
    var rest := t.eventings - {key};
    assert |rest| == 0 <==> rest == {};
    if t.eventings <= {key} {
      assert rest == {};
    } else {
      var other :| other in t.eventings && other != key;
      assert other in rest;
    }
  }

  /** A read error other than NotFound is returned as it is, with the set
      and the teardown count unchanged. */
  lemma ReconcileReadError(t: Tracking, s: ClusterState, key: string)
    requires SplitMetaNamespaceKey(key).Success? && (KnativeEventings, Get) in s.faults
    ensures ReconcileEffect(t, s, key).0 == t
    ensures ReconcileEffect(t, s, key).2 == Fail(Failed(s.faults[(KnativeEventings, Get)]))
  {
  }

  /** Every tracked key is one that splits. */
  predicate WellFormed(t: Tracking) {
    forall k :: k in t.eventings ==> SplitMetaNamespaceKey(k).Success?
  }

  /** Reconcile keeps the tracked keys well formed, only ever adds the key it
      was given, and never lowers the teardown count. */
  lemma ReconcileKeepsWellFormed(t: Tracking, s: ClusterState, key: string)
    requires WellFormed(t)
    ensures WellFormed(ReconcileEffect(t, s, key).0)
    ensures ReconcileEffect(t, s, key).0.teardowns >= t.teardowns
    ensures ReconcileEffect(t, s, key).0.eventings <= t.eventings + {key}
  {
  }

  /** With two tracked objects, deleting the first leaves the manifest in
      place and deleting the second tears it down once. */
  lemma TwoKeysScenario(s: ClusterState, k1: string, k2: string, n: nat)
    requires k1 != k2 && Absent(s, k1) && Absent(s, k2)
    ensures var (t1, s1, o1) := ReconcileEffect(Tracking({k1, k2}, n), s, k1);
            var (t2, _, o2) := ReconcileEffect(t1, s1, k2);
            && o1 == Pass && t1 == Tracking({k2}, n)
            && o2 == Pass && t2 == Tracking({}, n + 1)
  {
    var s1 := ReconcileEffect(Tracking({k1, k2}, n), s, k1).1;
    assert {k1, k2} - {k1} == {k2};
    assert s1.eventings == s.eventings && s1.faults == s.faults;
    assert Absent(s1, k2);
    assert {k2} - {k2} == {};
  }

  /** With no tracked key, every report of a missing object tears down again,
      whether or not its key was ever tracked. */
  lemma RepeatedTeardown(s: ClusterState, key: string, n: nat)
    requires Absent(s, key)
    ensures var (t1, s1, _) := ReconcileEffect(Tracking({}, n), s, key);
            && t1 == Tracking({}, n + 1)
            && ReconcileEffect(t1, s1, key).0 == Tracking({}, n + 2)
  {
    var s1 := ReconcileEffect(Tracking({}, n), s, key).1;
    assert s1.eventings == s.eventings && s1.faults == s.faults;
    assert Absent(s1, key);
  }
}
