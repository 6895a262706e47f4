/** A sequential in-memory stand-in for the Kubernetes API the reconcilers
    talk to: the KEVersionController and KnativeEventing stores of the typed
    client, the dynamic client's documents, and the CRD registry. Every call is
    appended to a log together with whether it succeeded, and a call can be
    made to fail by naming its resource and verb in `faults`. */
module Cluster {
  import opened Types

  datatype Resource =
    | VersionControllers
    | KnativeEventings
    | Dynamic(gvr: GVR)
    | CustomResourceDefinitions

  datatype Verb = Get | Create | Update | UpdateStatus

  /** One API call and whether it succeeded. */
  datatype Call = Call(resource: Resource, verb: Verb, key: Key, succeeded: bool)

  /** apiextensionsv1beta1.ResourceScope. */
  datatype Scope = NamespaceScoped | ClusterScoped

  /** The part of a CustomResourceDefinition the core sets. */
  datatype CRD = CRD(
    name: string,
    group: string,
    version: string,
    scope: Scope,
    plural: string,
    kind: string,
    listKind: string,
    singular: string)

  /** The result of looking a key up in a store. */
  function Lookup<T>(store: map<Key, T>, key: Key): (r: Result<T>)
    ensures r.Success? <==> key in store
    ensures r.Success? ==> r.value == store[key]
    ensures r.Failure? ==> r.error == NotFound
  {
    if key in store then Success(store[key]) else Failure(NotFound)
  }

  /** The outcome of a write: an injected failure first, then AlreadyExists for
      a create of a present key, NotFound for an update of an absent one. */
  function WriteOutcome(fault: Option<Err>, present: bool, create: bool): (r: Outcome)
    ensures r.Pass? <==> fault.None? && present != create
  {
    if fault.Some? then Fail(fault.value)
    else if create && present then Fail(AlreadyExists)
    else if !create && !present then Fail(NotFound)
    else Pass
  }

  datatype ClusterState = ClusterState(
    controllers: map<Key, KEVersionController>,
    eventings: map<Key, KnativeEventing>,
    dynamic: map<(GVR, Key), Document>,
    crds: map<string, CRD>,
    calls: seq<Call>,
    faults: map<(Resource, Verb), string>)
  {
    /** The error an injected fault makes the call return, if any. */
    function Injected(resource: Resource, verb: Verb): Option<Err> {
      if (resource, verb) in faults then Some(Failed(faults[(resource, verb)])) else None
    }

    function Record(resource: Resource, verb: Verb, key: Key, succeeded: bool): ClusterState {
      this.(calls := calls + [Call(resource, verb, key, succeeded)])
    }

    /** A dynamic resource is served when a registered CRD names its group,
        version and plural. Registration takes effect at once: the model has
        no Established condition, so a resource is served from the call after
        the Create of its CRD. */
    predicate Serves(gvr: GVR) {
      exists name :: name in crds && crds[name].group == gvr.group &&
        crds[name].version == gvr.version && crds[name].plural == gvr.resource
    }

    function GetController(key: Key): (ClusterState, Result<KEVersionController>) {
      var fault := Injected(VersionControllers, Get);
      var r := if fault.Some? then Failure(fault.value) else Lookup(controllers, key);
      (Record(VersionControllers, Get, key, r.Success?), r)
    }

    /** UpdateStatus of a KEVersionController: replaces the stored object. */
    function UpdateControllerStatus(namespace: string, c: KEVersionController): (ClusterState, Result<KEVersionController>) {
      var key := Key(namespace, c.meta.name);
      var o := WriteOutcome(Injected(VersionControllers, UpdateStatus), key in controllers, false);
      var s := Record(VersionControllers, UpdateStatus, key, o.Pass?);
      if o.Pass? then (s.(controllers := controllers[key := c]), Success(c)) else (s, Failure(o.error))
    }

    function GetEventing(key: Key): (ClusterState, Result<KnativeEventing>) {
      var fault := Injected(KnativeEventings, Get);
      var r := if fault.Some? then Failure(fault.value) else Lookup(eventings, key);
      (Record(KnativeEventings, Get, key, r.Success?), r)
    }

    /** A write of a KnativeEventing: Update, UpdateStatus and Create differ only
        in the verb and in which of a present or an absent key they accept. */
    function WriteEventing(verb: Verb, namespace: string, e: KnativeEventing): (ClusterState, Outcome)
      requires verb != Get
    {
      var key := Key(namespace, e.meta.name);
      var o := WriteOutcome(Injected(KnativeEventings, verb), key in eventings, verb == Create);
      (Record(KnativeEventings, verb, key, o.Pass?).(eventings := if o.Pass? then eventings[key := e] else eventings), o)
    }

    /** A read through the dynamic client; an unserved resource, such as the
        empty descriptor, is NotFound. */
    function GetDynamic(gvr: GVR, key: Key): (ClusterState, Result<Document>) {
      var fault := Injected(Dynamic(gvr), Get);
      var r :=
        if fault.Some? then Failure(fault.value)
        else if !Serves(gvr) || (gvr, key) !in dynamic then Failure(NotFound)
        else Success(dynamic[(gvr, key)]);
      (Record(Dynamic(gvr), Get, key, r.Success?), r)
    }

    /** A write of a document through the dynamic client; an unserved resource
        is NotFound whatever the verb. */
    function WriteDynamic(verb: Verb, gvr: GVR, namespace: string, d: Document): (ClusterState, Outcome)
      requires verb != Get
    {
      var key := Key(namespace, d.meta.name);
      var fault := Injected(Dynamic(gvr), verb);
      var o :=
        if fault.None? && !Serves(gvr) then Fail(NotFound)
        else WriteOutcome(fault, (gvr, key) in dynamic, verb == Create);
      (Record(Dynamic(gvr), verb, key, o.Pass?).(dynamic := if o.Pass? then dynamic[(gvr, key) := d] else dynamic), o)
    }

    /** Create of a cluster-scoped CRD, keyed by its name. */
    function CreateCRD(crd: CRD): (ClusterState, Outcome) {
      var key := Key("", crd.name);
      var o := WriteOutcome(Injected(CustomResourceDefinitions, Create), crd.name in crds, true);
      (Record(CustomResourceDefinitions, Create, key, o.Pass?).(crds := if o.Pass? then crds[crd.name := crd] else crds), o)
    }
  }

  /** Every Update in the log comes right after a successful UpdateStatus of
      the same object. */
  predicate StatusBeforeSpec(calls: seq<Call>) {
    forall i :: 0 <= i < |calls| && calls[i].verb == Update ==>
      0 < i && calls[i - 1] == Call(calls[i].resource, UpdateStatus, calls[i].key, true)
  }

  /** One more call keeps the discipline unless it is an Update that does not
      follow a successful UpdateStatus of the same object. */
  lemma AppendKeepsStatusBeforeSpec(calls: seq<Call>, c: Call)
    ensures StatusBeforeSpec(calls) &&
            (c.verb == Update ==> |calls| > 0 && calls[|calls| - 1] == Call(c.resource, UpdateStatus, c.key, true))
            ==> StatusBeforeSpec(calls + [c])
  {
    var next := calls + [c];
    if StatusBeforeSpec(calls) && (c.verb == Update ==> |calls| > 0 && calls[|calls| - 1] == Call(c.resource, UpdateStatus, c.key, true)) {
      forall i | 0 <= i < |next| && next[i].verb == Update
        ensures 0 < i && next[i - 1] == Call(next[i].resource, UpdateStatus, next[i].key, true)
      {
        if i < |calls| {
          assert next[i] == calls[i] && next[i - 1] == calls[i - 1];
        }
      }
    }
  }

  /** The log of t extends the log of s, and t keeps the injected faults. */
  predicate Extends(s: ClusterState, t: ClusterState) {
    t.faults == s.faults && s.calls <= t.calls
  }

  lemma ExtendsTransitive(r: ClusterState, s: ClusterState, t: ClusterState)
    ensures Extends(r, s) && Extends(s, t) ==> Extends(r, t)
  {
  }

  lemma PrefixAt(a: seq<Call>, b: seq<Call>, i: nat)
    ensures a <= b && i < |a| ==> i < |b| && b[i] == a[i]
  {
  }

  /** Appending calls one at a time builds the same log as appending them at
      once. */
  lemma AppendTwo(xs: seq<Call>, a: Call, b: Call)
    ensures xs + [a] + [b] == xs + [a, b]
  {
  }

  /** Storing the value a key already holds leaves a store as it was. */
  lemma StoreUnchanged<K, V>(m: map<K, V>, k: K, v: V)
    ensures k in m && m[k] == v ==> m[k := v] == m
  {
  }

  /** Storing the same value twice is storing it once. */
  lemma StoreTwice<K, V>(m: map<K, V>, k: K, v: V)
    ensures m[k := v][k := v] == m[k := v]
  {
  }

  lemma AppendThree(xs: seq<Call>, a: Call, b: Call, c: Call)
    ensures xs + [a] + [b] + [c] == xs + [a, b, c]
  {
  }

  lemma AppendFour(xs: seq<Call>, a: Call, b: Call, c: Call, d: Call)
    ensures xs + [a] + [b] + [c] + [d] == xs + [a, b, c, d]
  {
  }

  lemma AppendTwoThree(xs: seq<Call>, a: Call, b: Call, c: Call, d: Call, e: Call)
    ensures xs + [a, b] + [c, d, e] == xs + [a, b, c, d, e]
  {
  }

  lemma AppendFive(xs: seq<Call>, a: Call, b: Call, c: Call, d: Call, e: Call)
    ensures xs + [a] + [b] + [c] + [d] + [e] == xs + [a, b, c, d, e]
  {
  }

  // What each call does: the call it appends to the log, what it returns and
  // the one store it may change.

  lemma GetControllerStep(s: ClusterState, key: Key)
    ensures var (t, r) := s.GetController(key);
            && Extends(s, t) && t.calls == s.calls + [Call(VersionControllers, Get, key, r.Success?)]
            && t.controllers == s.controllers && t.eventings == s.eventings && t.dynamic == s.dynamic && t.crds == s.crds
            && r == (if (VersionControllers, Get) in s.faults then Failure(Failed(s.faults[(VersionControllers, Get)]))
                     else Lookup(s.controllers, key))
  {
  }

  lemma UpdateControllerStatusStep(s: ClusterState, namespace: string, c: KEVersionController)
    ensures var (t, r) := s.UpdateControllerStatus(namespace, c);
            var key := Key(namespace, c.meta.name);
            && Extends(s, t) && t.calls == s.calls + [Call(VersionControllers, UpdateStatus, key, r.Success?)]
            && t.eventings == s.eventings && t.dynamic == s.dynamic && t.crds == s.crds
            && (r.Success? <==> (VersionControllers, UpdateStatus) !in s.faults && key in s.controllers)
            && (r.Success? ==> r.value == c && t.controllers == s.controllers[key := c])
            && (r.Failure? ==> t.controllers == s.controllers)
  {
  }

  lemma GetEventingStep(s: ClusterState, key: Key)
    ensures var (t, r) := s.GetEventing(key);
            && Extends(s, t) && t.calls == s.calls + [Call(KnativeEventings, Get, key, r.Success?)]
            && t.controllers == s.controllers && t.eventings == s.eventings && t.dynamic == s.dynamic && t.crds == s.crds
            && r == (if (KnativeEventings, Get) in s.faults then Failure(Failed(s.faults[(KnativeEventings, Get)]))
                     else Lookup(s.eventings, key))
  {
  }

  lemma WriteEventingStep(s: ClusterState, verb: Verb, namespace: string, e: KnativeEventing)
    requires verb != Get
    ensures var (t, o) := s.WriteEventing(verb, namespace, e);
            var key := Key(namespace, e.meta.name);
            && Extends(s, t) && t.calls == s.calls + [Call(KnativeEventings, verb, key, o.Pass?)]
            && t.controllers == s.controllers && t.dynamic == s.dynamic && t.crds == s.crds
            && o == WriteOutcome(s.Injected(KnativeEventings, verb), key in s.eventings, verb == Create)
            && t.eventings == (if o.Pass? then s.eventings[key := e] else s.eventings)
  {
  }

  lemma GetDynamicStep(s: ClusterState, gvr: GVR, key: Key)
    ensures var (t, r) := s.GetDynamic(gvr, key);
            && Extends(s, t) && t.calls == s.calls + [Call(Dynamic(gvr), Get, key, r.Success?)]
            && t.controllers == s.controllers && t.eventings == s.eventings && t.dynamic == s.dynamic && t.crds == s.crds
            && r == (if (Dynamic(gvr), Get) in s.faults then Failure(Failed(s.faults[(Dynamic(gvr), Get)]))
                     else if !s.Serves(gvr) || (gvr, key) !in s.dynamic then Failure(NotFound)
                     else Success(s.dynamic[(gvr, key)]))
  {
  }

  lemma WriteDynamicStep(s: ClusterState, verb: Verb, gvr: GVR, namespace: string, d: Document)
    requires verb != Get
    ensures var (t, o) := s.WriteDynamic(verb, gvr, namespace, d);
            var key := Key(namespace, d.meta.name);
            && Extends(s, t) && t.calls == s.calls + [Call(Dynamic(gvr), verb, key, o.Pass?)]
            && t.controllers == s.controllers && t.eventings == s.eventings && t.crds == s.crds
            && o == (if (Dynamic(gvr), verb) !in s.faults && !s.Serves(gvr) then Fail(NotFound)
                     else WriteOutcome(s.Injected(Dynamic(gvr), verb), (gvr, key) in s.dynamic, verb == Create))
            && t.dynamic == (if o.Pass? then s.dynamic[(gvr, key) := d] else s.dynamic)
  {
  }

  lemma CreateCRDStep(s: ClusterState, crd: CRD)
    ensures var (t, o) := s.CreateCRD(crd);
            && Extends(s, t) && t.calls == s.calls + [Call(CustomResourceDefinitions, Create, Key("", crd.name), o.Pass?)]
            && t.controllers == s.controllers && t.eventings == s.eventings && t.dynamic == s.dynamic
            && o == WriteOutcome(s.Injected(CustomResourceDefinitions, Create), crd.name in s.crds, true)
            && t.crds == (if o.Pass? then s.crds[crd.name := crd] else s.crds)
  {
  }

  /** The API server as the reconcilers see it: one object whose state the
      client calls change. */
  class FakeCluster {
    var state: ClusterState

    constructor (initial: ClusterState)
      ensures state == initial
    {
      state := initial;
    }

    method GetController(key: Key) returns (r: Result<KEVersionController>)
      modifies this
      ensures (state, r) == old(state).GetController(key)
    {
      var (next, res) := state.GetController(key);
      state, r := next, res;
    }

    method UpdateControllerStatus(namespace: string, c: KEVersionController) returns (r: Result<KEVersionController>)
      modifies this
      ensures (state, r) == old(state).UpdateControllerStatus(namespace, c)
    {
      var (next, res) := state.UpdateControllerStatus(namespace, c);
      state, r := next, res;
    }

    method GetEventing(key: Key) returns (r: Result<KnativeEventing>)
      modifies this
      ensures (state, r) == old(state).GetEventing(key)
    {
      var (next, res) := state.GetEventing(key);
      state, r := next, res;
    }

    method WriteEventing(verb: Verb, namespace: string, e: KnativeEventing) returns (r: Outcome)
      requires verb != Get
      modifies this
      ensures (state, r) == old(state).WriteEventing(verb, namespace, e)
    {
      var (next, res) := state.WriteEventing(verb, namespace, e);
      state, r := next, res;
    }

    method GetDynamic(gvr: GVR, key: Key) returns (r: Result<Document>)
      modifies this
      ensures (state, r) == old(state).GetDynamic(gvr, key)
    {
      var (next, res) := state.GetDynamic(gvr, key);
      state, r := next, res;
    }

    method WriteDynamic(verb: Verb, gvr: GVR, namespace: string, d: Document) returns (r: Outcome)
      requires verb != Get
      modifies this
      ensures (state, r) == old(state).WriteDynamic(verb, gvr, namespace, d)
    {
      var (next, res) := state.WriteDynamic(verb, gvr, namespace, d);
      state, r := next, res;
    }

    method CreateCRD(crd: CRD) returns (r: Outcome)
      modifies this
      ensures (state, r) == old(state).CreateCRD(crd)
    {
      var (next, res) := state.CreateCRD(crd);
      state, r := next, res;
    }
  }
}
