/** The KEVersionController reconciler: it chooses between upgrading the
    operator's custom resource from the legacy schema, downgrading it to the
    legacy schema, or refusing the request, and then issues an ordered series of
    reads and writes against the cluster.

    Each step is stated twice: as a function from a cluster state to the next
    state and the returned error (the specification), and as the method of
    `VersionReconciler` that issues the calls on a `FakeCluster`. */
module VersionController {
  import opened Types
  import opened Strings
  import opened Cluster
  import opened OldSchema
  import opened Upgrade
  import opened Downgrade

  /** The name of the operator's custom resource in both schemas. */
  const CRName := "knative-eventing"

  // The error messages the reconciler returns; the ones that name the target
  // version are split around it.
  const OldCRReadFailed := "Error getting the CR of Knative Eventing in the old version"
  const NewCRReadFailed := "Error getting the CR of Knative Eventing in the new version"
  const NewCRCreateFailed := "Failed to creating the CR of Knative Eventing in the new version"
  const NewStatusUpdateFailed := "Failed to update the version of the CR to the new version"
  const NewSpecUpdateFailed := "Failed to update the CR to the new version"
  const CurrentCRReadFailed := "Unable to get the CR of Knative Eventing in the new version target version "
  const DowngradeFailed := "Failed to downgrade the CR."
  const LegacyStatusUpdateFailed := "Failed to update the version of the CR into "
  const LegacySpecUpdateFailed := "Failed to update the the CR"
  const LegacyCreateFailed := "Failed to create the CR in the version "
  const Period := "."
  const UnsupportedTarget := "The target version you specified "
  const NotSupported := " is not supported."

  /** The KnativeEventing created when the current-version CR is missing. */
  function Skeleton(namespace: string): KnativeEventing {
    KnativeEventing(NamedMeta(CRName, namespace), EmptySpec, EmptyStatus)
  }

  /** unstructured.Unstructured.SetResourceVersion. */
  function SetResourceVersion(d: Document, rv: string): Document {
    d.(meta := d.meta.(resourceVersion := rv))
  }

  // ---------------------------------------------------------------------------
  // Choosing the path

  datatype Path = UpgradePath | DowngradePath | UnsupportedPath

  /** The branch `reconcile` takes for a spec, given the operator's version.
      The comparison of versions is Go's string `<`. */
  function Route(spec: VersionControllerSpec, version: string): (p: Path)
    ensures p == UpgradePath <==> spec.targetVersion == version || spec.targetVersion == ""
    ensures p == DowngradePath <==>
              spec.targetVersion != version && spec.targetVersion != "" &&
              (spec.sourceVersion == version || spec.sourceVersion == "") && LexLess(spec.targetVersion, version)
  {
    if spec.targetVersion == version || spec.targetVersion == "" then UpgradePath
    else if (spec.sourceVersion == version || spec.sourceVersion == "") && LexLess(spec.targetVersion, version) then DowngradePath
    else UnsupportedPath
  }

  // ---------------------------------------------------------------------------
  // The specification of each step

  /** The upgrade branch: read the legacy CR, then the current one (or start
      from a skeleton), check the conversion, then write status before spec
      of an existing CR, or create a missing one. */
  function UpgradeEffect(s: ClusterState, c: KEVersionController, version: string): (ClusterState, Outcome) {
    var ns := c.meta.namespace;
    var (s1, legacy) := s.GetDynamic(GetOldGroupVersionResource(c.spec.sourceVersion), Key(ns, CRName));
    if legacy == Failure(NotFound) then (s1, Pass)
    else if legacy.Failure? then (s1, Fail(Failed(OldCRReadFailed)))
    else UpgradeWithLegacy(s1, c, version, legacy.value)
  }

  function UpgradeWithLegacy(s: ClusterState, c: KEVersionController, version: string, legacy: Document): (ClusterState, Outcome) {
    var ns := c.meta.namespace;
    var (s1, current) := s.GetEventing(Key(ns, CRName));
    if current.Failure? && current.error != NotFound then
      (s1, Fail(Failed(NewCRReadFailed)))
    else
      var eventing := if current.Success? then current.value else Skeleton(ns);
      var upgraded := UpgradeCR(c.spec.sourceVersion, version, legacy, eventing);
      if upgraded.Fail? then (s1, upgraded)
      else if current.Success? then UpgradeUpdate(s1, ns, eventing)
      else
        var (s2, created) := s1.WriteEventing(Create, ns, eventing);
        (s2, if created.Fail? then Fail(Failed(NewCRCreateFailed)) else Pass)
  }

  function UpgradeUpdate(s: ClusterState, ns: string, eventing: KnativeEventing): (ClusterState, Outcome) {
    var (s1, st) := s.WriteEventing(UpdateStatus, ns, eventing);
    if st.Fail? then (s1, Fail(Failed(NewStatusUpdateFailed)))
    else
      var (s2, up) := s1.WriteEventing(Update, ns, eventing);
      (s2, if up.Fail? then Fail(Failed(NewSpecUpdateFailed)) else Pass)
  }

  /** The downgrade branch: read the current CR, convert it, install the legacy
      CRD, then update an existing legacy CR (status before spec, carrying its
      resourceVersion forward) or create a missing one. */
  function DowngradeEffect(s: ClusterState, c: KEVersionController, codec: CodecFaults): (ClusterState, Outcome) {
    var ns := c.meta.namespace;
    var tv := c.spec.targetVersion;
    var (s1, current) := s.GetEventing(Key(ns, CRName));
    if current == Failure(NotFound) then (s1, Pass)
    else if current.Failure? then (s1, Fail(Failed(CurrentCRReadFailed + tv)))
    else DowngradeWithCurrent(s1, c, current.value, codec)
  }

  function DowngradeWithCurrent(s: ClusterState, c: KEVersionController, current: KnativeEventing, codec: CodecFaults): (ClusterState, Outcome) {
    var ns := c.meta.namespace;
    var tv := c.spec.targetVersion;
    var converted := DowngradeCRResult(tv, current, codec);
    if converted.Failure? then (s, Fail(Failed(DowngradeFailed)))
    else
      var target := if converted.value.content.Some? then converted.value.content.value else EmptyDocument;
      var (s1, installed) := InstallOldCRDEffect(s, tv);
      if installed.Fail? then (s1, installed)
      else WriteLegacy(s1, ns, tv, converted.value.resource, target)
  }

  function WriteLegacy(s: ClusterState, ns: string, tv: string, plural: GVR, target: Document): (ClusterState, Outcome) {
    var (s1, existing) := s.GetDynamic(plural, Key(ns, target.meta.name));
    if existing.Success? then
      var withRv := SetResourceVersion(target, existing.value.meta.resourceVersion);
      var (s2, st) := s1.WriteDynamic(UpdateStatus, plural, ns, withRv);
      if st.Fail? then (s2, Fail(Failed(LegacyStatusUpdateFailed + tv)))
      else
        var (s3, up) := s2.WriteDynamic(Update, plural, ns, withRv);
        (s3, if up.Fail? then Fail(Failed(LegacySpecUpdateFailed)) else Pass)
    else
      var (s2, installed) := InstallOldCRDEffect(s1, tv);
      if installed.Fail? then (s2, installed)
      else
        var (s3, created) := s2.WriteDynamic(Create, plural, ns, target);
        (s3, if created.Fail? then Fail(Failed(LegacyCreateFailed + tv + Period)) else Pass)
  }

  /** `reconcile`: the chosen branch, or the refusal of an unsupported target. */
  function MigrateEffect(s: ClusterState, c: KEVersionController, version: string, codec: CodecFaults): (ClusterState, Outcome) {
    match Route(c.spec, version)
    case UpgradePath => UpgradeEffect(s, c, version)
    case DowngradePath => DowngradeEffect(s, c, codec)
    case UnsupportedPath =>
      (s, Fail(Failed(UnsupportedTarget + c.spec.targetVersion + NotSupported)))
  }

  /** `updateStatus`: re-read the controller and write its status only when
      the live status differs from the desired one. */
  function UpdateStatusEffect(s: ClusterState, desired: KEVersionController): (ClusterState, Result<KEVersionController>) {
    var (s1, live) := s.GetController(Key(desired.meta.namespace, desired.meta.name));
    if live.Failure? then (s1, live)
    else if live.value.status == desired.status then (s1, live)
    else s1.UpdateControllerStatus(desired.meta.namespace, live.value.(status := desired.status))
  }

  /** The tail of `Reconcile`: write the status back only when it changed, and
      return a status-write error in preference to the reconcile error. */
  function WriteBackEffect(s: ClusterState, original: KEVersionController, desired: KEVersionController, reconcileErr: Outcome): (ClusterState, Outcome) {
    if original.status == desired.status then (s, reconcileErr)
    else
      var (s1, written) := UpdateStatusEffect(s, desired);
      if written.Failure? then (s1, Fail(written.error)) else (s1, reconcileErr)
  }

  /** `Reconcile`: split the key, read the controller (a missing one is done),
      run `reconcile` on a copy, then write its status back. */
  function ReconcileEffect(s: ClusterState, key: string, version: string, codec: CodecFaults): (ClusterState, Outcome) {
    var split := SplitMetaNamespaceKey(key);
    if split.Failure? then (s, Pass)
    else
      var (s1, original) := s.GetController(Key(split.value.0, split.value.1));
      if original == Failure(NotFound) then (s1, Pass)
      else if original.Failure? then (s1, Fail(original.error))
      else
        var (s2, reconcileErr) := MigrateEffect(s1, original.value, version, codec);
        WriteBackEffect(s2, original.value, original.value, reconcileErr)
  }

  // ---------------------------------------------------------------------------
  // The reconciler

  class VersionReconciler {
    const cluster: FakeCluster
    /** The operator's own version. */
    const version: string
    /** Which conversions of the codec libraries fail. */
    const codec: CodecFaults

    constructor (cluster: FakeCluster, version: string, codec: CodecFaults)
      ensures this.cluster == cluster && this.version == version && this.codec == codec
    {
      this.cluster := cluster;
      this.version := version;
      this.codec := codec;
    }

    method Reconcile(key: string) returns (err: Outcome)
      modifies cluster
      ensures (cluster.state, err) == ReconcileEffect(old(cluster.state), key, version, codec)
    {
      var split := SplitMetaNamespaceKey(key);
      if split.Failure? {
        return Pass;
      }
      var original := cluster.GetController(Key(split.value.0, split.value.1));
      if original == Failure(NotFound) {
        return Pass;
      } else if original.Failure? {
        return Fail(original.error);
      }
      var keVerController := original.value;
      var reconcileErr := Migrate(keVerController);
      err := WriteBack(original.value, keVerController, reconcileErr);
    }

    /** The status write-back at the end of `Reconcile`. */
    method WriteBack(original: KEVersionController, desired: KEVersionController, reconcileErr: Outcome) returns (err: Outcome)
      modifies cluster
      ensures (cluster.state, err) == WriteBackEffect(old(cluster.state), original, desired, reconcileErr)
    {
      if original.status == desired.status {
        return reconcileErr;
      }
      var written := UpdateStatus(desired);
      if written.Failure? {
        return Fail(written.error);
      }
      err := reconcileErr;
    }

    /** `reconcile`. */
    method Migrate(c: KEVersionController) returns (err: Outcome)
      modifies cluster
      ensures (cluster.state, err) == MigrateEffect(old(cluster.state), c, version, codec)
    {
      var ns := c.meta.namespace;
      var tv := c.spec.targetVersion;
      var path := Route(c.spec, version);
      if path == UpgradePath {
        var legacy := cluster.GetDynamic(GetOldGroupVersionResource(c.spec.sourceVersion), Key(ns, CRName));
        if legacy == Failure(NotFound) {
          return Pass;
        } else if legacy.Failure? {
          return Fail(Failed(OldCRReadFailed));
        }
        var current := cluster.GetEventing(Key(ns, CRName));
        var eventing: KnativeEventing;
        var newCRExists := true;
        if current == Failure(NotFound) {
          eventing := Skeleton(ns);
          newCRExists := false;
        } else if current.Failure? {
          return Fail(Failed(NewCRReadFailed));
        } else {
          eventing := current.value;
        }
        err := UpgradeCR(c.spec.sourceVersion, version, legacy.value, eventing);
        if err.Fail? {
          return;
        }
        if newCRExists {
          var e := cluster.WriteEventing(Verb.UpdateStatus, ns, eventing);
          if e.Fail? {
            return Fail(Failed(NewStatusUpdateFailed));
          }
          e := cluster.WriteEventing(Update, ns, eventing);
          if e.Fail? {
            return Fail(Failed(NewSpecUpdateFailed));
          }
        } else {
          var e := cluster.WriteEventing(Create, ns, eventing);
          if e.Fail? {
            return Fail(Failed(NewCRCreateFailed));
          }
        }
        err := Pass;
      } else if path == DowngradePath {
        var current := cluster.GetEventing(Key(ns, CRName));
        if current == Failure(NotFound) {
          return Pass;
        } else if current.Failure? {
          return Fail(Failed(CurrentCRReadFailed + tv));
        }
        var target := new Unstructured();
        var plural, e := DowngradeCR(tv, current.value, target, codec);
        if e.Fail? {
          return Fail(Failed(DowngradeFailed));
        }
        err := InstallOldCRD(tv, cluster);
        if err.Fail? {
          return;
        }
        var existing := cluster.GetDynamic(plural, Key(ns, target.content.meta.name));
        if existing.Success? {
          target.content := SetResourceVersion(target.content, existing.value.meta.resourceVersion);
          e := cluster.WriteDynamic(Verb.UpdateStatus, plural, ns, target.content);
          if e.Fail? {
            return Fail(Failed(LegacyStatusUpdateFailed + tv));
          }
          e := cluster.WriteDynamic(Update, plural, ns, target.content);
          if e.Fail? {
            return Fail(Failed(LegacySpecUpdateFailed));
          }
        } else {
          err := InstallOldCRD(tv, cluster);
          if err.Fail? {
            return;
          }
          e := cluster.WriteDynamic(Create, plural, ns, target.content);
          if e.Fail? {
            return Fail(Failed(LegacyCreateFailed + tv + Period));
          }
        }
        err := Pass;
      } else {
        err := Fail(Failed(UnsupportedTarget + tv + NotSupported));
      }
    }

    /** `updateStatus`. */
    method UpdateStatus(desired: KEVersionController) returns (r: Result<KEVersionController>)
      modifies cluster
      ensures (cluster.state, r) == UpdateStatusEffect(old(cluster.state), desired)
    {
      var live := cluster.GetController(Key(desired.meta.namespace, desired.meta.name));
      if live.Failure? {
        return live;
      }
      if live.value.status == desired.status {
        return live;
      }
      var existing := live.value.(status := desired.status);
      r := cluster.UpdateControllerStatus(desired.meta.namespace, existing);
    }
  }

  // ---------------------------------------------------------------------------
  // Properties of the specification

  /** The legacy resource descriptor. */
  const LegacyGVR := GVR(GroupName, SchemaVersion, CRDPlural)

  /** Every stored object sits under the key of its own namespace and name. */
  predicate WellKeyed(s: ClusterState) {
    && (forall k :: k in s.controllers ==> Key(s.controllers[k].meta.namespace, s.controllers[k].meta.name) == k)
    && (forall k :: k in s.eventings ==> Key(s.eventings[k].meta.namespace, s.eventings[k].meta.name) == k)
  }

  /** A registry where the legacy CRD's name, if taken, holds the legacy CRD. */
  predicate LegacyRegistry(s: ClusterState) {
    FullCRDName in s.crds ==> s.crds[FullCRDName] == LegacyCRD
  }

  /** A stand-in for a controller that was not read, in proofs that follow
      every branch at once. */
  const NoController := KEVersionController(NamedMeta("", ""), VersionControllerSpec("", ""), VersionControllerStatus([]))

  // The steps of each branch: that they only append to the log, which stores
  // they leave alone, and that they keep the status-before-spec discipline.
  // Each proof follows all branches at once, naming the state after every
  // call whether or not that call is reached.

  lemma UpgradeUpdateFrame(s: ClusterState, ns: string, e: KnativeEventing)
    ensures var t := UpgradeUpdate(s, ns, e).0;
            Extends(s, t) && t.controllers == s.controllers && t.dynamic == s.dynamic && t.crds == s.crds
  {
    var s1 := s.WriteEventing(UpdateStatus, ns, e).0;
    WriteEventingStep(s, UpdateStatus, ns, e);
    WriteEventingStep(s1, Update, ns, e);
    ExtendsTransitive(s, s1, s1.WriteEventing(Update, ns, e).0);
  }

  lemma UpgradeUpdateKeepsOrder(s: ClusterState, ns: string, e: KnativeEventing)
    requires StatusBeforeSpec(s.calls)
    ensures StatusBeforeSpec(UpgradeUpdate(s, ns, e).0.calls)
  {
    var k := Key(ns, e.meta.name);
    var (s1, st) := s.WriteEventing(UpdateStatus, ns, e);
    WriteEventingStep(s, UpdateStatus, ns, e);
    WriteEventingStep(s1, Update, ns, e);
    AppendKeepsStatusBeforeSpec(s.calls, Call(KnativeEventings, UpdateStatus, k, st.Pass?));
    AppendKeepsStatusBeforeSpec(s1.calls, Call(KnativeEventings, Update, k, s1.WriteEventing(Update, ns, e).1.Pass?));
  }

  lemma UpgradeWithLegacyFrame(s: ClusterState, c: KEVersionController, version: string, legacy: Document)
    ensures var t := UpgradeWithLegacy(s, c, version, legacy).0;
            Extends(s, t) && t.controllers == s.controllers && t.dynamic == s.dynamic && t.crds == s.crds
  {
    var ns := c.meta.namespace;
    var (s1, current) := s.GetEventing(Key(ns, CRName));
    var e := if current.Success? then current.value else Skeleton(ns);
    GetEventingStep(s, Key(ns, CRName));
    UpgradeUpdateFrame(s1, ns, e);
    WriteEventingStep(s1, Create, ns, e);
    ExtendsTransitive(s, s1, UpgradeUpdate(s1, ns, e).0);
    ExtendsTransitive(s, s1, s1.WriteEventing(Create, ns, e).0);
  }

  lemma UpgradeWithLegacyKeepsOrder(s: ClusterState, c: KEVersionController, version: string, legacy: Document)
    requires StatusBeforeSpec(s.calls)
    ensures StatusBeforeSpec(UpgradeWithLegacy(s, c, version, legacy).0.calls)
  {
    var ns := c.meta.namespace;
    var k := Key(ns, CRName);
    var (s1, current) := s.GetEventing(k);
    var e := if current.Success? then current.value else Skeleton(ns);
    GetEventingStep(s, k);
    AppendKeepsStatusBeforeSpec(s.calls, Call(KnativeEventings, Get, k, current.Success?));
    UpgradeUpdateKeepsOrder(s1, ns, e);
    WriteEventingStep(s1, Create, ns, e);
    AppendKeepsStatusBeforeSpec(s1.calls, Call(KnativeEventings, Create, Key(ns, e.meta.name), s1.WriteEventing(Create, ns, e).1.Pass?));
  }

  lemma UpgradeFrame(s: ClusterState, c: KEVersionController, version: string)
    ensures var t := UpgradeEffect(s, c, version).0;
            Extends(s, t) && t.controllers == s.controllers && t.dynamic == s.dynamic && t.crds == s.crds
  {
    var gvr := GetOldGroupVersionResource(c.spec.sourceVersion);
    var k := Key(c.meta.namespace, CRName);
    var (s1, legacy) := s.GetDynamic(gvr, k);
    var d := if legacy.Success? then legacy.value else EmptyDocument;
    GetDynamicStep(s, gvr, k);
    UpgradeWithLegacyFrame(s1, c, version, d);
    ExtendsTransitive(s, s1, UpgradeWithLegacy(s1, c, version, d).0);
  }

  lemma UpgradeKeepsOrder(s: ClusterState, c: KEVersionController, version: string)
    requires StatusBeforeSpec(s.calls)
    ensures StatusBeforeSpec(UpgradeEffect(s, c, version).0.calls)
  {
    var gvr := GetOldGroupVersionResource(c.spec.sourceVersion);
    var k := Key(c.meta.namespace, CRName);
    var (s1, legacy) := s.GetDynamic(gvr, k);
    var d := if legacy.Success? then legacy.value else EmptyDocument;
    GetDynamicStep(s, gvr, k);
    AppendKeepsStatusBeforeSpec(s.calls, Call(Dynamic(gvr), Get, k, legacy.Success?));
    UpgradeWithLegacyKeepsOrder(s1, c, version, d);
  }

  lemma InstallOldCRDFrame(s: ClusterState, version: string)
    ensures var t := InstallOldCRDEffect(s, version).0;
            && Extends(s, t) && t.controllers == s.controllers && t.eventings == s.eventings && t.dynamic == s.dynamic
            && t.calls == s.calls + [Call(CustomResourceDefinitions, Create, Key("", FullCRDName), s.CreateCRD(LegacyCRD).1.Pass?)]
  {
    CreateCRDStep(s, LegacyCRD);
  }

  lemma InstallOldCRDKeepsOrder(s: ClusterState, version: string)
    requires StatusBeforeSpec(s.calls)
    ensures StatusBeforeSpec(InstallOldCRDEffect(s, version).0.calls)
  {
    CreateCRDStep(s, LegacyCRD);
    AppendKeepsStatusBeforeSpec(s.calls, Call(CustomResourceDefinitions, Create, Key("", FullCRDName), s.CreateCRD(LegacyCRD).1.Pass?));
  }

  lemma WriteLegacyFrame(s: ClusterState, ns: string, tv: string, plural: GVR, target: Document)
    ensures var t := WriteLegacy(s, ns, tv, plural, target).0;
            Extends(s, t) && t.controllers == s.controllers && t.eventings == s.eventings
  {
    var k := Key(ns, target.meta.name);
    var (s1, existing) := s.GetDynamic(plural, k);
    var withRv := SetResourceVersion(target, if existing.Success? then existing.value.meta.resourceVersion else "");
    var s2 := s1.WriteDynamic(UpdateStatus, plural, ns, withRv).0;
    var s3 := s2.WriteDynamic(Update, plural, ns, withRv).0;
    var i1 := InstallOldCRDEffect(s1, tv).0;
    var c2 := i1.WriteDynamic(Create, plural, ns, target).0;
    GetDynamicStep(s, plural, k);
    WriteDynamicStep(s1, UpdateStatus, plural, ns, withRv);
    WriteDynamicStep(s2, Update, plural, ns, withRv);
    InstallOldCRDFrame(s1, tv);
    WriteDynamicStep(i1, Create, plural, ns, target);
    ExtendsTransitive(s, s1, s2);
    ExtendsTransitive(s, s2, s3);
    ExtendsTransitive(s, s1, i1);
    ExtendsTransitive(s, i1, c2);
  }

  lemma WriteLegacyKeepsOrder(s: ClusterState, ns: string, tv: string, plural: GVR, target: Document)
    requires StatusBeforeSpec(s.calls)
    ensures StatusBeforeSpec(WriteLegacy(s, ns, tv, plural, target).0.calls)
  {
    var k := Key(ns, target.meta.name);
    var (s1, existing) := s.GetDynamic(plural, k);
    var withRv := SetResourceVersion(target, if existing.Success? then existing.value.meta.resourceVersion else "");
    var (s2, st) := s1.WriteDynamic(UpdateStatus, plural, ns, withRv);
    var i1 := InstallOldCRDEffect(s1, tv).0;
    GetDynamicStep(s, plural, k);
    WriteDynamicStep(s1, UpdateStatus, plural, ns, withRv);
    WriteDynamicStep(s2, Update, plural, ns, withRv);
    InstallOldCRDFrame(s1, tv);
    WriteDynamicStep(i1, Create, plural, ns, target);
    AppendKeepsStatusBeforeSpec(s.calls, Call(Dynamic(plural), Get, k, existing.Success?));
    AppendKeepsStatusBeforeSpec(s1.calls, Call(Dynamic(plural), UpdateStatus, k, st.Pass?));
    AppendKeepsStatusBeforeSpec(s2.calls, Call(Dynamic(plural), Update, k, s2.WriteDynamic(Update, plural, ns, withRv).1.Pass?));
    InstallOldCRDKeepsOrder(s1, tv);
    AppendKeepsStatusBeforeSpec(i1.calls, Call(Dynamic(plural), Create, k, i1.WriteDynamic(Create, plural, ns, target).1.Pass?));
  }

  lemma DowngradeWithCurrentFrame(s: ClusterState, c: KEVersionController, current: KnativeEventing, codec: CodecFaults)
    ensures var t := DowngradeWithCurrent(s, c, current, codec).0;
            Extends(s, t) && t.controllers == s.controllers && t.eventings == s.eventings
  {
    var tv := c.spec.targetVersion;
    var converted := DowngradeCRResult(tv, current, codec);
    var d := if converted.Success? then converted.value else Downgraded(None, EmptyGVR);
    var target := if d.content.Some? then d.content.value else EmptyDocument;
    var s1 := InstallOldCRDEffect(s, tv).0;
    InstallOldCRDFrame(s, tv);
    WriteLegacyFrame(s1, c.meta.namespace, tv, d.resource, target);
    ExtendsTransitive(s, s1, WriteLegacy(s1, c.meta.namespace, tv, d.resource, target).0);
  }

  lemma DowngradeWithCurrentKeepsOrder(s: ClusterState, c: KEVersionController, current: KnativeEventing, codec: CodecFaults)
    requires StatusBeforeSpec(s.calls)
    ensures StatusBeforeSpec(DowngradeWithCurrent(s, c, current, codec).0.calls)
  {
    var tv := c.spec.targetVersion;
    var converted := DowngradeCRResult(tv, current, codec);
    var d := if converted.Success? then converted.value else Downgraded(None, EmptyGVR);
    var target := if d.content.Some? then d.content.value else EmptyDocument;
    InstallOldCRDKeepsOrder(s, tv);
    WriteLegacyKeepsOrder(InstallOldCRDEffect(s, tv).0, c.meta.namespace, tv, d.resource, target);
  }

  lemma DowngradeFrame(s: ClusterState, c: KEVersionController, codec: CodecFaults)
    ensures var t := DowngradeEffect(s, c, codec).0;
            Extends(s, t) && t.controllers == s.controllers && t.eventings == s.eventings
  {
    var k := Key(c.meta.namespace, CRName);
    var (s1, current) := s.GetEventing(k);
    var e := if current.Success? then current.value else Skeleton(c.meta.namespace);
    GetEventingStep(s, k);
    DowngradeWithCurrentFrame(s1, c, e, codec);
    ExtendsTransitive(s, s1, DowngradeWithCurrent(s1, c, e, codec).0);
  }

  lemma DowngradeKeepsOrder(s: ClusterState, c: KEVersionController, codec: CodecFaults)
    requires StatusBeforeSpec(s.calls)
    ensures StatusBeforeSpec(DowngradeEffect(s, c, codec).0.calls)
  {
    var k := Key(c.meta.namespace, CRName);
    var (s1, current) := s.GetEventing(k);
    var e := if current.Success? then current.value else Skeleton(c.meta.namespace);
    GetEventingStep(s, k);
    AppendKeepsStatusBeforeSpec(s.calls, Call(KnativeEventings, Get, k, current.Success?));
    DowngradeWithCurrentKeepsOrder(s1, c, e, codec);
  }

  /** `reconcile` only appends to the log, keeps the injected faults and never
      writes a KEVersionController. */
  lemma MigrateFrame(s: ClusterState, c: KEVersionController, version: string, codec: CodecFaults)
    ensures var t := MigrateEffect(s, c, version, codec).0;
            Extends(s, t) && t.controllers == s.controllers
  {
    UpgradeFrame(s, c, version);
    DowngradeFrame(s, c, codec);
  }

  /** `reconcile` keeps the status-before-spec discipline of the log. */
  lemma MigrateKeepsOrder(s: ClusterState, c: KEVersionController, version: string, codec: CodecFaults)
    requires StatusBeforeSpec(s.calls)
    ensures StatusBeforeSpec(MigrateEffect(s, c, version, codec).0.calls)
  {
    UpgradeKeepsOrder(s, c, version);
    DowngradeKeepsOrder(s, c, codec);
  }

  /** A key that does not split is dropped without a single call. */
  lemma ReconcileUnsplittableKey(s: ClusterState, key: string, version: string, codec: CodecFaults)
    requires SplitMetaNamespaceKey(key).Failure?
    ensures ReconcileEffect(s, key, version, codec) == (s, Pass)
  {
  }

  /** A missing KEVersionController ends the reconcile after the one read,
      with success and no write. */
  lemma ReconcileMissingController(s: ClusterState, key: string, version: string, codec: CodecFaults)
    requires SplitMetaNamespaceKey(key).Success?
    requires Key(SplitMetaNamespaceKey(key).value.0, SplitMetaNamespaceKey(key).value.1) !in s.controllers
    requires (VersionControllers, Get) !in s.faults
    ensures ReconcileEffect(s, key, version, codec) ==
              (s.Record(VersionControllers, Get, Key(SplitMetaNamespaceKey(key).value.0, SplitMetaNamespaceKey(key).value.1), false), Pass)
  {
  }

  /** A target equal to the operator's version, or empty, upgrades; a downgrade
      target is below the operator's version in Go's string order. */
  lemma RouteFacts(spec: VersionControllerSpec, version: string)
    ensures Route(spec, version) == DowngradePath ==> LexLess(spec.targetVersion, version) && !LexLess(version, spec.targetVersion)
    ensures spec.targetVersion != "" && LexLess(version, spec.targetVersion) ==> Route(spec, version) == UnsupportedPath
  {
    LexLessAsymmetric(spec.targetVersion, version);
    LexLessAsymmetric(version, spec.targetVersion);
    LexLessIrreflexive(version);
  }

  /** The order is the order of strings, not of versions: with operator
      version 0.11.0, target 0.10.0 is a downgrade but target 0.9.0 is refused. */
  lemma RouteComparesStrings()
    ensures Route(VersionControllerSpec("", "0.10.0"), "0.11.0") == DowngradePath
    ensures Route(VersionControllerSpec("", "0.9.0"), "0.11.0") == UnsupportedPath
  {
    assert LexLess("0.10.0", "0.11.0") by {
      LexLessCommonPrefix("0.1", "0.0", "1.0");
      assert "0.10.0" == "0.1" + "0.0" && "0.11.0" == "0.1" + "1.0";
    }
    assert !LexLess("0.9.0", "0.11.0") by {
      LexLessCommonPrefix("0.", "9.0", "11.0");
      assert "0.9.0" == "0." + "9.0" && "0.11.0" == "0." + "11.0";
    }
  }

  /** An unsupported request is refused without a single call. */
  lemma MigrateUnsupported(s: ClusterState, c: KEVersionController, version: string, codec: CodecFaults)
    requires Route(c.spec, version) == UnsupportedPath
    ensures MigrateEffect(s, c, version, codec) ==
              (s, Fail(Failed(UnsupportedTarget + c.spec.targetVersion + NotSupported)))
  {
  }

  /** Upgrading without a legacy CR succeeds after the one read. */
  lemma UpgradeAbsentLegacy(s: ClusterState, c: KEVersionController, version: string)
    requires (Dynamic(LegacyGVR), Get) !in s.faults
    requires !s.Serves(LegacyGVR) || (LegacyGVR, Key(c.meta.namespace, CRName)) !in s.dynamic
    ensures UpgradeEffect(s, c, version) == (s.Record(Dynamic(LegacyGVR), Get, Key(c.meta.namespace, CRName), false), Pass)
  {
  }

  /** Status and spec updates write back the object as it was read. */
  lemma UpgradeUpdateEventings(s: ClusterState, ns: string, e: KnativeEventing)
    ensures var t := UpgradeUpdate(s, ns, e).0;
            t.eventings == s.eventings || t.eventings == s.eventings[Key(ns, e.meta.name) := e]
  {
  }

  lemma UpgradeWithLegacyEventings(s: ClusterState, c: KEVersionController, version: string, legacy: Document)
    requires WellKeyed(s)
    ensures var t := UpgradeWithLegacy(s, c, version, legacy).0;
            var k := Key(c.meta.namespace, CRName);
            t.eventings == s.eventings || (k !in s.eventings && t.eventings == s.eventings[k := Skeleton(c.meta.namespace)])
  {
    var ns := c.meta.namespace;
    var k := Key(ns, CRName);
    var (s1, current) := s.GetEventing(k);
    var e := if current.Success? then current.value else Skeleton(ns);
    GetEventingStep(s, k);
    UpgradeUpdateEventings(s1, ns, e);
    WriteEventingStep(s1, Create, ns, e);
    StoreUnchanged(s.eventings, k, e);
    assert current.Success? ==> Key(ns, e.meta.name) == k;
  }

  /** The upgrade never changes a KnativeEventing that exists: the only store
      change it can make is the creation of the skeleton CR. */
  lemma UpgradeStoreEffect(s: ClusterState, c: KEVersionController, version: string)
    requires WellKeyed(s)
    ensures var t := UpgradeEffect(s, c, version).0;
            && t.controllers == s.controllers && t.dynamic == s.dynamic && t.crds == s.crds
            && (t.eventings == s.eventings ||
                (Key(c.meta.namespace, CRName) !in s.eventings &&
                 t.eventings == s.eventings[Key(c.meta.namespace, CRName) := Skeleton(c.meta.namespace)]))
  {
    var gvr := GetOldGroupVersionResource(c.spec.sourceVersion);
    var (s1, legacy) := s.GetDynamic(gvr, Key(c.meta.namespace, CRName));
    GetDynamicStep(s, gvr, Key(c.meta.namespace, CRName));
    UpgradeFrame(s, c, version);
    UpgradeWithLegacyEventings(s1, c, version, if legacy.Success? then legacy.value else EmptyDocument);
  }

  /** Upgrading onto a missing current CR issues exactly one Create, of the
      skeleton named knative-eventing in the controller's namespace. */
  lemma UpgradeCreatesSkeleton(s: ClusterState, c: KEVersionController, version: string)
    requires (Dynamic(LegacyGVR), Get) !in s.faults && (KnativeEventings, Get) !in s.faults && (KnativeEventings, Create) !in s.faults
    requires s.Serves(LegacyGVR) && (LegacyGVR, Key(c.meta.namespace, CRName)) in s.dynamic
    requires Key(c.meta.namespace, CRName) !in s.eventings
    requires UpgradeCR(c.spec.sourceVersion, version, s.dynamic[(LegacyGVR, Key(c.meta.namespace, CRName))], Skeleton(c.meta.namespace)).Pass?
    ensures var k := Key(c.meta.namespace, CRName);
            UpgradeEffect(s, c, version) ==
              (s.(eventings := s.eventings[k := Skeleton(c.meta.namespace)],
                  calls := s.calls + [Call(Dynamic(LegacyGVR), Get, k, true), Call(KnativeEventings, Get, k, false),
                                      Call(KnativeEventings, Create, k, true)]),
               Pass)
  {
    var ns := c.meta.namespace;
    var k := Key(ns, CRName);
    var gvr := GetOldGroupVersionResource(c.spec.sourceVersion);
    var s1 := s.GetDynamic(gvr, k).0;
    var s2 := s1.GetEventing(k).0;
    GetDynamicStep(s, gvr, k);
    GetEventingStep(s1, k);
    WriteEventingStep(s2, Create, ns, Skeleton(ns));
    AppendThree(s.calls, Call(Dynamic(LegacyGVR), Get, k, true), Call(KnativeEventings, Get, k, false),
                Call(KnativeEventings, Create, k, true));
  }

  /** Upgrading onto an existing current CR writes its status, then its spec,
      each time with the object as it was read. */
  lemma UpgradeUpdatesExisting(s: ClusterState, c: KEVersionController, version: string)
    requires (Dynamic(LegacyGVR), Get) !in s.faults && (KnativeEventings, Get) !in s.faults
    requires (KnativeEventings, UpdateStatus) !in s.faults && (KnativeEventings, Update) !in s.faults
    requires WellKeyed(s)
    requires s.Serves(LegacyGVR) && (LegacyGVR, Key(c.meta.namespace, CRName)) in s.dynamic
    requires Key(c.meta.namespace, CRName) in s.eventings
    requires UpgradeCR(c.spec.sourceVersion, version, s.dynamic[(LegacyGVR, Key(c.meta.namespace, CRName))],
                       s.eventings[Key(c.meta.namespace, CRName)]).Pass?
    ensures var k := Key(c.meta.namespace, CRName);
            UpgradeEffect(s, c, version) ==
              (s.(calls := s.calls + [Call(Dynamic(LegacyGVR), Get, k, true), Call(KnativeEventings, Get, k, true),
                                      Call(KnativeEventings, UpdateStatus, k, true), Call(KnativeEventings, Update, k, true)]),
               Pass)
  {
    var ns := c.meta.namespace;
    var k := Key(ns, CRName);
    var gvr := GetOldGroupVersionResource(c.spec.sourceVersion);
    var e := s.eventings[k];
    var s1 := s.GetDynamic(gvr, k).0;
    var s2 := s1.GetEventing(k).0;
    var s3 := s2.WriteEventing(UpdateStatus, ns, e).0;
    GetDynamicStep(s, gvr, k);
    GetEventingStep(s1, k);
    WriteEventingStep(s2, UpdateStatus, ns, e);
    WriteEventingStep(s3, Update, ns, e);
    AppendFour(s.calls, Call(Dynamic(LegacyGVR), Get, k, true), Call(KnativeEventings, Get, k, true),
               Call(KnativeEventings, UpdateStatus, k, true), Call(KnativeEventings, Update, k, true));
    assert Key(ns, e.meta.name) == k;
    StoreUnchanged(s.eventings, k, e);
  }

  /** Downgrading without a current CR succeeds after the one read. */
  lemma DowngradeAbsentCurrent(s: ClusterState, c: KEVersionController, codec: CodecFaults)
    requires Key(c.meta.namespace, CRName) !in s.eventings && (KnativeEventings, Get) !in s.faults
    ensures DowngradeEffect(s, c, codec) == (s.Record(KnativeEventings, Get, Key(c.meta.namespace, CRName), false), Pass)
  {
  }

  /** A conversion failure aborts the downgrade before any write. */
  lemma DowngradeConversionFailure(s: ClusterState, c: KEVersionController, codec: CodecFaults)
    requires Key(c.meta.namespace, CRName) in s.eventings && (KnativeEventings, Get) !in s.faults
    requires DowngradeCRResult(c.spec.targetVersion, s.eventings[Key(c.meta.namespace, CRName)], codec).Failure?
    ensures DowngradeEffect(s, c, codec) ==
              (s.Record(KnativeEventings, Get, Key(c.meta.namespace, CRName), true), Fail(Failed(DowngradeFailed)))
  {
  }

  /** After the read, the first call of a downgrade creates the legacy CRD. */
  lemma DowngradeWithCurrentFirstCall(s: ClusterState, c: KEVersionController, current: KnativeEventing, codec: CodecFaults)
    ensures var t := DowngradeWithCurrent(s, c, current, codec).0;
            && Extends(s, t)
            && (|t.calls| > |s.calls| ==>
                  t.calls[|s.calls|].resource == CustomResourceDefinitions && t.calls[|s.calls|].verb == Create)
  {
    var ns := c.meta.namespace;
    var tv := c.spec.targetVersion;
    DowngradeWithCurrentFrame(s, c, current, codec);
    var converted := DowngradeCRResult(tv, current, codec);
    if converted.Success? {
      var target := if converted.value.content.Some? then converted.value.content.value else EmptyDocument;
      var (s1, installed) := InstallOldCRDEffect(s, tv);
      assert s1.calls == s.calls + [Call(CustomResourceDefinitions, Create, Key("", FullCRDName), s.CreateCRD(LegacyCRD).1.Pass?)];
      if installed.Pass? {
        WriteLegacyFrame(s1, ns, tv, converted.value.resource, target);
        PrefixAt(s1.calls, WriteLegacy(s1, ns, tv, converted.value.resource, target).0.calls, |s.calls|);
      }
    }
  }

  /** The first call of a downgrade reads the current CR, and the second, if
      there is one, creates the legacy CRD. */
  lemma DowngradeFirstCalls(s: ClusterState, c: KEVersionController, codec: CodecFaults)
    ensures var t := DowngradeEffect(s, c, codec).0;
            && |t.calls| > |s.calls|
            && t.calls[|s.calls|].resource == KnativeEventings && t.calls[|s.calls|].verb == Get
            && (|t.calls| > |s.calls| + 1 ==>
                  t.calls[|s.calls| + 1].resource == CustomResourceDefinitions && t.calls[|s.calls| + 1].verb == Create)
  {
    var k := Key(c.meta.namespace, CRName);
    var (s1, current) := s.GetEventing(k);
    assert s1.calls == s.calls + [Call(KnativeEventings, Get, k, current.Success?)];
    if current.Success? {
      DowngradeWithCurrentFirstCall(s1, c, current.value, codec);
      PrefixAt(s1.calls, DowngradeWithCurrent(s1, c, current.value, codec).0.calls, |s.calls|);
    }
  }

  /** In a downgrade, the legacy CRD is installed before any call on a legacy
      resource. */
  lemma DowngradeInstallsCRDFirst(s: ClusterState, c: KEVersionController, codec: CodecFaults)
    ensures var t := DowngradeEffect(s, c, codec).0;
            && Extends(s, t)
            && forall i :: |s.calls| <= i < |t.calls| && t.calls[i].resource.Dynamic? ==>
                 |s.calls| + 2 <= i &&
                 t.calls[|s.calls| + 1].resource == CustomResourceDefinitions && t.calls[|s.calls| + 1].verb == Create
  {
    DowngradeFrame(s, c, codec);
    DowngradeFirstCalls(s, c, codec);
    var t := DowngradeEffect(s, c, codec).0;
    SecondCallFirst(|s.calls|, t.calls);
  }

  lemma SecondCallFirst(n: nat, calls: seq<Call>)
    requires n < |calls| && !calls[n].resource.Dynamic?
    requires |calls| > n + 1 ==> calls[n + 1].resource == CustomResourceDefinitions && calls[n + 1].verb == Create
    ensures forall i :: n <= i < |calls| && calls[i].resource.Dynamic? ==>
              n + 2 <= i && calls[n + 1].resource == CustomResourceDefinitions && calls[n + 1].verb == Create
  {
  }

  /** With the legacy CRD installed and no faults, writing onto an existing
      legacy object updates status, then spec, with the stored
      resourceVersion. */
  lemma WriteLegacyOntoExisting(s: ClusterState, ns: string, tv: string, target: Document)
    requires (Dynamic(LegacyGVR), Get) !in s.faults && (Dynamic(LegacyGVR), UpdateStatus) !in s.faults
    requires (Dynamic(LegacyGVR), Update) !in s.faults
    requires FullCRDName in s.crds && s.crds[FullCRDName] == LegacyCRD
    requires (LegacyGVR, Key(ns, target.meta.name)) in s.dynamic
    ensures var k := Key(ns, target.meta.name);
            var written := SetResourceVersion(target, s.dynamic[(LegacyGVR, k)].meta.resourceVersion);
            WriteLegacy(s, ns, tv, LegacyGVR, target) ==
              (s.(dynamic := s.dynamic[(LegacyGVR, k) := written],
                  calls := s.calls + [Call(Dynamic(LegacyGVR), Get, k, true), Call(Dynamic(LegacyGVR), UpdateStatus, k, true),
                                      Call(Dynamic(LegacyGVR), Update, k, true)]),
               Pass)
  {
    var k := Key(ns, target.meta.name);
    var written := SetResourceVersion(target, s.dynamic[(LegacyGVR, k)].meta.resourceVersion);
    var s1 := s.GetDynamic(LegacyGVR, k).0;
    var s2 := s1.WriteDynamic(UpdateStatus, LegacyGVR, ns, written).0;
    LegacyCRDServesOldResource(s, tv);
    GetDynamicStep(s, LegacyGVR, k);
    WriteDynamicStep(s1, UpdateStatus, LegacyGVR, ns, written);
    WriteDynamicStep(s2, Update, LegacyGVR, ns, written);
    AppendThree(s.calls, Call(Dynamic(LegacyGVR), Get, k, true), Call(Dynamic(LegacyGVR), UpdateStatus, k, true),
                Call(Dynamic(LegacyGVR), Update, k, true));
    StoreTwice(s.dynamic, (LegacyGVR, k), written);
  }

  /** With the legacy CRD installed and no faults, writing where no legacy
      object exists re-installs the CRD (AlreadyExists, which passes) and
      creates the object. */
  lemma WriteLegacyCreates(s: ClusterState, ns: string, tv: string, target: Document)
    requires (Dynamic(LegacyGVR), Get) !in s.faults && (CustomResourceDefinitions, Create) !in s.faults
    requires (Dynamic(LegacyGVR), Create) !in s.faults
    requires FullCRDName in s.crds && s.crds[FullCRDName] == LegacyCRD
    requires (LegacyGVR, Key(ns, target.meta.name)) !in s.dynamic
    ensures var k := Key(ns, target.meta.name);
            WriteLegacy(s, ns, tv, LegacyGVR, target) ==
              (s.(dynamic := s.dynamic[(LegacyGVR, k) := target],
                  calls := s.calls + [Call(Dynamic(LegacyGVR), Get, k, false), Call(CustomResourceDefinitions, Create, Key("", FullCRDName), false),
                                      Call(Dynamic(LegacyGVR), Create, k, true)]),
               Pass)
  {
    var k := Key(ns, target.meta.name);
    var s1 := s.GetDynamic(LegacyGVR, k).0;
    var s2 := InstallOldCRDEffect(s1, tv).0;
    LegacyCRDServesOldResource(s, tv);
    GetDynamicStep(s, LegacyGVR, k);
    CreateCRDStep(s1, LegacyCRD);
    LegacyCRDServesOldResource(s2, tv);
    WriteDynamicStep(s2, Create, LegacyGVR, ns, target);
    AppendThree(s.calls, Call(Dynamic(LegacyGVR), Get, k, false), Call(CustomResourceDefinitions, Create, Key("", FullCRDName), false),
                Call(Dynamic(LegacyGVR), Create, k, true));
  }

  /** A convertible KnativeEventing read in the controller's namespace, with
      no faults: the CRD is installed and the legacy object written. */
  lemma DowngradeWithCurrentInstalls(s: ClusterState, c: KEVersionController, current: KnativeEventing, codec: CodecFaults)
    requires (CustomResourceDefinitions, Create) !in s.faults && !codec.encodeFails && c.spec.targetVersion == "0.10.0"
    requires current.spec == EmptySpec && current.meta.namespace == c.meta.namespace
    ensures DowngradeWithCurrent(s, c, current, codec) ==
              WriteLegacy(InstallOldCRDEffect(s, c.spec.targetVersion).0, c.meta.namespace, c.spec.targetVersion,
                          LegacyGVR, LegacyDocument(c.meta.namespace))
  {
    GuessLegacyResource();
    CreateCRDStep(s, LegacyCRD);
  }

  /** With no faults and the KnativeEventing present, the downgrade goes on
      from the object it read in the controller's namespace. */
  lemma DowngradeReadsCurrent(s: ClusterState, c: KEVersionController, codec: CodecFaults)
    requires s.faults == map[] && WellKeyed(s) && Key(c.meta.namespace, CRName) in s.eventings
    ensures var k := Key(c.meta.namespace, CRName);
            && s.eventings[k].meta.namespace == c.meta.namespace
            && DowngradeEffect(s, c, codec) ==
                 DowngradeWithCurrent(s.(calls := s.calls + [Call(KnativeEventings, Get, k, true)]), c, s.eventings[k], codec)
  {
    GetEventingStep(s, Key(c.meta.namespace, CRName));
  }

  /** A successful downgrade onto an existing legacy CR replaces it with the
      converted object carrying the stored resourceVersion, writing status
      before spec. This rests on the fake cluster serving the legacy resource
      as soon as its CRD is registered. */
  lemma DowngradeOntoExistingLegacy(s: ClusterState, c: KEVersionController, codec: CodecFaults)
    requires s.faults == map[] && WellKeyed(s) && !codec.encodeFails && c.spec.targetVersion == "0.10.0"
    requires Key(c.meta.namespace, CRName) in s.eventings && s.eventings[Key(c.meta.namespace, CRName)].spec == EmptySpec
    requires LegacyRegistry(s) && FullCRDName in s.crds
    requires (LegacyGVR, Key(c.meta.namespace, CRName)) in s.dynamic
    ensures var k := Key(c.meta.namespace, CRName);
            var written := SetResourceVersion(LegacyDocument(c.meta.namespace), s.dynamic[(LegacyGVR, k)].meta.resourceVersion);
            DowngradeEffect(s, c, codec) ==
              (s.(dynamic := s.dynamic[(LegacyGVR, k) := written],
                  calls := s.calls + [Call(KnativeEventings, Get, k, true), Call(CustomResourceDefinitions, Create, Key("", FullCRDName), false),
                                      Call(Dynamic(LegacyGVR), Get, k, true), Call(Dynamic(LegacyGVR), UpdateStatus, k, true),
                                      Call(Dynamic(LegacyGVR), Update, k, true)]),
               Pass)
  {
    var ns := c.meta.namespace;
    var k := Key(ns, CRName);
    var s1 := s.(calls := s.calls + [Call(KnativeEventings, Get, k, true)]);
    DowngradeReadsCurrent(s, c, codec);
    DowngradeWithCurrentInstalls(s1, c, s.eventings[k], codec);
    InstallOldCRDSucceeds(s1, c.spec.targetVersion);
    var s2 := InstallOldCRDEffect(s1, c.spec.targetVersion).0;
    AppendTwo(s.calls, Call(KnativeEventings, Get, k, true), Call(CustomResourceDefinitions, Create, Key("", FullCRDName), false));
    StoreUnchanged(s.crds, FullCRDName, LegacyCRD);
    assert s2 == s.(calls := s.calls + [Call(KnativeEventings, Get, k, true), Call(CustomResourceDefinitions, Create, Key("", FullCRDName), false)]);
    assert LegacyName == CRName;
    WriteLegacyOntoExisting(s2, ns, c.spec.targetVersion, LegacyDocument(ns));
    AppendTwoThree(s.calls, Call(KnativeEventings, Get, k, true), Call(CustomResourceDefinitions, Create, Key("", FullCRDName), false),
                   Call(Dynamic(LegacyGVR), Get, k, true), Call(Dynamic(LegacyGVR), UpdateStatus, k, true),
                   Call(Dynamic(LegacyGVR), Update, k, true));
  }

  /** A successful downgrade without a legacy CR installs the CRD and creates
      the converted object with a single Create. This rests on the fake
      cluster serving the legacy resource as soon as its CRD is created. */
  lemma DowngradeCreatesLegacy(s: ClusterState, c: KEVersionController, codec: CodecFaults)
    requires s.faults == map[] && WellKeyed(s) && !codec.encodeFails && c.spec.targetVersion == "0.10.0"
    requires Key(c.meta.namespace, CRName) in s.eventings && s.eventings[Key(c.meta.namespace, CRName)].spec == EmptySpec
    requires LegacyRegistry(s)
    requires (LegacyGVR, Key(c.meta.namespace, CRName)) !in s.dynamic
    ensures var k := Key(c.meta.namespace, CRName);
            var t := DowngradeEffect(s, c, codec);
            && t.1 == Pass
            && t.0.dynamic == s.dynamic[(LegacyGVR, k) := LegacyDocument(c.meta.namespace)]
            && t.0.crds == s.crds[FullCRDName := LegacyCRD]
            && t.0.calls == s.calls + [Call(KnativeEventings, Get, k, true),
                                       Call(CustomResourceDefinitions, Create, Key("", FullCRDName), FullCRDName !in s.crds),
                                       Call(Dynamic(LegacyGVR), Get, k, false),
                                       Call(CustomResourceDefinitions, Create, Key("", FullCRDName), false),
                                       Call(Dynamic(LegacyGVR), Create, k, true)]
  {
    var ns := c.meta.namespace;
    var k := Key(ns, CRName);
    var s1 := s.(calls := s.calls + [Call(KnativeEventings, Get, k, true)]);
    DowngradeReadsCurrent(s, c, codec);
    DowngradeWithCurrentInstalls(s1, c, s.eventings[k], codec);
    InstallOldCRDSucceeds(s1, c.spec.targetVersion);
    var s2 := InstallOldCRDEffect(s1, c.spec.targetVersion).0;
    AppendTwo(s.calls, Call(KnativeEventings, Get, k, true),
              Call(CustomResourceDefinitions, Create, Key("", FullCRDName), FullCRDName !in s.crds));
    assert s2.calls == s.calls + [Call(KnativeEventings, Get, k, true),
                                  Call(CustomResourceDefinitions, Create, Key("", FullCRDName), FullCRDName !in s.crds)];
    assert LegacyName == CRName;
    WriteLegacyCreates(s2, ns, c.spec.targetVersion, LegacyDocument(ns));
    AppendTwoThree(s.calls, Call(KnativeEventings, Get, k, true),
                   Call(CustomResourceDefinitions, Create, Key("", FullCRDName), FullCRDName !in s.crds),
                   Call(Dynamic(LegacyGVR), Get, k, false), Call(CustomResourceDefinitions, Create, Key("", FullCRDName), false),
                   Call(Dynamic(LegacyGVR), Create, k, true));
  }

  /** A downgrade to any target but 0.10.0 converts nothing, installs the CRD
      and then fails to create an object under the empty descriptor, which
      the fake cluster answers with NotFound when no CRD serves it. */
  lemma DowngradeOtherTargetFails(s: ClusterState, c: KEVersionController, codec: CodecFaults)
    requires s.faults == map[] && c.spec.targetVersion != "0.10.0"
    requires Key(c.meta.namespace, CRName) in s.eventings
    requires !s.Serves(EmptyGVR)
    ensures DowngradeEffect(s, c, codec).1 == Fail(Failed(LegacyCreateFailed + c.spec.targetVersion + Period))
    ensures DowngradeEffect(s, c, codec).0.dynamic == s.dynamic
  {
    var ns := c.meta.namespace;
    var tv := c.spec.targetVersion;
    var k := Key(ns, CRName);
    var s1 := s.Record(KnativeEventings, Get, k, true);
    assert s.GetEventing(k) == (s1, Success(s.eventings[k]));
    assert DowngradeCRResult(tv, s.eventings[k], codec) == Success(Downgraded(None, EmptyGVR));
    var (s2, installed) := InstallOldCRDEffect(s1, tv);
    assert installed == Pass;
    assert s2.dynamic == s.dynamic;
    assert !s2.Serves(EmptyGVR) by {
      assert LegacyCRD.group != EmptyGVR.group;
      assert forall name :: name in s2.crds ==> name == FullCRDName || (name in s.crds && s2.crds[name] == s.crds[name]);
    }
    var ek := Key(ns, EmptyDocument.meta.name);
    var s3 := s2.Record(Dynamic(EmptyGVR), Get, ek, false);
    assert s2.GetDynamic(EmptyGVR, ek) == (s3, Failure(NotFound));
    var (s4, again) := InstallOldCRDEffect(s3, tv);
    assert again == Pass && s4.dynamic == s.dynamic && s4.crds == s2.crds;
    var s5 := s4.Record(Dynamic(EmptyGVR), Create, ek, false);
    assert s4.WriteDynamic(Create, EmptyGVR, ns, EmptyDocument) == (s5, Fail(NotFound));
    assert WriteLegacy(s2, ns, tv, EmptyGVR, EmptyDocument) == (s5, Fail(Failed(LegacyCreateFailed + tv + Period)));
  }

  /** `updateStatus` does not write when the live status is already the
      desired one. */
  lemma UpdateStatusSkipsEqual(s: ClusterState, desired: KEVersionController)
    requires Key(desired.meta.namespace, desired.meta.name) in s.controllers && (VersionControllers, Get) !in s.faults
    requires s.controllers[Key(desired.meta.namespace, desired.meta.name)].status == desired.status
    ensures UpdateStatusEffect(s, desired) ==
              (s.Record(VersionControllers, Get, Key(desired.meta.namespace, desired.meta.name), true),
               Success(s.controllers[Key(desired.meta.namespace, desired.meta.name)]))
  {
  }

  /** Otherwise it stores the live object with the desired status. */
  lemma UpdateStatusWritesDesired(s: ClusterState, desired: KEVersionController)
    requires WellKeyed(s)
    requires Key(desired.meta.namespace, desired.meta.name) in s.controllers
    requires (VersionControllers, Get) !in s.faults && (VersionControllers, UpdateStatus) !in s.faults
    requires s.controllers[Key(desired.meta.namespace, desired.meta.name)].status != desired.status
    ensures var k := Key(desired.meta.namespace, desired.meta.name);
            var updated := s.controllers[k].(status := desired.status);
            UpdateStatusEffect(s, desired).1 == Success(updated) &&
            UpdateStatusEffect(s, desired).0.controllers == s.controllers[k := updated]
  {
  }

  /** The status is written back only when it changed, and a failed status
      write is returned in preference to the reconcile error. */
  lemma WriteBackFacts(s: ClusterState, original: KEVersionController, desired: KEVersionController, reconcileErr: Outcome)
    ensures original.status == desired.status ==> WriteBackEffect(s, original, desired, reconcileErr) == (s, reconcileErr)
    ensures original.status != desired.status && UpdateStatusEffect(s, desired).1.Failure? ==>
              WriteBackEffect(s, original, desired, reconcileErr).1 == Fail(UpdateStatusEffect(s, desired).1.error)
    ensures original.status != desired.status && UpdateStatusEffect(s, desired).1.Success? ==>
              WriteBackEffect(s, original, desired, reconcileErr).1 == reconcileErr
  {
  }

  /** `reconcile` never changes the controller it is given, so Reconcile never
      writes a KEVersionController. */
  lemma ReconcileKeepsControllers(s: ClusterState, key: string, version: string, codec: CodecFaults)
    ensures ReconcileEffect(s, key, version, codec).0.controllers == s.controllers
  {
    var split := SplitMetaNamespaceKey(key);
    var k := if split.Success? then Key(split.value.0, split.value.1) else Key("", "");
    var (s1, original) := s.GetController(k);
    GetControllerStep(s, k);
    MigrateFrame(s1, if original.Success? then original.value else NoController, version, codec);
  }

  /** Every Update the reconciler issues comes right after a successful
      UpdateStatus of the same object. */
  lemma ReconcileStatusBeforeSpec(s: ClusterState, key: string, version: string, codec: CodecFaults)
    requires StatusBeforeSpec(s.calls)
    ensures StatusBeforeSpec(ReconcileEffect(s, key, version, codec).0.calls)
  {
    var split := SplitMetaNamespaceKey(key);
    var k := if split.Success? then Key(split.value.0, split.value.1) else Key("", "");
    var (s1, original) := s.GetController(k);
    GetControllerStep(s, k);
    AppendKeepsStatusBeforeSpec(s.calls, Call(VersionControllers, Get, k, original.Success?));
    MigrateKeepsOrder(s1, if original.Success? then original.value else NoController, version, codec);
  }
}
