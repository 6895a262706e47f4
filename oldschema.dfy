/** The 0.10.0 schema of the operator's custom resource: its fixed resource
    descriptor and the step that installs its CRD. */
module OldSchema {
  import opened Types
  import opened Cluster

  const GroupName := "operator.knative.dev"
  const SchemaVersion := "v1alpha1"
  const Kind := "Eventing"
  const CRDPlural := "eventings"
  const CRDListKind := "EventingList"
  const Singular := "eventing"
  const FullCRDName := CRDPlural + "." + GroupName

  /** The APIVersion string of the legacy schema, group/version. */
  const LegacyAPIVersion := GroupName + "/" + SchemaVersion

  /** strings.ToLower restricted to ASCII letters. */
  function ToLowerAscii(s: string): (r: string)
    ensures |r| == |s|
    ensures forall i :: 0 <= i < |s| ==> r[i] == if 'A' <= s[i] <= 'Z' then (s[i] - 'A' + 'a') else s[i]
  {
    if s == [] then []
    else [if 'A' <= s[0] <= 'Z' then (s[0] - 'A' + 'a') else s[0]] + ToLowerAscii(s[1..])
  }

  /** meta.UnsafeGuessKindToResource: the empty descriptor for an empty kind;
      otherwise the lower-cased kind, pluralised by its last letter ("s" takes
      "es", "y" becomes "ies", "endpoints" stays as it is, anything else takes
      "s"). */
  function UnsafeGuessKindToResource(group: string, version: string, kind: string): GVR {
    if kind == [] then EmptyGVR
    else
      var singular := ToLowerAscii(kind);
      var n := |singular|;
      if n >= 9 && singular[n - 9..] == "endpoints" then GVR(group, version, singular)
      else if singular[n - 1] == 's' then GVR(group, version, singular + "es")
      else if singular[n - 1] == 'y' then GVR(group, version, singular[..n - 1] + "ies")
      else GVR(group, version, singular + "s")
  }

  /** GetOldGroupVersionResource: the legacy descriptor, whatever the version. */
  function GetOldGroupVersionResource(version: string): (r: GVR)
    ensures r == GVR(GroupName, SchemaVersion, CRDPlural)
  {
    GuessLegacyResource();
    UnsafeGuessKindToResource(GroupName, SchemaVersion, Kind)
  }

  /** The guessed resource of the legacy kind is the plural the legacy CRD
      registers. */
  lemma GuessLegacyResource()
    ensures UnsafeGuessKindToResource(GroupName, SchemaVersion, Kind) == GVR(GroupName, SchemaVersion, CRDPlural)
  {
    LowerEventing();
  }

  lemma LowerEventing()
    ensures ToLowerAscii(Kind) == Singular
  {
    LowerOfLowercase(Kind[1..]);
    assert Kind[1..] == Singular[1..];
    assert ToLowerAscii(Kind) == ['e'] + ToLowerAscii(Kind[1..]);
  }

  /** A string without upper-case ASCII letters is its own lower case. */
  lemma {:induction false} LowerOfLowercase(s: string)
    requires forall i :: 0 <= i < |s| ==> !('A' <= s[i] <= 'Z')
    ensures ToLowerAscii(s) == s
  {
    if s != [] {
      LowerOfLowercase(s[1..]);
    }
  }


  /** The legacy CRD InstallOldCRD creates. */
  const LegacyCRD := CRD(FullCRDName, GroupName, SchemaVersion, NamespaceScoped, CRDPlural, Kind, CRDListKind, Singular)

  /** The state and result of InstallOldCRD: AlreadyExists counts as success,
      any other error is returned unchanged. */
  function InstallOldCRDEffect(s: ClusterState, version: string): (ClusterState, Outcome) {
    var (next, o) := s.CreateCRD(LegacyCRD);
    (next, if o == Fail(AlreadyExists) then Pass else o)
  }

  /** InstallOldCRD: creates the legacy CRD in the registry of `cluster`. */
  method InstallOldCRD(version: string, cluster: FakeCluster) returns (err: Outcome)
    modifies cluster
    ensures (cluster.state, err) == InstallOldCRDEffect(old(cluster.state), version)
  {
    err := cluster.CreateCRD(LegacyCRD);
    if err == Fail(AlreadyExists) {
      err := Pass;
    }
  }

  // ---------------------------------------------------------------------------
  // Properties

  /** The full CRD name is the plural, a dot and the group. */
  lemma FullCRDNameIsPluralDotGroup()
    ensures FullCRDName == "eventings.operator.knative.dev"
  {
  }

  /** The legacy apiVersion is the group, a slash and the version. */
  lemma LegacyAPIVersionIsGroupSlashVersion()
    ensures LegacyAPIVersion == "operator.knative.dev/v1alpha1"
  {
  }

  /** The installed CRD serves the legacy descriptor, for every version. */
  lemma LegacyCRDServesOldResource(s: ClusterState, version: string)
    requires FullCRDName in s.crds && s.crds[FullCRDName] == LegacyCRD
    ensures s.Serves(GetOldGroupVersionResource(version))
  {
    assert s.crds[FullCRDName].plural == GetOldGroupVersionResource(version).resource;
  }

  /** On a registry without the legacy CRD, InstallOldCRD adds exactly that
      namespaced CRD and succeeds, unless the create call itself fails, whose
      error is then returned unchanged; no other store changes. */
  lemma InstallOldCRDOnAbsent(s: ClusterState, version: string)
    requires FullCRDName !in s.crds
    ensures (CustomResourceDefinitions, Create) !in s.faults ==>
              InstallOldCRDEffect(s, version).1 == Pass &&
              InstallOldCRDEffect(s, version).0.crds == s.crds[FullCRDName := LegacyCRD]
    ensures (CustomResourceDefinitions, Create) in s.faults ==>
              InstallOldCRDEffect(s, version).1 == Fail(Failed(s.faults[(CustomResourceDefinitions, Create)])) &&
              InstallOldCRDEffect(s, version).0.crds == s.crds
    ensures LegacyCRD.scope == NamespaceScoped
    ensures InstallOldCRDEffect(s, version).0 ==
              s.(crds := InstallOldCRDEffect(s, version).0.crds,
                 calls := s.calls + [Call(CustomResourceDefinitions, Create, Key("", FullCRDName), InstallOldCRDEffect(s, version).1.Pass?)])
  {
  }

  /** With no create fault, on a registry whose legacy name is free or already
      holds the legacy CRD, InstallOldCRD succeeds and leaves the legacy CRD
      registered. */
  lemma InstallOldCRDSucceeds(s: ClusterState, version: string)
    requires (CustomResourceDefinitions, Create) !in s.faults
    requires FullCRDName in s.crds ==> s.crds[FullCRDName] == LegacyCRD
    ensures InstallOldCRDEffect(s, version) ==
              (s.(crds := s.crds[FullCRDName := LegacyCRD],
                  calls := s.calls + [Call(CustomResourceDefinitions, Create, Key("", FullCRDName), FullCRDName !in s.crds)]),
               Pass)
  {
    CreateCRDStep(s, LegacyCRD);
    StoreUnchanged(s.crds, FullCRDName, LegacyCRD);
  }

  /** Installing twice: once the first call succeeds, the second succeeds too
      and leaves the registry as the first left it. */
  lemma InstallOldCRDIdempotent(s: ClusterState, version: string, again: string)
    requires InstallOldCRDEffect(s, version).1 == Pass
    ensures InstallOldCRDEffect(InstallOldCRDEffect(s, version).0, again).1 == Pass
    ensures InstallOldCRDEffect(InstallOldCRDEffect(s, version).0, again).0.crds == InstallOldCRDEffect(s, version).0.crds
  {
    var first := InstallOldCRDEffect(s, version).0;
    assert (CustomResourceDefinitions, Create) !in s.faults;
    assert FullCRDName in first.crds;
  }

  /** The version argument has no effect. */
  lemma InstallOldCRDIgnoresVersion(s: ClusterState, v1: string, v2: string)
    ensures InstallOldCRDEffect(s, v1) == InstallOldCRDEffect(s, v2)
  {
  }
}
