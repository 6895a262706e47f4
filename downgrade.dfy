/** Downgrading the operator's custom resource to the 0.10.0 schema: the
    legacy object is built from the current one and written into a caller's
    unstructured.Unstructured. */
module Downgrade {
  import opened Types
  import opened OldSchema
  import opened Upgrade

  const NonEmptySpec := "The old CR is in bad format, since the spec is not empty."
  const NotConvertible := "The old CR can not be converted into unstructured.Unstructured."

  /** The name every legacy object carries. */
  const LegacyName := "knative-eventing"

  /** The legacy object Convert11To10 builds for a source in `namespace`: its
      name, namespace, kind, apiVersion and status version, and nothing else. */
  function LegacyDocument(namespace: string): Document {
    Document(LegacyAPIVersion, Kind, NamedMeta(LegacyName, namespace),
             Fields(EmptySpec, EventingStatus([], "0.10.0"), map[]))
  }

  /** What a conversion leaves behind: the content written into the target, if
      it was written at all, and the resource descriptor returned. */
  datatype Downgraded = Downgraded(content: Option<Document>, resource: GVR)

  /** Convert11To10 as a value: a non-empty spec is refused, then an encoding
      failure, and otherwise the legacy object and its descriptor. On every
      error the descriptor is empty and the target is not written. */
  function Convert11To10Result(source: KnativeEventing, codec: CodecFaults): Result<Downgraded> {
    if source.spec != EmptySpec then Failure(Failed(NonEmptySpec))
    else if codec.encodeFails then Failure(Failed(NotConvertible))
    else Success(Downgraded(Some(LegacyDocument(source.meta.namespace)), UnsafeGuessKindToResource(GroupName, SchemaVersion, Kind)))
  }

  /** DowngradeCR as a value: target "0.10.0" is converted; every other target
      matches `case targetVersion` and yields the empty descriptor with nothing
      written. */
  function DowngradeCRResult(targetVersion: string, source: KnativeEventing, codec: CodecFaults): Result<Downgraded> {
    if targetVersion == "0.10.0" then Convert11To10Result(source, codec)
    else Success(Downgraded(None, EmptyGVR))
  }

  /** Convert11To10: fills `target` in place on success. */
  method Convert11To10(source: KnativeEventing, target: Unstructured, codec: CodecFaults) returns (plural: GVR, err: Outcome)
    modifies target
    ensures var r := Convert11To10Result(source, codec);
            && (r.Success? ==> err == Pass && plural == r.value.resource && target.content == r.value.content.value)
            && (r.Failure? ==> err == Fail(r.error) && plural == EmptyGVR && target.content == old(target.content))
  {
    var oldEventing := LegacyDocument(source.meta.namespace);
    if source.spec != EmptySpec {
      return EmptyGVR, Fail(Failed(NonEmptySpec));
    }
    if codec.encodeFails {
      return EmptyGVR, Fail(Failed(NotConvertible));
    }
    target.content := oldEventing;
    plural := UnsafeGuessKindToResource(GroupName, SchemaVersion, Kind);
    err := Pass;
  }

  /** DowngradeCR: dispatches on the target version. */
  method DowngradeCR(targetVersion: string, source: KnativeEventing, target: Unstructured, codec: CodecFaults) returns (plural: GVR, err: Outcome)
    modifies target
    ensures var r := DowngradeCRResult(targetVersion, source, codec);
            r.Success? ==> err == Pass && plural == r.value.resource &&
                           target.content == (if r.value.content.Some? then r.value.content.value else old(target.content))
    ensures var r := DowngradeCRResult(targetVersion, source, codec);
            r.Failure? ==> err == Fail(r.error) && plural == EmptyGVR && target.content == old(target.content)
  {
    if targetVersion == "0.10.0" {
      plural, err := Convert11To10(source, target, codec);
    } else {
      plural, err := EmptyGVR, Pass;
    }
  }

  // ---------------------------------------------------------------------------
  // Properties

  /** A target other than 0.10.0 never fails and never writes the target. */
  lemma DowngradeOtherTarget(targetVersion: string, source: KnativeEventing, codec: CodecFaults)
    requires targetVersion != "0.10.0"
    ensures DowngradeCRResult(targetVersion, source, codec) == Success(Downgraded(None, EmptyGVR))
  {
  }

  /** The conversion succeeds exactly for an empty spec that can be encoded;
      its result is then the legacy object in the source's namespace, with
      name knative-eventing, kind Eventing, apiVersion
      operator.knative.dev/v1alpha1, status version 0.10.0, and the descriptor
      operator.knative.dev/v1alpha1/eventings. */
  lemma Convert11To10Facts(source: KnativeEventing, codec: CodecFaults)
    ensures Convert11To10Result(source, codec).Success? <==> source.spec == EmptySpec && !codec.encodeFails
    ensures source.spec != EmptySpec ==> Convert11To10Result(source, codec) == Failure(Failed(NonEmptySpec))
    ensures source.spec == EmptySpec && codec.encodeFails ==> Convert11To10Result(source, codec) == Failure(Failed(NotConvertible))
    ensures Convert11To10Result(source, codec).Success? ==>
              var d := Convert11To10Result(source, codec).value;
              && d.content.Some?
              && d.content.value.meta.name == "knative-eventing"
              && d.content.value.meta.namespace == source.meta.namespace
              && d.content.value.kind == "Eventing"
              && d.content.value.apiVersion == "operator.knative.dev/v1alpha1"
              && d.content.value.body.Fields?
              && d.content.value.body.status.version == "0.10.0"
              && d.resource == GVR("operator.knative.dev", "v1alpha1", "eventings")
  {
    GuessLegacyResource();
    LegacyAPIVersionIsGroupSlashVersion();
  }

  /** Nothing but the namespace reaches the legacy object: two sources in the
      same namespace with equal specs convert to the same result, whatever
      their conditions, versions, names and other metadata. */
  lemma Convert11To10CopiesOnlyNamespace(s1: KnativeEventing, s2: KnativeEventing, codec: CodecFaults)
    requires s1.meta.namespace == s2.meta.namespace
    requires s1.spec == s2.spec
    ensures Convert11To10Result(s1, codec) == Convert11To10Result(s2, codec)
    ensures Convert11To10Result(s1, codec).Success? ==>
              var d := Convert11To10Result(s1, codec).value.content.value;
              d.body.Fields? && d.body.status.conditions == [] && d.meta.labels == map[] &&
              d.meta.resourceVersion == "" && d.meta.creationTimestamp == None
  {
  }

  /** Round trip: the legacy object a downgrade produces is accepted by the
      upgrade conversion. */
  lemma DowngradeThenUpgrade(source: KnativeEventing, codec: CodecFaults, target: KnativeEventing)
    requires Convert11To10Result(source, codec).Success?
    ensures Convert10To11(Convert11To10Result(source, codec).value.content.value, target) == Pass
    ensures UpgradeCR("0.10.0", "0.11.0", Convert11To10Result(source, codec).value.content.value, target) == Pass
  {
  }
}
