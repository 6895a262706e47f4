/** The manifest transformer that writes the default broker class of a
    KnativeEventing into the config-br-defaults ConfigMap. The YAML it writes
    comes from a package-level table the transformer updates in place. */
module DefaultBroker {
  import opened Types

  const ChannelBasedBroker := "ChannelBasedBroker"

  // The keys of the shared table and of the ConfigMap's data.
  const ClusterDefault := "clusterDefault"
  const BrokerClassKey := "brokerClass"
  const DataKey := "default-br-config"

  // The ConfigMap the transformer rewrites.
  const ConfigMapKind := "ConfigMap"
  const DefaultsName := "config-br-defaults"

  // The codec errors; their texts come from libraries outside the model.
  const MarshalFailed := "yaml: marshal failed"
  const ConvertFailed := "scheme: conversion to unstructured failed"

  /** The table with the given broker class and its four fixed entries. */
  function TableWith(brokerClass: string): map<string, map<string, string>> {
    map[ClusterDefault := map[
      BrokerClassKey := brokerClass,
      "apiVersion" := "v1",
      "kind" := "ConfigMap",
      "name" := "config-br-default-channel",
      "namespace" := "knative-eventing"]]
  }

  /** Setting the broker class of the table yields the table with that class. */
  lemma SetBrokerClass(b: string, c: string)
    ensures TableWith(b)[ClusterDefault := TableWith(b)[ClusterDefault][BrokerClassKey := c]] == TableWith(c)
  {
    assert TableWith(b)[ClusterDefault][BrokerClassKey := c] == TableWith(c)[ClusterDefault];
  }

  /** The broker class a KnativeEventing asks for; the empty string means
      the channel-based broker. */
  function BrokerClassFor(instance: KnativeEventing): (r: string)
    ensures r != ""
    ensures instance.spec.defaultBrokerClass != "" ==> r == instance.spec.defaultBrokerClass
  {
    if instance.spec.defaultBrokerClass == "" then ChannelBasedBroker else instance.spec.defaultBrokerClass
  }

  /** Whether the transformer acts on a document at all. */
  predicate Matches(d: Document) {
    d.kind == ConfigMapKind && d.meta.name == DefaultsName
  }

  /** The transformer applied to one document, as a value: the table after the
      call, the document after the call and the returned error. A document that
      is not config-br-defaults passes untouched; one that does not decode is
      refused with both unchanged; otherwise the table's broker class is set
      first, so that a later marshalling or encoding failure leaves the table
      changed and the document as it was. */
  function TransformEffect(table: map<string, map<string, string>>, instance: KnativeEventing, d: Document, codec: CodecFaults)
    : (map<string, map<string, string>>, Document, Outcome)
    requires ClusterDefault in table
  {
    if !Matches(d) then (table, d, Pass)
    else match d.body
      case Undecodable(reason) => (table, d, Fail(Failed(reason)))
      case Fields(spec, status, data) =>
        var updated := table[ClusterDefault := table[ClusterDefault][BrokerClassKey := BrokerClassFor(instance)]];
        if codec.marshalFails then (updated, d, Fail(Failed(MarshalFailed)))
        else if codec.encodeFails then (updated, d, Fail(Failed(ConvertFailed)))
        else (updated,
              d.(meta := d.meta.(creationTimestamp := None), body := Fields(spec, status, data[DataKey := Yaml(updated)])),
              Pass)
  }

  /** The package-level defaultBrokerConfigMapData table. */
  class BrokerDefaultsTable {
    var data: map<string, map<string, string>>

    constructor ()
      ensures data == TableWith(ChannelBasedBroker)
      ensures Valid()
    {
      data := TableWith(ChannelBasedBroker);
    }

    /** The table is the fixed one with some broker class. */
    predicate Valid()
      reads this
    {
      ClusterDefault in data && BrokerClassKey in data[ClusterDefault] &&
      data == TableWith(data[ClusterDefault][BrokerClassKey])
    }

    /** DefaultBrokerConfigMapTransform for `instance`, applied to `u`. */
    method DefaultBrokerConfigMapTransform(instance: KnativeEventing, u: Unstructured, codec: CodecFaults) returns (err: Outcome)
      requires Valid()
      modifies this, u
      ensures Valid()
      ensures (data, u.content, err) == TransformEffect(old(data), instance, old(u.content), codec)
    {
      if u.content.kind == ConfigMapKind && u.content.meta.name == DefaultsName {
        if u.content.body.Undecodable? {
          return Fail(Failed(u.content.body.reason));
        }
        var configMapData := u.content.body.data;
        var defaultBrokerClass := instance.spec.defaultBrokerClass;
        if defaultBrokerClass == "" {
          defaultBrokerClass := ChannelBasedBroker;
        }
        SetBrokerClass(data[ClusterDefault][BrokerClassKey], defaultBrokerClass);
        data := data[ClusterDefault := data[ClusterDefault][BrokerClassKey := defaultBrokerClass]];
        if codec.marshalFails {
          return Fail(Failed(MarshalFailed));
        }
        configMapData := configMapData[DataKey := Yaml(data)];
        if codec.encodeFails {
          return Fail(Failed(ConvertFailed));
        }
        u.content := u.content.(body := u.content.body.(data := configMapData));
        u.content := u.content.(meta := u.content.meta.(creationTimestamp := None));
      }
      return Pass;
    }
  }

  // ---------------------------------------------------------------------------
  // Properties

  /** A document that is not the config-br-defaults ConfigMap is returned as
      it is, without error and without touching the table. */
  lemma OtherDocumentsUntouched(table: map<string, map<string, string>>, instance: KnativeEventing, d: Document, codec: CodecFaults)
    requires ClusterDefault in table && !Matches(d)
    ensures TransformEffect(table, instance, d, codec) == (table, d, Pass)
  {
  }

  /** The written broker class is the instance's, or ChannelBasedBroker for an
      empty one; the four other entries keep their fixed values. */
  lemma WritesBrokerClass(b: string, instance: KnativeEventing, d: Document, codec: CodecFaults)
    requires Matches(d) && d.body.Fields?
    ensures var t := TransformEffect(TableWith(b), instance, d, codec).0;
            && t == TableWith(BrokerClassFor(instance))
            && t[ClusterDefault][BrokerClassKey] == (if instance.spec.defaultBrokerClass == "" then "ChannelBasedBroker" else instance.spec.defaultBrokerClass)
            && t[ClusterDefault]["apiVersion"] == "v1"
            && t[ClusterDefault]["kind"] == "ConfigMap"
            && t[ClusterDefault]["name"] == "config-br-default-channel"
            && t[ClusterDefault]["namespace"] == "knative-eventing"
  {
    SetBrokerClass(b, BrokerClassFor(instance));
  }

  /** On success only data["default-br-config"] changes, to the YAML of the
      table, and the creation timestamp is cleared; every other data entry,
      the name, namespace, kind, apiVersion, labels and resourceVersion stay. */
  lemma OnlyDefaultsEntryReplaced(b: string, instance: KnativeEventing, d: Document, codec: CodecFaults)
    requires Matches(d) && d.body.Fields? && !codec.marshalFails && !codec.encodeFails
    ensures var (_, d1, o) := TransformEffect(TableWith(b), instance, d, codec);
            && o == Pass && d1.body.Fields?
            && d1.body.data[DataKey] == Yaml(TableWith(BrokerClassFor(instance)))
            && (forall k :: k != DataKey ==> (k in d1.body.data <==> k in d.body.data))
            && (forall k :: k != DataKey && k in d.body.data ==> d1.body.data[k] == d.body.data[k])
            && d1.meta.creationTimestamp == None
            && d1.meta == d.meta.(creationTimestamp := None)
            && d1.kind == d.kind && d1.apiVersion == d.apiVersion
            && d1.body.spec == d.body.spec && d1.body.status == d.body.status
  {
    WritesBrokerClass(b, instance, d, codec);
  }

  /** The output depends only on the current instance: whatever broker class
      an earlier call left in the table, the document and the error are the
      same, and so is the table afterwards. */
  lemma IndependentOfEarlierCalls(b1: string, b2: string, instance: KnativeEventing, d: Document, codec: CodecFaults)
    ensures Matches(d) && d.body.Fields? ==>
              TransformEffect(TableWith(b1), instance, d, codec) == TransformEffect(TableWith(b2), instance, d, codec)
  {
    if Matches(d) && d.body.Fields? {
      WritesBrokerClass(b1, instance, d, codec);
      WritesBrokerClass(b2, instance, d, codec);
    }
  }

  /** Every failure leaves the document as it was; a decoding failure also
      leaves the table, while a marshalling or encoding failure comes after the
      table was updated. */
  lemma FailuresKeepDocument(b: string, instance: KnativeEventing, d: Document, codec: CodecFaults)
    ensures var (t, d1, o) := TransformEffect(TableWith(b), instance, d, codec);
            && (o.Fail? ==> d1 == d)
            && (o.Fail? <==> Matches(d) && (d.body.Undecodable? || codec.marshalFails || codec.encodeFails))
            && (Matches(d) && d.body.Undecodable? ==> t == TableWith(b) && o == Fail(Failed(d.body.reason)))
            && (Matches(d) && d.body.Fields? && codec.marshalFails ==> o == Fail(Failed(MarshalFailed)))
            && (Matches(d) && d.body.Fields? && !codec.marshalFails && codec.encodeFails ==> o == Fail(Failed(ConvertFailed)))
  {
  }

  /** Applying the transformer twice for the same instance gives the same
      document as applying it once. */
  lemma TransformIdempotent(b: string, instance: KnativeEventing, d: Document, codec: CodecFaults)
    ensures var (t1, d1, _) := TransformEffect(TableWith(b), instance, d, codec);
            ClusterDefault in t1 && TransformEffect(t1, instance, d1, codec).1 == d1
  {
    var (t1, d1, o) := TransformEffect(TableWith(b), instance, d, codec);
    if Matches(d) && d.body.Fields? {
      WritesBrokerClass(b, instance, d, codec);
      SetBrokerClass(BrokerClassFor(instance), BrokerClassFor(instance));
      if o.Pass? {
        assert d1.body.data[DataKey := Yaml(t1)] == d1.body.data;
        assert d1.meta.(creationTimestamp := None) == d1.meta;
      }
    }
  }
}
