/** Shared data model of the Knative Eventing operator: the API objects it reads
    and writes, the unstructured documents of the dynamic client, and the error
    values the Kubernetes clients return. */
module Types {

  datatype Option<T> = None | Some(value: T)

  /** The errors the core tells apart: apierrs.IsNotFound, apierrs.IsAlreadyExists,
      and every other error with its message. */
  datatype Err = NotFound | AlreadyExists | Failed(message: string)

  /** A Go `error` result: nil or an error. */
  datatype Outcome = Pass | Fail(error: Err)

  /** A Go `(value, error)` pair where exactly one of the two is meaningful. */
  datatype Result<T> = Success(value: T) | Failure(error: Err)

  /** A namespace/name pair addressing a namespaced object. */
  datatype Key = Key(namespace: string, name: string)

  /** The part of metav1.ObjectMeta the core reads or writes; a creation
      timestamp of None is the zero metav1.Time. */
  datatype ObjectMeta = ObjectMeta(
    name: string,
    namespace: string,
    resourceVersion: string,
    labels: map<string, string>,
    creationTimestamp: Option<int>)

  /** Object metadata holding only a name and a namespace, as a Go literal
      `metav1.ObjectMeta{Name: ..., Namespace: ...}` does. */
  function NamedMeta(name: string, namespace: string): ObjectMeta {
    ObjectMeta(name, namespace, "", map[], None)
  }

  /** corev1.ConditionStatus. */
  datatype ConditionStatus = True | False | Unknown

  /** apis.Condition without LastTransitionTime and Severity. */
  datatype Condition = Condition(
    conditionType: string,
    status: ConditionStatus,
    reason: string,
    message: string)

  /** The spec of a KnativeEventing: only the default broker class is read. */
  datatype EventingSpec = EventingSpec(defaultBrokerClass: string)

  /** The zero EventingSpec, the one a lossless schema conversion demands. */
  const EmptySpec := EventingSpec("")

  /** EventingStatus: the duck-typed condition list plus the installed version. */
  datatype EventingStatus = EventingStatus(conditions: seq<Condition>, version: string)

  const EmptyStatus := EventingStatus([], "")

  /** The KnativeEventing custom resource in the current schema. */
  datatype KnativeEventing = KnativeEventing(meta: ObjectMeta, spec: EventingSpec, status: EventingStatus)

  /** The migration request: from which operator version to which. */
  datatype VersionControllerSpec = VersionControllerSpec(sourceVersion: string, targetVersion: string)

  datatype VersionControllerStatus = VersionControllerStatus(conditions: seq<Condition>)

  /** The KEVersionController custom resource. */
  datatype KEVersionController = KEVersionController(
    meta: ObjectMeta,
    spec: VersionControllerSpec,
    status: VersionControllerStatus)

  /** schema.GroupVersionResource; the zero value has three empty strings. */
  datatype GVR = GVR(group: string, version: string, resource: string)

  const EmptyGVR := GVR("", "", "")

  /** A value of a ConfigMap's data. A YAML blob is represented by the
      two-level document it serialises. */
  datatype DataValue = Text(text: string) | Yaml(document: map<string, map<string, string>>)

  /** The content of an unstructured.Unstructured below its type and object
      metadata: either the fields the core knows about, or content that the
      scheme converter rejects when it is turned into a typed object. */
  datatype Body =
    | Fields(spec: EventingSpec, status: EventingStatus, data: map<string, DataValue>)
    | Undecodable(reason: string)

  /** The content of an unstructured.Unstructured. */
  datatype Document = Document(apiVersion: string, kind: string, meta: ObjectMeta, body: Body)

  /** The content of `&unstructured.Unstructured{}`. */
  const EmptyDocument := Document("", "", NamedMeta("", ""), Fields(EmptySpec, EmptyStatus, map[]))

  /** Which conversions of the opaque codec libraries fail: encoding a typed
      object into an unstructured one (runtime.DefaultUnstructuredConverter and
      scheme.Scheme.Convert in that direction), and yaml.Marshal. */
  datatype CodecFaults = CodecFaults(encodeFails: bool, marshalFails: bool)

  /** An *unstructured.Unstructured: a document the callee fills in place. */
  class Unstructured {
    var content: Document

    constructor ()
      ensures content == EmptyDocument
    {
      content := EmptyDocument;
    }
  }
}
