# knative eventing-operator: a Dafny model of its reconcile logic

The eventing-operator installs Knative Eventing into a cluster and looks after
two custom resources:

- **KnativeEventing**: the installation.
- **KEVersionController**: a request to migrate that installation's custom
  resource between the 0.10.0 schema (`operator.knative.dev/v1alpha1`, kind
  `Eventing`) and the current one.

This project models the decision and bookkeeping logic between the operator's
Kubernetes client calls, and proves properties about it.

- **Version controller** (`versioncontroller.dfy`, with `upgrade.dfy`,
  `downgrade.dfy` and `oldschema.dfy`). The reconciler:
  - splits the queue key and reads the KEVersionController;
  - chooses upgrade, downgrade or refusal by comparing version strings with Go's
    string `<` (`Strings.LexLess`);
  - issues an ordered series of Get, UpdateStatus, Update and Create calls against
    a fake cluster (`cluster.dfy`). The fake cluster holds the current-version
    store, the dynamic legacy store, a CRD registry, a log of every call and a
    set of injected failures.

  Each step is specified twice:
  - as a function from a cluster state to the next state and the error
    (`UpgradeEffect`, `DowngradeEffect`, `MigrateEffect`, …);
  - as a method of `VersionReconciler` that calls the `FakeCluster` in place and
    is proved equal to that function.

  The lemmas state the frame, the status-before-spec discipline of the call log
  and the outcome of each path.
- **KnativeEventing reconciler** (`eventingreconciler.dfy`). It tracks the keys of
  the KnativeEventing objects it has seen, and tears down the shared manifest
  when the last of them is gone.
- **Status lifecycle** (`lifecycle.dfy` on `conditions.dfy`). These are the
  `Mark*`, `InitializeConditions`, `GetCondition` and `IsReady` methods of a
  KnativeEventing status. They run on a model of knative.dev/pkg's living
  condition set: the list is sorted by type, and Ready is the conjunction of the
  three dependents.
- **Default broker transform** (`defaultbroker.dfy`). It rewrites the
  `config-br-defaults` ConfigMap from the shared package-level table, which it
  also updates in place.

Library behaviour that the model does not compute is passed in as a parameter:
- the operator's own version;
- which codec conversions fail (`CodecFaults`);
- whether a document decodes (`Body.Undecodable`).

## Model

| member | source | states |
|---|---|---|
| Strings.LexLessIrreflexive | pkg/reconciler/versioncontroller/versioncontroller.go:167-168 | Go's string order never puts a version below itself |
| Strings.LexLessAsymmetric | pkg/reconciler/versioncontroller/versioncontroller.go:167-168 | no two versions are each below the other |
| Strings.LexLessTransitive | pkg/reconciler/versioncontroller/versioncontroller.go:167-168 | the string order of versions is transitive |
| Strings.LexLessTotal | pkg/reconciler/versioncontroller/versioncontroller.go:167-168 | any two distinct versions are ordered one way or the other |
| Strings.LexLessCommonPrefix | pkg/reconciler/versioncontroller/versioncontroller.go:167-168 | a shared prefix (such as "0.") does not change how two versions compare |
| Strings.LexLessAtFirstDifference | pkg/reconciler/versioncontroller/versioncontroller.go:167-168 | two strings are ordered by their first differing character |
| Strings.SplitMetaNamespaceKeyFails | pkg/reconciler/versioncontroller/versioncontroller.go:65-69 | a key is refused exactly when it holds more than one slash; an accepted key's namespace and name hold no slash |
| Strings.SplitJoinedKey | pkg/reconciler/knativeeventing/knativeeventing.go:50-54 | splitting "namespace/name" gives back the namespace and name, and a bare name splits to the empty namespace |
| Conditions.GetCondition | pkg/apis/eventing/v1alpha1/knativeeventing_lifecycle.go:37-39 | a found condition is in the list and has the asked type; when none is found, no condition of that type is present |
| Conditions.InsertByTypeElements | pkg/apis/eventing/v1alpha1/knativeeventing_lifecycle.go:42-44 | inserting a condition adds exactly that condition to the list's multiset |
| Conditions.InsertByTypeSorted | pkg/apis/eventing/v1alpha1/knativeeventing_lifecycle.go:42-44 | inserting a condition of a new type keeps the list sorted by type |
| Conditions.SortByTypeElements | pkg/apis/eventing/v1alpha1/knativeeventing_lifecycle.go:42-44 | sorting by type is a permutation |
| Conditions.SortByTypeSorted | pkg/apis/eventing/v1alpha1/knativeeventing_lifecycle.go:42-44 | sorting a list of distinct types leaves it in strictly increasing type order |
| Conditions.RemoveTypeFacts | pkg/apis/eventing/v1alpha1/knativeeventing_lifecycle.go:42-44 | removing a type keeps exactly the conditions of other types and keeps types distinct |
| Conditions.SortedUnique | pkg/apis/eventing/v1alpha1/knativeeventing_lifecycle_test.go:46-80 | two sorted condition lists with the same elements are equal, so the order of the result is fixed |
| Conditions.GetConditionFinds | pkg/apis/eventing/v1alpha1/knativeeventing_lifecycle.go:37-39 | in a list without repeated types, GetCondition of a member's type returns that member |
| Conditions.SetConditionFacts | pkg/apis/eventing/v1alpha1/knativeeventing_lifecycle.go:42-75 | setting a condition keeps the list sorted, makes it the condition of its type and leaves every other type's condition as it was |
| Conditions.InitializeDependentsFacts | pkg/apis/eventing/v1alpha1/knativeeventing_lifecycle.go:42-44 | initializing adds exactly the missing dependents with the given status, keeps the present ones and adds no other type |
| Conditions.InitializeConditionsConsistent | pkg/apis/eventing/v1alpha1/knativeeventing_lifecycle.go:42-44 | initializing keeps the invariant (sorted, Ready True only if all dependents are), adds every type of the set and keeps every existing condition |
| Conditions.MarkTrueConsistent | pkg/apis/eventing/v1alpha1/knativeeventing_lifecycle.go:62-68 | marking a dependent True keeps the invariant, sets it True and leaves the other dependents alone |
| Conditions.MarkFalseConsistent | pkg/apis/eventing/v1alpha1/knativeeventing_lifecycle.go:47-52 | marking a dependent False keeps the invariant, sets it and Ready False with the given reason and message, and leaves the other dependents alone |
| Conditions.EmptyConsistent | pkg/apis/eventing/v1alpha1/knativeeventing_lifecycle.go:42-44 | an empty status satisfies the invariant |
| Lifecycle.KnativeEventingStatus.GetCondition | pkg/apis/eventing/v1alpha1/knativeeventing_lifecycle.go:37-39 | returns a condition of the asked type from the status, or none when the status holds no such condition |
| Lifecycle.KnativeEventingStatus.IsReady | pkg/apis/eventing/v1alpha1/knativeeventing_lifecycle.go:79-81 | ready exactly when the status's Ready condition is True; on a consistent status, exactly when DependenciesInstalled, DeploymentsAvailable and InstallSucceeded are all True |
| Lifecycle.KnativeEventingStatus.InitializeConditions | pkg/apis/eventing/v1alpha1/knativeeventing_lifecycle.go:42-44 | the status's conditions become the initialized list; the version is unchanged |
| Lifecycle.KnativeEventingStatus.MarkInstallFailed | pkg/apis/eventing/v1alpha1/knativeeventing_lifecycle.go:47-52 | the conditions become the MarkInstallFailed list of the old ones (InstallSucceeded and Ready False with the install-failed reason and message, by InstallFailedFacts); the version is unchanged |
| Lifecycle.KnativeEventingStatus.MarkInstallSucceeded | pkg/apis/eventing/v1alpha1/knativeeventing_lifecycle.go:54-60 | the conditions become the MarkInstallSucceeded list of the old ones: InstallSucceeded True, and DependenciesInstalled True only if it was Unknown (by InstallSucceededFacts); the version is unchanged |
| Lifecycle.KnativeEventingStatus.MarkDependenciesInstalled | pkg/apis/eventing/v1alpha1/knativeeventing_lifecycle.go:62-64 | the conditions become the old ones with DependenciesInstalled marked True, the other dependents unchanged (by DependenciesInstalledFacts) |
| Lifecycle.KnativeEventingStatus.MarkDeploymentsAvailable | pkg/apis/eventing/v1alpha1/knativeeventing_lifecycle.go:66-68 | the conditions become the old ones with DeploymentsAvailable marked True, the other dependents unchanged (by DeploymentsAvailableFacts) |
| Lifecycle.KnativeEventingStatus.MarkDeploymentsNotReady | pkg/apis/eventing/v1alpha1/knativeeventing_lifecycle.go:70-75 | the conditions become the old ones with DeploymentsAvailable and Ready False as not ready (by DeploymentsNotReadyFacts) |
| Lifecycle.EventingCondSetWellFormed | pkg/apis/eventing/v1alpha1/knativeeventing_lifecycle.go:25-29 | Ready is not one of the three dependents, and the dependents are distinct |
| Lifecycle.ConditionTypeOrder | pkg/apis/eventing/v1alpha1/knativeeventing_lifecycle_test.go:46-80 | DependenciesInstalled < DeploymentsAvailable < InstallSucceeded < Ready in Go's string order |
| Lifecycle.InitializeEmptyFacts | pkg/apis/eventing/v1alpha1/knativeeventing_lifecycle.go:25-44 | on an empty status, initializing gives each of the four types an Unknown condition with no reason or message, and no other type |
| Lifecycle.UnknownConditionsInOrder | pkg/apis/eventing/v1alpha1/knativeeventing_lifecycle_test.go:46-80 | a sorted list holding just the four Unknown conditions is exactly the list in the test's order |
| Lifecycle.InitializeEmptyStatus | pkg/apis/eventing/v1alpha1/knativeeventing_lifecycle_test.go:46-80 | initializing an empty status yields exactly DependenciesInstalled, DeploymentsAvailable, InstallSucceeded and Ready, all Unknown, in that order |
| Lifecycle.IsReadyIffAllTrue | pkg/apis/eventing/v1alpha1/knativeeventing_lifecycle.go:79-81 | on a consistent status, IsReady holds exactly when all three dependents are True |
| Lifecycle.InitializeConditionsFacts | pkg/apis/eventing/v1alpha1/knativeeventing_lifecycle.go:42-44 | initializing keeps the status consistent and never changes a condition that is already present |
| Lifecycle.InstallFailedFacts | pkg/apis/eventing/v1alpha1/knativeeventing_lifecycle.go:47-52 | InstallSucceeded and Ready become False with reason "Error" and message "Install failed with message: " + msg; the other dependents are unchanged |
| Lifecycle.InstallSucceededFacts | pkg/apis/eventing/v1alpha1/knativeeventing_lifecycle.go:54-60 | InstallSucceeded becomes True; DependenciesInstalled becomes True when it was Unknown or missing and otherwise keeps its value, a False staying False; DeploymentsAvailable is unchanged |
| Lifecycle.DependenciesInstalledFacts | pkg/apis/eventing/v1alpha1/knativeeventing_lifecycle.go:62-64 | DependenciesInstalled becomes True and the other two dependents are unchanged |
| Lifecycle.DeploymentsAvailableFacts | pkg/apis/eventing/v1alpha1/knativeeventing_lifecycle.go:66-68 | DeploymentsAvailable becomes True and the other two dependents are unchanged |
| Lifecycle.DeploymentsNotReadyFacts | pkg/apis/eventing/v1alpha1/knativeeventing_lifecycle.go:70-75 | DeploymentsAvailable and Ready become False with reason "NotReady" and message "Waiting on deployments"; the other dependents are unchanged |
| Lifecycle.InstallThenDeployments | pkg/apis/eventing/v1alpha1/knativeeventing_lifecycle.go:54-81 | from unknown dependents: after a successful install the status is not ready, it becomes ready once deployments are available, and is not ready again when they stop being ready |
| Lifecycle.InstallScenario | pkg/apis/eventing/v1alpha1/knativeeventing_lifecycle.go:42-81 | the same sequence holds from a freshly initialized status |
| OldSchema.ToLowerAscii | pkg/reconciler/versioncontroller/oldschema/knativeeventing.go:51-52 | lower-casing keeps the length and maps each upper-case ASCII letter to its lower case, leaving every other character as it was |
| OldSchema.GetOldGroupVersionResource | pkg/reconciler/versioncontroller/oldschema/knativeeventing.go:49-54 | for every version argument the descriptor is operator.knative.dev / v1alpha1 / eventings |
| OldSchema.GuessLegacyResource | pkg/reconciler/versioncontroller/oldschema/knativeeventing.go:40-54 | guessing the resource of kind Eventing gives the plural the legacy CRD registers |
| OldSchema.LowerOfLowercase | pkg/reconciler/versioncontroller/oldschema/knativeeventing.go:51-52 | a string without upper-case letters is its own lower case |
| OldSchema.InstallOldCRD | pkg/reconciler/versioncontroller/oldschema/knativeeventing.go:56-77 | the registry and the returned error are those of the install specification |
| OldSchema.FullCRDNameIsPluralDotGroup | pkg/reconciler/versioncontroller/oldschema/knativeeventing.go:43-46 | the full CRD name is "eventings.operator.knative.dev" |
| OldSchema.LegacyCRDServesOldResource | pkg/reconciler/versioncontroller/oldschema/knativeeventing.go:49-71 | once the legacy CRD is registered, the legacy descriptor is served, whatever the version |
| OldSchema.InstallOldCRDOnAbsent | pkg/reconciler/versioncontroller/oldschema/knativeeventing.go:56-77 | on a registry without it, the install adds exactly the namespaced legacy CRD and succeeds; any create error is returned unchanged with the registry untouched |
| OldSchema.InstallOldCRDSucceeds | pkg/reconciler/versioncontroller/oldschema/knativeeventing.go:72-76 | without a create fault, and with the name free or already holding the legacy CRD, the install succeeds and leaves the legacy CRD registered |
| OldSchema.InstallOldCRDIdempotent | pkg/reconciler/versioncontroller/oldschema/knativeeventing.go:72-76 | after one successful install, a second one succeeds and leaves the registry as the first left it |
| OldSchema.InstallOldCRDIgnoresVersion | pkg/reconciler/versioncontroller/oldschema/knativeeventing.go:56-71 | the version argument has no effect on the state or the result |
| Upgrade.Convert10To11 | pkg/reconciler/versioncontroller/upgrade/upgrade.go:44-58 | succeeds exactly when the legacy object decodes with an empty spec; a decoding error is returned as it is, and a non-empty spec gives the "bad format" error |
| Upgrade.UpgradeCR | pkg/reconciler/versioncontroller/upgrade/upgrade.go:27-42 | source 0.10.0 returns exactly Convert10To11's result; another source equal to the target succeeds; every other source gives "does not support upgrade" |
| Upgrade.UpgradeCRSucceeds | pkg/reconciler/versioncontroller/upgrade/upgrade.go:27-58 | UpgradeCR succeeds exactly for a 0.10.0 source with an empty legacy spec, or for another source equal to the target |
| Upgrade.UpgradeCRIgnoresTarget | pkg/reconciler/versioncontroller/upgrade/upgrade.go:27-58 | the KnativeEventing passed as target has no influence on the result |
| Upgrade.UpgradeFromEmptySource | pkg/reconciler/versioncontroller/upgrade/upgrade.go:35-39 | an empty source version is refused unless the target is empty too |
| Downgrade.Convert11To10 | pkg/reconciler/versioncontroller/downgrade/downgrade.go:64-93 | on success target holds the legacy object and the descriptor is returned; on every error target is unchanged and the descriptor is empty |
| Downgrade.DowngradeCR | pkg/reconciler/versioncontroller/downgrade/downgrade.go:33-62 | target 0.10.0 behaves as Convert11To10; any other target succeeds with the empty descriptor and leaves target unchanged |
| Downgrade.DowngradeOtherTarget | pkg/reconciler/versioncontroller/downgrade/downgrade.go:55-61 | a target other than 0.10.0 never fails and writes nothing |
| Downgrade.Convert11To10Facts | pkg/reconciler/versioncontroller/downgrade/downgrade.go:64-93 | conversion succeeds exactly for an empty, encodable spec; the result is named knative-eventing in the source's namespace, with kind Eventing, apiVersion operator.knative.dev/v1alpha1, status version 0.10.0 and descriptor operator.knative.dev/v1alpha1/eventings; each failure carries its own message |
| Downgrade.Convert11To10CopiesOnlyNamespace | pkg/reconciler/versioncontroller/downgrade/downgrade.go:66-82 | sources with the same namespace and spec convert alike, so nothing else (conditions, labels, resourceVersion, timestamp) reaches the legacy object |
| Downgrade.DowngradeThenUpgrade | pkg/reconciler/versioncontroller/downgrade/downgrade.go:64-93 | the legacy object a downgrade produces is accepted by the upgrade conversion from 0.10.0 |
| VersionController.Route | pkg/reconciler/versioncontroller/versioncontroller.go:108-229 | upgrade exactly when the target equals the operator version or is empty; downgrade exactly when, otherwise, the source equals the operator version or is empty and the target is below it in string order |
| VersionController.VersionReconciler.Reconcile | pkg/reconciler/versioncontroller/versioncontroller.go:63-103 | the calls issued and the error returned are those of the Reconcile specification |
| VersionController.VersionReconciler.WriteBack | pkg/reconciler/versioncontroller/versioncontroller.go:87-101 | the calls issued and the error returned are those of the write-back specification |
| VersionController.VersionReconciler.Migrate | pkg/reconciler/versioncontroller/versioncontroller.go:105-232 | the calls issued and the error returned are those of the reconcile specification, on all three paths |
| VersionController.VersionReconciler.UpdateStatus | pkg/reconciler/versioncontroller/versioncontroller.go:234-248 | the calls issued and the controller returned are those of the updateStatus specification |
| VersionController.UpgradeUpdateFrame | pkg/reconciler/versioncontroller/versioncontroller.go:150-159 | updating the current CR only appends to the log and leaves the controllers, legacy objects and CRDs alone |
| VersionController.UpgradeUpdateKeepsOrder | pkg/reconciler/versioncontroller/versioncontroller.go:150-159 | every Update is logged right after a successful UpdateStatus of the same object |
| VersionController.UpgradeWithLegacyFrame | pkg/reconciler/versioncontroller/versioncontroller.go:126-165 | the upgrade after the legacy read only appends to the log and leaves the controllers, legacy objects and CRDs alone |
| VersionController.UpgradeWithLegacyKeepsOrder | pkg/reconciler/versioncontroller/versioncontroller.go:126-165 | that part of the upgrade keeps the status-before-spec order of the log |
| VersionController.UpgradeFrame | pkg/reconciler/versioncontroller/versioncontroller.go:108-165 | the upgrade path only appends to the log and leaves the controllers, legacy objects and CRDs alone |
| VersionController.UpgradeKeepsOrder | pkg/reconciler/versioncontroller/versioncontroller.go:108-165 | the upgrade path keeps the status-before-spec order of the log |
| VersionController.InstallOldCRDFrame | pkg/reconciler/versioncontroller/versioncontroller.go:190-193 | installing the legacy CRD logs one CRD Create and touches no object store |
| VersionController.InstallOldCRDKeepsOrder | pkg/reconciler/versioncontroller/versioncontroller.go:190-193 | installing the legacy CRD keeps the status-before-spec order of the log |
| VersionController.WriteLegacyFrame | pkg/reconciler/versioncontroller/versioncontroller.go:195-224 | writing the legacy object only appends to the log and leaves the controllers and current CRs alone |
| VersionController.WriteLegacyKeepsOrder | pkg/reconciler/versioncontroller/versioncontroller.go:195-224 | writing the legacy object keeps the status-before-spec order of the log |
| VersionController.DowngradeWithCurrentFrame | pkg/reconciler/versioncontroller/versioncontroller.go:183-224 | the downgrade after the read only appends to the log and leaves the controllers and current CRs alone |
| VersionController.DowngradeWithCurrentKeepsOrder | pkg/reconciler/versioncontroller/versioncontroller.go:183-224 | that part of the downgrade keeps the status-before-spec order of the log |
| VersionController.DowngradeFrame | pkg/reconciler/versioncontroller/versioncontroller.go:167-224 | the downgrade path only appends to the log and leaves the controllers and current CRs alone |
| VersionController.DowngradeKeepsOrder | pkg/reconciler/versioncontroller/versioncontroller.go:167-224 | the downgrade path keeps the status-before-spec order of the log |
| VersionController.MigrateFrame | pkg/reconciler/versioncontroller/versioncontroller.go:105-232 | reconcile only appends to the log, keeps the injected faults and never writes a KEVersionController |
| VersionController.MigrateKeepsOrder | pkg/reconciler/versioncontroller/versioncontroller.go:105-232 | reconcile keeps the status-before-spec order of the log |
| VersionController.ReconcileUnsplittableKey | pkg/reconciler/versioncontroller/versioncontroller.go:65-69 | a key that does not split returns success with no call at all |
| VersionController.ReconcileMissingController | pkg/reconciler/versioncontroller/versioncontroller.go:71-75 | a missing KEVersionController returns success after the one read, with no write |
| VersionController.RouteFacts | pkg/reconciler/versioncontroller/versioncontroller.go:108-229 | a downgrade target is strictly below the operator version; a non-empty target above it is refused |
| VersionController.RouteComparesStrings | pkg/reconciler/versioncontroller/versioncontroller.go:167-168 | with operator version 0.11.0, target 0.10.0 is a downgrade but target 0.9.0 is refused |
| VersionController.MigrateUnsupported | pkg/reconciler/versioncontroller/versioncontroller.go:227-229 | an unsupported request fails with "The target version you specified <v> is not supported." and issues no call |
| VersionController.UpgradeAbsentLegacy | pkg/reconciler/versioncontroller/versioncontroller.go:110-118 | without a legacy CR the upgrade succeeds after the one read, leaving every store unchanged |
| VersionController.UpgradeUpdateEventings | pkg/reconciler/versioncontroller/versioncontroller.go:150-159 | the updates write back only the object as it was read |
| VersionController.UpgradeWithLegacyEventings | pkg/reconciler/versioncontroller/versioncontroller.go:126-165 | the only change to the current store is the creation of a skeleton where none existed |
| VersionController.UpgradeStoreEffect | pkg/reconciler/versioncontroller/versioncontroller.go:108-165 | the upgrade never changes an existing KnativeEventing; it can only create the skeleton CR |
| VersionController.UpgradeCreatesSkeleton | pkg/reconciler/versioncontroller/versioncontroller.go:124-165 | onto a missing current CR, the upgrade issues exactly one Create, of a knative-eventing object in the controller's namespace, and succeeds |
| VersionController.UpgradeUpdatesExisting | pkg/reconciler/versioncontroller/versioncontroller.go:124-165 | onto an existing current CR, the upgrade issues UpdateStatus and then Update of that object, and succeeds |
| VersionController.DowngradeAbsentCurrent | pkg/reconciler/versioncontroller/versioncontroller.go:170-175 | without a current CR the downgrade succeeds after the one read, with no legacy write |
| VersionController.DowngradeConversionFailure | pkg/reconciler/versioncontroller/versioncontroller.go:183-188 | a DowngradeCR error aborts with "Failed to downgrade the CR." before any write |
| VersionController.DowngradeWithCurrentFirstCall | pkg/reconciler/versioncontroller/versioncontroller.go:183-193 | after the read, the first call of a downgrade is the CRD Create |
| VersionController.DowngradeFirstCalls | pkg/reconciler/versioncontroller/versioncontroller.go:170-193 | a downgrade first reads the current CR and then, if it goes on, creates the legacy CRD |
| VersionController.DowngradeInstallsCRDFirst | pkg/reconciler/versioncontroller/versioncontroller.go:170-224 | every call on a legacy resource comes after the legacy CRD Create |
| VersionController.WriteLegacyOntoExisting | pkg/reconciler/versioncontroller/versioncontroller.go:195-210 | onto an existing legacy object: UpdateStatus, then Update, of the converted object carrying the stored resourceVersion |
| VersionController.WriteLegacyCreates | pkg/reconciler/versioncontroller/versioncontroller.go:211-224 | without a legacy object: the CRD is installed again (AlreadyExists passes) and the object is created with one Create |
| VersionController.DowngradeWithCurrentInstalls | pkg/reconciler/versioncontroller/versioncontroller.go:183-193 | a convertible current CR leads to the CRD install followed by the legacy write of its conversion |
| VersionController.DowngradeReadsCurrent | pkg/reconciler/versioncontroller/versioncontroller.go:170-179 | with the current CR present, the downgrade goes on from the object read in the controller's namespace |
| VersionController.DowngradeOntoExistingLegacy | pkg/reconciler/versioncontroller/versioncontroller.go:170-210 | a successful downgrade onto an existing legacy CR replaces it with the converted object carrying the stored resourceVersion, writing status before spec, and issues exactly five calls |
| VersionController.DowngradeCreatesLegacy | pkg/reconciler/versioncontroller/versioncontroller.go:170-224 | a successful downgrade without a legacy CR installs the CRD and creates the converted object with a single Create |
| VersionController.DowngradeOtherTargetFails | pkg/reconciler/versioncontroller/versioncontroller.go:183-224 | a downgrade target other than 0.10.0 converts nothing, installs the CRD and then fails to create under the empty descriptor, leaving the legacy store unchanged |
| VersionController.UpdateStatusSkipsEqual | pkg/reconciler/versioncontroller/versioncontroller.go:234-243 | updateStatus re-reads the controller and writes nothing when the live status already equals the desired one |
| VersionController.UpdateStatusWritesDesired | pkg/reconciler/versioncontroller/versioncontroller.go:234-248 | otherwise it stores the live object with the desired status and returns it |
| VersionController.WriteBackFacts | pkg/reconciler/versioncontroller/versioncontroller.go:87-101 | the status is written only when it changed, and a failed status write is returned in preference to the reconcile error |
| VersionController.ReconcileKeepsControllers | pkg/reconciler/versioncontroller/versioncontroller.go:63-103 | Reconcile never changes a KEVersionController, because reconcile never changes the status of its copy |
| VersionController.ReconcileStatusBeforeSpec | pkg/reconciler/versioncontroller/versioncontroller.go:63-232 | in every Reconcile, each Update comes right after a successful UpdateStatus of the same object |
| EventingReconciler.KnativeEventingReconciler.DeleteAll | pkg/reconciler/knativeeventing/knativeeventing.go:61 | a teardown is counted and the tracked keys are unchanged; its result is not looked at |
| EventingReconciler.KnativeEventingReconciler.Reconcile | pkg/reconciler/knativeeventing/knativeeventing.go:48-72 | the tracked keys, the teardowns, the lister read and the error are those of the Reconcile specification |
| EventingReconciler.ReconcileUnsplittableKey | pkg/reconciler/knativeeventing/knativeeventing.go:50-54 | an unparsable key returns success, reads nothing, and leaves the set and teardowns unchanged |
| EventingReconciler.ReconcilePresent | pkg/reconciler/knativeeventing/knativeeventing.go:69-71 | a present CR inserts its key, returns success and never tears down; a second insert changes nothing |
| EventingReconciler.ReconcileAbsent | pkg/reconciler/knativeeventing/knativeeventing.go:56-63 | an absent CR removes its key and returns success; DeleteAll runs exactly when no key is left |
| EventingReconciler.ReconcileReadError | pkg/reconciler/knativeeventing/knativeeventing.go:65-68 | a lister error other than not-found is returned, and the set and teardowns are unchanged |
| EventingReconciler.ReconcileKeepsWellFormed | pkg/reconciler/knativeeventing/knativeeventing.go:48-72 | every tracked key splits, only the given key is ever added, and the teardown count never decreases |
| EventingReconciler.TwoKeysScenario | pkg/reconciler/knativeeventing/knativeeventing.go:57-62 | with two tracked keys, deleting one does not tear down, and deleting the second tears down once |
| EventingReconciler.RepeatedTeardown | pkg/reconciler/knativeeventing/knativeeventing.go:57-62 | with no tracked key, every not-found key tears down again, even one never tracked |
| DefaultBroker.BrokerClassFor | pkg/reconciler/knativeeventing/common/defaultbroker.go:56-59 | the class written is never empty, and it is the instance's own class whenever that is set |
| DefaultBroker.SetBrokerClass | pkg/reconciler/knativeeventing/common/defaultbroker.go:35-61 | setting the class in the fixed table yields the fixed table with that class |
| DefaultBroker.BrokerDefaultsTable.DefaultBrokerConfigMapTransform | pkg/reconciler/knativeeventing/common/defaultbroker.go:46-81 | keeps the table in its fixed shape, and leaves the table, the document and the error as the transform specification says |
| DefaultBroker.OtherDocumentsUntouched | pkg/reconciler/knativeeventing/common/defaultbroker.go:48-79 | a resource other than the config-br-defaults ConfigMap is returned unchanged without error, and the table is untouched |
| DefaultBroker.WritesBrokerClass | pkg/reconciler/knativeeventing/common/defaultbroker.go:35-61 | the written class is the instance's, or ChannelBasedBroker when that is empty; apiVersion v1, kind ConfigMap, name config-br-default-channel and namespace knative-eventing stay fixed |
| DefaultBroker.OnlyDefaultsEntryReplaced | pkg/reconciler/knativeeventing/common/defaultbroker.go:68-76 | on success only data["default-br-config"] changes, to the table's YAML; other data keys and the metadata stay, except the creation timestamp, which is cleared |
| DefaultBroker.IndependentOfEarlierCalls | pkg/reconciler/knativeeventing/common/defaultbroker.go:35-61 | whatever class an earlier call left in the shared table, the output and the table afterwards are the same |
| DefaultBroker.FailuresKeepDocument | pkg/reconciler/knativeeventing/common/defaultbroker.go:50-73 | it fails exactly on a decoding, marshalling or encoding failure of the matching ConfigMap, each with its own error, and the document is then unchanged |
| DefaultBroker.TransformIdempotent | pkg/reconciler/knativeeventing/common/defaultbroker.go:46-81 | transforming an already transformed document again leaves it as it is |

## Left out

- Kubernetes I/O: the typed clientset, the dynamic client, the apiextensions client and both listers are one in-memory `FakeCluster`. Its stores are maps, and its injected failures are a map from (resource, verb) to a message. A lister read is a logged Get on the same store, so informer-cache staleness is not modelled.
- CRD registration takes effect at once: a resource is served from the call after the Create of its CRD, with no wait for the CRD to become Established. The downgrade in the Go code does not wait for it either. `VersionController.DowngradeOntoExistingLegacy` and `VersionController.DowngradeCreatesLegacy` rely on this rule.
- A resource that no registered CRD serves, the empty descriptor included, answers NotFound to every verb. `VersionController.DowngradeOtherTargetFails` relies on this rule.
- Update and UpdateStatus both replace the stored object whole. There are no server-side resourceVersion conflicts, no resourceVersion bumps and no separate status subresource.
- Logging, event recording, requeue and backoff, and worker-pool concurrency: the model runs one reconcile at a time.
- The operator's own version (`version.Version`) is a parameter of `VersionReconciler`, because its definition is not part of this model.
- The unused `dynamicClientSet` parameter of `UpgradeCR` is dropped.
- The codecs (`scheme.Scheme.Convert`, `DefaultUnstructuredConverter`, `yaml.Marshal`) are not computed:
  - decoding success is the shape of the `Body`;
  - encoding and marshalling failures come from `CodecFaults`;
  - a YAML blob is represented by the table it encodes;
  - `MarshalFailed` and `ConvertFailed` are placeholder texts for the libraries' own error messages.
- `meta.UnsafeGuessKindToResource` lower-cases ASCII only; Go's Unicode lower-casing is not modelled.
- Conditions carry no `LastTransitionTime` or `Severity`.
- The living condition set of knative.dev/pkg is not part of this model. `Conditions` models only what its use here relies on:
  - the list is kept sorted by type;
  - Ready is True exactly when all dependents are;
  - a False dependent sets Ready False with its reason and message.
- `DowngradeCR` has a `default` branch that is dead, because `case targetVersion` always matches. It therefore has no counterpart; `Downgrade.DowngradeOtherTarget` states the consequence.
- `Convert10To11` never writes its target, so it is a function that returns only an error. That it leaves the target alone holds by construction and is not a separate lemma.
- Convert-back failure in the default broker transform: the Go code may leave `u` partly overwritten by the failed conversion. The model leaves `u` unchanged.
- A `config-br-defaults` ConfigMap without a `data` map is treated as an empty map. In Go, the assignment into a nil map would panic.
- `VersionController.VersionReconciler.Reconcile`: the status write-back runs on an unchanged copy, so it never writes. `VersionController.WriteBackFacts` and `VersionController.UpdateStatusWritesDesired` state the write-back rules for a changed status all the same.
- The upgrade does not copy the legacy object's spec or status into the current CR. `Convert10To11` only checks that the legacy spec is empty, and the current CR is written back as it was read.
- The generated REST client, the controller wiring (informers, `KO_DATA_PATH`, kubeconfig) and the no-op obsolete reconciler are outside this model.
