/** Upgrading the operator's custom resource from an older schema: which
    source versions are accepted and when the legacy object is refused. Both
    functions only return an error; neither writes the KnativeEventing it is
    given. */
module Upgrade {
  import opened Types

  const UnsupportedUpgrade := "The old version of CR does not support upgrade."
  const NonEmptyLegacySpec := "The old CR is in bad format, since the spec is not empty."

  /** Convert10To11: decodes the legacy object and refuses a non-empty spec. A
      decoding failure is returned as it is. `target` is not read or written. */
  function Convert10To11(uobject: Document, target: KnativeEventing): (r: Outcome)
    ensures r.Pass? <==> uobject.body.Fields? && uobject.body.spec == EmptySpec
    ensures uobject.body.Undecodable? ==> r == Fail(Failed(uobject.body.reason))
    ensures uobject.body.Fields? && uobject.body.spec != EmptySpec ==> r == Fail(Failed(NonEmptyLegacySpec))
  {
    match uobject.body
    case Undecodable(reason) => Fail(Failed(reason))
    case Fields(spec, _, _) =>
      if spec != EmptySpec then Fail(Failed(NonEmptyLegacySpec)) else Pass
  }

  /** UpgradeCR: source "0.10.0" is converted, a source equal to the target is
      already up to date, and every other source is refused. */
  function UpgradeCR(sourceVersion: string, targetVersion: string, uobject: Document, target: KnativeEventing): (r: Outcome)
    ensures sourceVersion == "0.10.0" ==> r == Convert10To11(uobject, target)
    ensures sourceVersion != "0.10.0" && sourceVersion == targetVersion ==> r == Pass
    ensures sourceVersion != "0.10.0" && sourceVersion != targetVersion ==> r == Fail(Failed(UnsupportedUpgrade))
  {
    if sourceVersion == "0.10.0" then Convert10To11(uobject, target)
    else if sourceVersion == targetVersion then Pass
    else Fail(Failed(UnsupportedUpgrade))
  }

  /** UpgradeCR succeeds exactly for a 0.10.0 source with an empty legacy spec
      or for a source already at the target version. */
  lemma UpgradeCRSucceeds(sourceVersion: string, targetVersion: string, uobject: Document, target: KnativeEventing)
    ensures UpgradeCR(sourceVersion, targetVersion, uobject, target).Pass? <==>
              (sourceVersion == "0.10.0" && uobject.body.Fields? && uobject.body.spec == EmptySpec) ||
              (sourceVersion != "0.10.0" && sourceVersion == targetVersion)
  {
  }

  /** The KnativeEventing passed in has no influence on the result. */
  lemma UpgradeCRIgnoresTarget(sourceVersion: string, targetVersion: string, uobject: Document, t1: KnativeEventing, t2: KnativeEventing)
    ensures UpgradeCR(sourceVersion, targetVersion, uobject, t1) == UpgradeCR(sourceVersion, targetVersion, uobject, t2)
  {
  }

  /** An empty source version is refused unless the target is empty too. */
  lemma UpgradeFromEmptySource(targetVersion: string, uobject: Document, target: KnativeEventing)
    ensures UpgradeCR("", targetVersion, uobject, target).Pass? <==> targetVersion == ""
  {
  }
}
