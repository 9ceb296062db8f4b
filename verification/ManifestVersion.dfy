/** Which manifest version a package claims, from its three identifiers. */
module ManifestVersion {
  import opened Prelude
  import P = Photo

  /** A value as `String` writes it, and whether it is a string itself; a missing one is written `undefined`. */
  datatype Identifier = Identifier(text: string, isString: bool)

  /** `$schema`, `schemaVersion` and `packageVersion`; the last is `None` unless it is an integer. */
  datatype Identifiers = Identifiers(schema: Identifier, version: Identifier, package: Option<int>)

  datatype Version = V1 | V2(schema: P.Schema) | Mismatch | Unknown

  const SCHEMA_V1: string := "coa-manifest-v1.schema.json"
  const SCHEMA_V2: string := "coa-manifest-v2.schema.json"
  const VERSION_10: string := "1.0.0"
  const VERSION_20: string := "2.0.0"
  const VERSION_21: string := "2.1.0"
  const VERSION_22: string := "2.2.0"

  predicate Is(i: Identifier, text: string) { i == Identifier(text, true) }

  /** The manifest uses some identifier of a version this verifier knows. */
  predicate UsesKnown(i: Identifiers) {
    || i.schema.text == SCHEMA_V1 || i.schema.text == SCHEMA_V2
    || i.version.text == VERSION_10 || i.version.text == VERSION_20 || i.version.text == VERSION_21
    || i.version.text == VERSION_22
    || i.package == Some(1) || i.package == Some(2)
  }

  /** `validateManifestVersion`, without the validation itself. */
  function VersionOf(i: Identifiers): Version {
    if Is(i.schema, SCHEMA_V1) && Is(i.version, VERSION_10) && i.package == Some(1) then V1
    else if Is(i.schema, SCHEMA_V2) && i.package == Some(2) && Is(i.version, VERSION_20) then V2(P.V20)
    else if Is(i.schema, SCHEMA_V2) && i.package == Some(2) && Is(i.version, VERSION_21) then V2(P.V21)
    else if Is(i.schema, SCHEMA_V2) && i.package == Some(2) && Is(i.version, VERSION_22) then V2(P.V22)
    else if UsesKnown(i) then Mismatch
    else Unknown
  }

  predicate Known(v: Version) { v.V1? || v.V2? }

  /** What the builder writes. */
  const BUILT: Identifiers := Identifiers(Identifier(SCHEMA_V2, true), Identifier(VERSION_22, true), Some(2))

  lemma BuiltVersion()
    ensures VersionOf(BUILT) == V2(P.V22)
  {
    assert VERSION_22[2] == '2' && VERSION_21[2] == '1' && VERSION_20[2] == '0';
  }

  /** A known version fixes all three identifiers; an unknown one uses none that is known. */
  lemma KnownFixesIdentifiers(i: Identifiers, j: Identifiers)
    ensures Known(VersionOf(i)) && VersionOf(i) == VersionOf(j) ==> i == j
    ensures VersionOf(i) == Unknown <==> !UsesKnown(i)
  {
  }

  /** A manifest of an early layout, with none of the identifiers, is of unknown version. */
  lemma EarlyIsUnknown()
    ensures VersionOf(Identifiers(Identifier("undefined", false), Identifier("0.9.0", true), None)) == Unknown
  {
    var version := "0.9.0";
    assert version[0] == '0' && VERSION_10[0] == '1' && VERSION_20[0] == VERSION_21[0] == VERSION_22[0] == '2';
    assert |"undefined"| != |SCHEMA_V1| && |"undefined"| != |SCHEMA_V2|;
  }
}
