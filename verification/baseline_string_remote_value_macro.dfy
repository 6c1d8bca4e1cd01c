/**
 * `@BaselineStringRemoteValue` on a struct holding a nested `Variant` enum:
 * the member role adds `baseline`, `variant`, `init?(name:)` and
 * `init(baseline:variant:)`; the extension role adds
 * `CaseIterable, BaselineStringRemoteValue` with `allCases` as a flat map
 * over `Variant.allCases`, `name` and a baseline `default`; the
 * member-attribute role marks nested enums `@StringRemoteValue`. The
 * generated bodies behave as module BaselineVariantCodec says.
 */
module BaselineStringRemoteValueMacro {
  import opened Wrappers
  import opened Syntax
  import StringRemoteValueMacro
  import Conformances

  /** The check both roles make first: a struct with a nested enum. */
  function Guard(d: Decl): (r: Option<DiagnosticId>)
    ensures r.None? <==> d.kind == StructKind && HasNestedEnum(d)
    ensures d.kind != StructKind ==> r == Some(IncorrectType)
    ensures d.kind == StructKind && !HasNestedEnum(d) ==> r == Some(NoVariantEnum)
  {
    if d.kind != StructKind then Some(IncorrectType)
    else if !HasNestedEnum(d) then Some(NoVariantEnum)
    else None
  }

  const Members: seq<Generated> := [
    StoredProperty("baseline", "Bool"), StoredProperty("variant", "Variant"),
    VariantNameInit, MemberwiseInit("init(baseline:variant:)")
  ]

  const Conformed: seq<string> := ["CaseIterable", "BaselineStringRemoteValue"]

  function MemberExpansion(d: Decl): (r: MemberRole)
    ensures Guard(d).Some? ==> r == MemberRole([Diagnostic(Error, Guard(d).value)], [])
    ensures Guard(d).None? ==> r == MemberRole([], Members)
  {
    match Guard(d)
    case Some(id) => MemberRole([Diagnostic(Error, id)], [])
    case None => MemberRole([], Members)
  }

  function ExtensionExpansion(d: Decl): (r: ExtensionRole)
    ensures Guard(d).Some? ==> r == ExtensionRole([Diagnostic(Error, Guard(d).value)], None)
    ensures Guard(d).None? ==> r == ExtensionRole([], Some(Extension(Conformed,
      [AllCasesProperty(VariantFlatMap), VariantNameProperty, DefaultProperty(BaselineVariantDefault)])))
  {
    match Guard(d)
    case Some(id) => ExtensionRole([Diagnostic(Error, id)], None)
    case None =>
      ExtensionRole([], Some(Extension(Conformed,
        [AllCasesProperty(VariantFlatMap), VariantNameProperty, DefaultProperty(BaselineVariantDefault)])))
  }

  /** The attributes added to one member of the struct. */
  function MemberAttributes(m: Member): (r: seq<string>)
    ensures r == [] || r == ["StringRemoteValue"]
  {
    MarkUnlessPresent(m, EnumKind, "StringRemoteValue")
  }

  function Expand(d: Decl): Expansion {
    Combine(MemberExpansion(d), ExtensionExpansion(d))
  }

  /** The two refusals, each reported once by each role, and acceptance otherwise. */
  lemma Rejections(d: Decl)
    ensures d.kind != StructKind ==> RejectedTwice(Expand(d), IncorrectType)
    ensures d.kind == StructKind && !HasNestedEnum(d) ==> RejectedTwice(Expand(d), NoVariantEnum)
    ensures Expand(d).diagnostics == [] <==> d.kind == StructKind && HasNestedEnum(d)
  {
  }

  /**
   * The member-attribute role marks a nested enum once: an enum it has marked
   * is left alone on a second pass, and other members are never marked.
   */
  lemma MarksEnumsOnce(m: Member)
    ensures MemberAttributes(m) != [] <==> IsNestedEnum(m) && !HasAttribute(m.decl, "StringRemoteValue")
    ensures IsNestedEnum(m) ==>
      var marked := Nested(m.decl.(attributes := m.decl.attributes + [Named("StringRemoteValue")]));
      MemberAttributes(marked) == []
  {
    if IsNestedEnum(m) {
      var marked := m.decl.(attributes := m.decl.attributes + [Named("StringRemoteValue")]);
      assert marked.attributes[|m.decl.attributes|] == Named("StringRemoteValue");
    }
  }

  /**
   * The attribute added to a `String`-raw `Variant` that lists only `String`
   * makes it a `StringRemoteValue`, so `Variant(name:)`, `variant.name` and
   * `Variant.default` exist for the generated members to call.
   */
  lemma StringVariantBecomesNamed(v: Decl)
    requires v.kind == EnumKind && v.inherited == [Named("String")] && !HasAttribute(v, "StringRemoteValue")
    ensures MemberAttributes(Nested(v)) == ["StringRemoteValue"]
    ensures StringRemoteValueMacro.ExtensionExpansion(v).extension ==
      Some(Extension(["CaseIterable", "Equatable", "StringRemoteValue"], []))
  {
    assert InheritedNames(v) == ["String"];
    Conformances.NoneInherited(Conformances.StringRequired, ["String"]);
  }
}
