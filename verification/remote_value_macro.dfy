/**
 * `@RemoteValue` on an enum. A bare enum (no inheritance clause) gets the
 * cases `enabled`/`disabled`, an Int `rawValue` and the conformances
 * `CaseIterable, BoolRemoteValue, Equatable`. A `String`-raw enum gets no
 * members, and gets `CaseIterable, StringRemoteValue, Equatable` only when
 * `String` is its sole inherited type. Any other enum is refused.
 */
module RemoteValueMacro {
  import opened Wrappers
  import opened Syntax

  /** What the member role adds to a bare enum. */
  const BoolMembers: seq<Generated> := [EnumCase("enabled"), EnumCase("disabled"), RawValueInt]

  function MemberExpansion(d: Decl): (r: MemberRole)
    ensures d.kind != EnumKind ==> r == MemberRole([Diagnostic(Error, IncorrectType)], [])
    ensures d.kind == EnumKind && FirstInheritedIsString(d) ==> r == MemberRole([], [])
    ensures d.kind == EnumKind && !FirstInheritedIsString(d) && d.inherited != [] ==>
      r == MemberRole([Diagnostic(Error, UnsupportedEnum)], [])
    ensures d.kind == EnumKind && d.inherited == [] ==> r == MemberRole([], BoolMembers)
  {
    if d.kind != EnumKind then MemberRole([Diagnostic(Error, IncorrectType)], [])
    else if FirstInheritedIsString(d) then MemberRole([], [])
    else if d.inherited != [] then MemberRole([Diagnostic(Error, UnsupportedEnum)], [])
    else MemberRole([], BoolMembers)
  }

  const StringConformances: seq<string> := ["CaseIterable", "StringRemoteValue", "Equatable"]
  const BoolConformances: seq<string> := ["CaseIterable", "BoolRemoteValue", "Equatable"]

  function ExtensionExpansion(d: Decl): (r: ExtensionRole)
    ensures d.kind != EnumKind ==> r == ExtensionRole([Diagnostic(Error, IncorrectType)], None)
    ensures d.kind == EnumKind && FirstInheritedIsString(d) ==>
      && r.diagnostics == []
      && (r.extension.Some? <==> |d.inherited| == 1)
      && (r.extension.Some? ==> r.extension.value == Extension(StringConformances, []))
    ensures d.kind == EnumKind && !FirstInheritedIsString(d) && d.inherited != [] ==>
      r == ExtensionRole([Diagnostic(Error, UnsupportedEnum)], None)
    ensures d.kind == EnumKind && d.inherited == [] ==> r == ExtensionRole([], Some(Extension(BoolConformances, [])))
  {
    if d.kind != EnumKind then ExtensionRole([Diagnostic(Error, IncorrectType)], None)
    else if FirstInheritedIsString(d) then
      if |d.inherited| == 1 then ExtensionRole([], Some(Extension(StringConformances, [])))
      else ExtensionRole([], None)
    else if d.inherited != [] then ExtensionRole([Diagnostic(Error, UnsupportedEnum)], None)
    else ExtensionRole([], Some(Extension(BoolConformances, [])))
  }

  function Expand(d: Decl): Expansion {
    Combine(MemberExpansion(d), ExtensionExpansion(d))
  }

  /**
   * The rule's three outcomes for an enum: accepted as a Bool flag exactly when
   * it has no inheritance clause, left to the `String` runtime when `String`
   * comes first, and refused with `unsupportedEnum` (once per role) otherwise.
   */
  lemma Classification(d: Decl)
    ensures d.kind != EnumKind ==> RejectedTwice(Expand(d), IncorrectType)
    ensures d.kind == EnumKind ==>
      && (Expand(d).members != [] <==> d.inherited == [])
      && (RejectedTwice(Expand(d), UnsupportedEnum) <==> d.inherited != [] && !FirstInheritedIsString(d))
      && (Expand(d).diagnostics == [] <==> d.inherited == [] || FirstInheritedIsString(d))
  {
  }

  /**
   * An accepted bare enum gets exactly the cases a `BoolRemoteValue` needs
   * and an Int `rawValue` (module BoolCodec.RawInt), but no
   * `init(booleanLiteral:)`, which the protocol requires.
   */
  lemma BareEnumLacksLiteralInit(d: Decl)
    requires d.kind == EnumKind && d.inherited == []
    ensures IntroducedNames(Expand(d).members) == ["enabled", "disabled", "rawValue"]
    ensures "BoolRemoteValue" in Expand(d).extension.value.conformances
    ensures BooleanLiteralInit !in Expand(d).members
  {
  }

  /**
   * A `String` enum that already lists more than `String`, even exactly the
   * three conformances, gets nothing, while one listing only `String` gets
   * all three, so they are never added piecemeal.
   */
  lemma StringEnumAllOrNothing(d: Decl)
    requires d.kind == EnumKind && FirstInheritedIsString(d)
    ensures Expand(d).diagnostics == [] && Expand(d).members == []
    ensures |d.inherited| > 1 ==> Expand(d).extension.None?
    ensures |d.inherited| == 1 ==> Expand(d).extension == Some(Extension(StringConformances, []))
  {
  }
}
