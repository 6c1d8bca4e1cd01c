/**
 * `@BaselineBoolRemoteValue(enabledByDefault:)` on a struct with no nested
 * enum: the member role adds `baseline`, `isEnabled`, `init?(name:)` and
 * `init(baseline:isEnabled:)`; the extension role always adds
 * `CaseIterable, StringRemoteValue, BaselineStringRemoteValue` with
 * `allCases`, `name` and a `default` in the baseline group. The generated
 * bodies behave as module BaselineBoolCodec says.
 */
module BaselineBoolRemoteValueMacro {
  import opened Wrappers
  import opened Syntax
  import BaselineBoolCodec

  /** The check both roles make first: a struct without a nested enum. */
  function Guard(d: Decl): (r: Option<DiagnosticId>)
    ensures r.None? <==> d.kind == StructKind && !HasNestedEnum(d)
    ensures d.kind != StructKind ==> r == Some(IncorrectType)
    ensures d.kind == StructKind && HasNestedEnum(d) ==> r == Some(VariantEnum)
  {
    if d.kind != StructKind then Some(IncorrectType)
    else if HasNestedEnum(d) then Some(VariantEnum)
    else None
  }

  const Members: seq<Generated> := [
    StoredProperty("baseline", "Bool"), StoredProperty("isEnabled", "Bool"),
    BoolTokenNameInit, MemberwiseInit("init(baseline:isEnabled:)")
  ]

  const Conformed: seq<string> := ["CaseIterable", "StringRemoteValue", "BaselineStringRemoteValue"]

  /** The `(baseline, isEnabled)` pairs the generated `allCases` lists, in order. */
  const Pairs: seq<(bool, bool)> := [(true, false), (false, false), (true, true), (false, true)]

  function MemberExpansion(d: Decl): (r: MemberRole)
    ensures Guard(d).Some? ==> r == MemberRole([Diagnostic(Error, Guard(d).value)], [])
    ensures Guard(d).None? ==> r == MemberRole([], Members)
  {
    match Guard(d)
    case Some(id) => MemberRole([Diagnostic(Error, id)], [])
    case None => MemberRole([], Members)
  }

  function ExtensionExpansion(d: Decl, enabledByDefault: Option<bool>): (r: ExtensionRole)
    ensures Guard(d).Some? ==> r == ExtensionRole([Diagnostic(Error, Guard(d).value)], None)
    ensures Guard(d).None? ==> r.diagnostics == [] && r.extension.Some?
    ensures Guard(d).None? ==> r.extension.value.conformances == Conformed
    ensures Guard(d).None? ==> (r.extension.value.members ==
      [AllCasesProperty(BoolPairs(Pairs)), StatusNameProperty,
       DefaultProperty(BaselineBoolDefault(BaselineBoolCodec.Default(enabledByDefault).isEnabled))])
  {
    match Guard(d)
    case Some(id) => ExtensionRole([Diagnostic(Error, id)], None)
    case None =>
      var members := [
        AllCasesProperty(BoolPairs(Pairs)), StatusNameProperty,
        DefaultProperty(BaselineBoolDefault(enabledByDefault.GetOr(false)))
      ];
      ExtensionRole([], Some(Extension(Conformed, members)))
  }

  function Expand(d: Decl, enabledByDefault: Option<bool>): Expansion {
    Combine(MemberExpansion(d), ExtensionExpansion(d, enabledByDefault))
  }

  /** Anything but a struct is refused with `incorrectType`, and a struct with a nested enum with `variantEnum`, once by each role. */
  lemma Rejections(d: Decl, enabledByDefault: Option<bool>)
    ensures d.kind != StructKind ==> RejectedTwice(Expand(d, enabledByDefault), IncorrectType)
    ensures d.kind == StructKind && HasNestedEnum(d) ==> RejectedTwice(Expand(d, enabledByDefault), VariantEnum)
    ensures Expand(d, enabledByDefault).diagnostics == [] <==> d.kind == StructKind && !HasNestedEnum(d)
  {
  }

  /** The literal `allCases` is the codec's `AllCases`: each (baseline, isEnabled) pair once. */
  lemma PairsAreAllCases()
    ensures |Pairs| == |BaselineBoolCodec.AllCases|
    ensures forall i :: 0 <= i < |Pairs| ==>
      BaselineBoolCodec.BaselineBool(Pairs[i].0, Pairs[i].1) == BaselineBoolCodec.AllCases[i]
    ensures forall b, e :: (b, e) in Pairs
  {
    assert (true, false) == Pairs[0] && (false, false) == Pairs[1];
    assert (true, true) == Pairs[2] && (false, true) == Pairs[3];
  }

  /**
   * Nothing the struct already holds changes the expansion: two accepted
   * structs, whatever their inheritance clauses, attributes and members
   * (a declared `default` included), expand alike, with no diagnostic, where
   * `@BoolRemoteValue` warns about a second `default`.
   */
  lemma IgnoresExistingDeclarations(d: Decl, d': Decl, enabledByDefault: Option<bool>)
    requires Guard(d).None? && Guard(d').None?
    ensures Expand(d, enabledByDefault) == Expand(d', enabledByDefault)
    ensures Expand(d, enabledByDefault).diagnostics == []
    ensures DefinesDefault(Expand(d, enabledByDefault).extension.value.members)
  {
    assert ExtensionExpansion(d, enabledByDefault).extension.value.members[2].DefaultProperty?;
  }
}
