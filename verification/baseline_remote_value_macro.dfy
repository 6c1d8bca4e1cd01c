/**
 * `@BaselineRemoteValue` on a struct holding a nested `Variant` enum. Unlike
 * `@BaselineStringRemoteValue`, the member role does not look for the enum,
 * the extension role lists the enum's case names literally and silently
 * produces nothing without an enum, and the member-attribute role marks
 * nested enums `@RemoteValue`.
 */
module BaselineRemoteValueMacro {
  import opened Wrappers
  import opened Syntax
  import BaselineVariantCodec
  import RemoteValueMacro

  const Members: seq<Generated> := [
    StoredProperty("baseline", "Bool"), StoredProperty("variant", "Variant"),
    VariantNameInit, MemberwiseInit("init(baseline:variant:)")
  ]

  const Conformed: seq<string> := ["CaseIterable", "StringRemoteValue", "BaselineStringRemoteValue"]

  function MemberExpansion(d: Decl): (r: MemberRole)
    ensures d.kind != StructKind ==> r == MemberRole([Diagnostic(Error, IncorrectType)], [])
    ensures d.kind == StructKind ==> r == MemberRole([], Members)
  {
    if d.kind != StructKind then MemberRole([Diagnostic(Error, IncorrectType)], [])
    else MemberRole([], Members)
  }

  function ExtensionExpansion(d: Decl): (r: ExtensionRole)
    ensures d.kind != StructKind ==> r == ExtensionRole([Diagnostic(Error, IncorrectType)], None)
    ensures d.kind == StructKind ==> r.diagnostics == []
    ensures d.kind == StructKind ==> (r.extension.Some? <==> HasNestedEnum(d))
    ensures r.extension.Some? ==>
      var variant := FirstNestedEnum(d.members).value;
      r.extension.value == Extension(Conformed,
        [AllCasesProperty(VariantLiterals(LiteralEntries(CaseElements(variant.members)))), VariantNameProperty,
         DefaultProperty(BaselineVariantDefault)])
  {
    if d.kind != StructKind then ExtensionRole([Diagnostic(Error, IncorrectType)], None)
    else match FirstNestedEnum(d.members)
      case None => ExtensionRole([], None)
      case Some(variant) =>
        ExtensionRole([], Some(Extension(Conformed,
          [AllCasesProperty(VariantLiterals(LiteralEntries(CaseElements(variant.members)))), VariantNameProperty,
           DefaultProperty(BaselineVariantDefault)])))
  }

  /** The attributes added to one member of the struct. */
  function MemberAttributes(m: Member): (r: seq<string>)
    ensures r == [] || r == ["RemoteValue"]
  {
    MarkUnlessPresent(m, EnumKind, "RemoteValue")
  }

  function Expand(d: Decl): Expansion {
    Combine(MemberExpansion(d), ExtensionExpansion(d))
  }

  /**
   * Only a non-struct is refused. A struct without a nested enum is not
   * diagnosed: it still gets the members (whose `Variant` does not exist) but
   * no extension.
   */
  lemma MissingVariantIsSilent(d: Decl)
    ensures d.kind != StructKind ==> RejectedTwice(Expand(d), IncorrectType)
    ensures d.kind == StructKind ==> Expand(d).diagnostics == [] && Expand(d).members == Members
    ensures d.kind == StructKind && !HasNestedEnum(d) ==> Expand(d).extension.None?
  {
  }

  /**
   * Read as values, the literal `allCases` is, entry by entry, the flat map
   * of module BaselineVariantCodec over the enum's case names in source
   * order: each case in the baseline group, then outside it.
   */
  lemma LiteralAllCasesIsFlatMap(d: Decl)
    requires ExtensionExpansion(d).extension.Some?
    ensures var listing := ExtensionExpansion(d).extension.value.members[0].listing;
      var flat := BaselineVariantCodec.FlatMapAllCases(CaseElements(FirstNestedEnum(d.members).value.members));
      && listing.VariantLiterals?
      && |listing.entries| == |flat|
      && forall k :: 0 <= k < |flat| ==> listing.entries[k] == (flat[k].baseline, flat[k].variant)
  {
    var elements := CaseElements(FirstNestedEnum(d.members).value.members);
    var entries := LiteralEntries(elements);
    var flat := BaselineVariantCodec.FlatMapAllCases(elements);
    forall k | 0 <= k < |flat|
      ensures entries[k] == (flat[k].baseline, flat[k].variant)
    {
      var i := k / 2;
      assert 0 <= i < |elements|;
      if k % 2 == 0 {
        assert k == 2 * i;
        assert entries[2 * i] == (true, elements[i]);
        assert flat[2 * i] == BaselineVariantCodec.Baseline(true, elements[i]);
      } else {
        assert k == 2 * i + 1;
        assert entries[2 * i + 1] == (false, elements[i]);
        assert flat[2 * i + 1] == BaselineVariantCodec.Baseline(false, elements[i]);
      }
    }
  }

  /**
   * The extension lists the cases of the first nested enum only; a later
   * nested enum's cases never appear.
   */
  lemma FirstEnumOnly(d: Decl, pre: seq<Member>, variant: Decl, post: seq<Member>)
    requires d.kind == StructKind && variant.kind == EnumKind
    requires d.members == pre + [Nested(variant)] + post
    requires forall i :: 0 <= i < |pre| ==> !IsNestedEnum(pre[i])
    ensures ExtensionExpansion(d).extension.Some?
    ensures ExtensionExpansion(d).extension.value.members[0] == AllCasesProperty(VariantLiterals(LiteralEntries(CaseElements(variant.members))))
  {
    FirstNestedEnumAfter(pre, variant, post);
  }

  lemma {:induction false} FirstNestedEnumAfter(pre: seq<Member>, variant: Decl, post: seq<Member>)
    requires variant.kind == EnumKind
    requires forall i :: 0 <= i < |pre| ==> !IsNestedEnum(pre[i])
    ensures FirstNestedEnum(pre + [Nested(variant)] + post) == Some(variant)
  {
    if pre != [] {
      assert (pre + [Nested(variant)] + post)[1..] == pre[1..] + [Nested(variant)] + post;
      FirstNestedEnumAfter(pre[1..], variant, post);
    }
  }

  /**
   * A `Variant: String` that lists only `String` is marked `@RemoteValue`,
   * which gives it `CaseIterable, StringRemoteValue, Equatable`, so
   * `Variant(name:)` and `variant.name` exist for the generated members.
   * A `Variant: String, CaseIterable` is marked too but gets no extension.
   */
  lemma StringVariantBecomesNamed(v: Decl)
    requires v.kind == EnumKind && |v.inherited| > 0 && v.inherited[0] == Named("String") && !HasAttribute(v, "RemoteValue")
    ensures MemberAttributes(Nested(v)) == ["RemoteValue"]
    ensures |v.inherited| == 1 ==>
      RemoteValueMacro.Expand(v).extension == Some(Extension(["CaseIterable", "StringRemoteValue", "Equatable"], []))
    ensures |v.inherited| > 1 ==> RemoteValueMacro.Expand(v).extension.None?
  {
  }
}
