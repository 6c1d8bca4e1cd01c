/**
 * `@RemoteValuesNamespace` on any declaration group: a member-attribute-only
 * rule marking each nested enum `@RemoteValue` and each nested struct
 * `@BaselineRemoteValue`, unless it already carries that attribute.
 */
module RemoteValuesNamespaceMacro {
  import opened Wrappers
  import opened Syntax
  import RemoteValueMacro

  /** The attributes added to one member of the namespace. */
  function MemberAttributes(m: Member): (r: seq<string>)
    ensures r == (if m.Nested? && m.decl.kind in {EnumKind, StructKind} && !HasAttribute(m.decl, AttributeFor(m.decl.kind))
                  then [AttributeFor(m.decl.kind)] else [])
  {
    if m.Nested? && m.decl.kind == EnumKind then MarkUnlessPresent(m, EnumKind, "RemoteValue")
    else if m.Nested? && m.decl.kind == StructKind then MarkUnlessPresent(m, StructKind, "BaselineRemoteValue")
    else []
  }

  /** The attributes for every member, member by member: each depends on that member alone. */
  function Attributes(ms: seq<Member>): (r: seq<seq<string>>)
    ensures |r| == |ms|
    ensures forall i :: 0 <= i < |ms| ==> r[i] == MemberAttributes(ms[i])
  {
    if ms == [] then [] else [MemberAttributes(ms[0])] + Attributes(ms[1..])
  }

  /** The attribute the namespace gives a member of each kind, if any. */
  function AttributeFor(kind: DeclKind): string {
    if kind == EnumKind then "RemoteValue" else "BaselineRemoteValue"
  }

  /**
   * A nested enum or struct is marked exactly when it lacks its attribute,
   * and once marked it is not marked again.
   */
  lemma MarksOnce(m: Member)
    requires m.Nested? && (m.decl.kind == EnumKind || m.decl.kind == StructKind)
    ensures MemberAttributes(m) == [AttributeFor(m.decl.kind)] <==> !HasAttribute(m.decl, AttributeFor(m.decl.kind))
    ensures MemberAttributes(m) == [] <==> HasAttribute(m.decl, AttributeFor(m.decl.kind))
    ensures var a := AttributeFor(m.decl.kind);
      MemberAttributes(Nested(m.decl.(attributes := m.decl.attributes + [Named(a)]))) == []
  {
    var a := AttributeFor(m.decl.kind);
    var marked := m.decl.(attributes := m.decl.attributes + [Named(a)]);
    assert marked.attributes[|m.decl.attributes|] == Named(a);
  }

  /**
   * Only the member's kind and attributes matter: an enum's raw type and
   * conformances are not consulted, so a `String` enum or one already marked
   * `@StringRemoteValue` still gets `@RemoteValue`.
   */
  lemma IgnoresInheritance(d: Decl, inherited: seq<TypeRef>)
    ensures MemberAttributes(Nested(d)) == MemberAttributes(Nested(d.(inherited := inherited)))
    ensures d.kind == EnumKind && !HasAttribute(d, "RemoteValue") ==> MemberAttributes(Nested(d)) == ["RemoteValue"]
  {
  }

  /**
   * Under the namespace, an enum spelled `enum E { }` becomes a Bool flag
   * and `enum E: String { ... }` a string flag, through `@RemoteValue`;
   * `enum E: Int { }` is marked but then refused.
   */
  lemma EnumOutcomes(d: Decl)
    requires d.kind == EnumKind && !HasAttribute(d, "RemoteValue")
    ensures MemberAttributes(Nested(d)) == ["RemoteValue"]
    ensures d.inherited == [] ==>
      RemoteValueMacro.Expand(d).extension == Some(Extension(RemoteValueMacro.BoolConformances, []))
    ensures d.inherited == [Named("String")] ==>
      RemoteValueMacro.Expand(d).extension == Some(Extension(RemoteValueMacro.StringConformances, []))
    ensures d.inherited == [Named("Int")] ==> RejectedTwice(RemoteValueMacro.Expand(d), UnsupportedEnum)
  {
  }
}
