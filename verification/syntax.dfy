/**
 * The abstract declaration tree a macro is attached to, and the descriptors of
 * what an expansion produces. Source text, trivia and syntax-node identity
 * are not represented: only what the expansion rules inspect.
 */
module Syntax {
  import opened Wrappers

  /** The declaration group a macro is attached to (or a nested member is). */
  datatype DeclKind = EnumKind | StructKind | ClassKind | OtherKind

  /**
   * An entry of an inheritance clause or an attribute name: a plain identifier
   * type (`String`, `CaseIterable`) or any other type syntax (`Swift.String`,
   * `any P`), which the rules' `as(IdentifierTypeSyntax.self)` casts skip.
   */
  datatype TypeRef = Named(name: string) | Unnamed

  /** A pattern in a variable binding: a plain identifier or anything else. */
  datatype Pattern = Identifier(text: string) | OtherPattern

  /**
   * A declaration group. `inherited` is the inheritance clause in source
   * order (an empty list stands for no clause); `attributes` are the
   * attribute names written on it.
   */
  datatype Decl = Decl(kind: DeclKind, attributes: seq<TypeRef>, inherited: seq<TypeRef>, members: seq<Member>)

  /** A member of a declaration group's member block. */
  datatype Member =
    | Nested(decl: Decl)                // a nested enum, struct, class, ...
    | CaseDecl(elements: seq<string>)   // `case a, b = "b_var"`: its element names
    | VariableDecl(bindings: seq<Pattern>)
    | OtherMember                       // functions, initializers, ...

  // ---------------------------------------------------------------------
  // Queries the rules make on a declaration
  // ---------------------------------------------------------------------

  /** The inheritance clause's first entry is the identifier type `String`. */
  predicate FirstInheritedIsString(d: Decl) {
    |d.inherited| > 0 && d.inherited[0] == Named("String")
  }

  /** `inheritedTypes.compactMap { $0.type.as(IdentifierTypeSyntax.self)?.name.text }` */
  function IdentifierNames(ts: seq<TypeRef>): (r: seq<string>)
    ensures forall n :: n in r <==> Named(n) in ts
    ensures |r| <= |ts|
  {
    if ts == [] then []
    else (if ts[0].Named? then [ts[0].name] else []) + IdentifierNames(ts[1..])
  }

  function InheritedNames(d: Decl): seq<string> {
    IdentifierNames(d.inherited)
  }

  predicate IsNestedEnum(m: Member) {
    m.Nested? && m.decl.kind == EnumKind
  }

  /** `members.first(where: { $0.decl.as(EnumDeclSyntax.self) != nil })` */
  function FirstNestedEnum(ms: seq<Member>): (r: Option<Decl>)
    ensures r.None? <==> forall i :: 0 <= i < |ms| ==> !IsNestedEnum(ms[i])
    ensures r.Some? ==> r.value.kind == EnumKind && Nested(r.value) in ms
  {
    if ms == [] then None
    else if IsNestedEnum(ms[0]) then Some(ms[0].decl)
    else FirstNestedEnum(ms[1..])
  }

  predicate HasNestedEnum(d: Decl) {
    FirstNestedEnum(d.members).Some?
  }

  /** Some attribute on the declaration is the identifier `name`. */
  predicate HasAttribute(d: Decl, name: string) {
    Named(name) in d.attributes
  }

  /**
   * Some variable binding among the direct members is the identifier
   * spelled exactly `` `default` `` (backticks included).
   */
  predicate DeclaresDefault(d: Decl) {
    exists i, j :: 0 <= i < |d.members| && d.members[i].VariableDecl? &&
      0 <= j < |d.members[i].bindings| && d.members[i].bindings[j] == Identifier("`default`")
  }

  /** `caseDecls.flatMap { $0.elements }`: every case element name, in source order. */
  function CaseElements(ms: seq<Member>): (r: seq<string>)
    ensures forall e :: e in r <==> exists i :: 0 <= i < |ms| && ms[i].CaseDecl? && e in ms[i].elements
  {
    if ms == [] then []
    else
      var rest := CaseElements(ms[1..]);
      assert forall i :: 1 <= i < |ms| ==> ms[i] == ms[1..][i - 1];
      (if ms[0].CaseDecl? then ms[0].elements else []) + rest
  }

  /** The element names of consecutive member lists follow one another. */
  lemma {:induction false} CaseElementsAppend(a: seq<Member>, b: seq<Member>)
    ensures CaseElements(a + b) == CaseElements(a) + CaseElements(b)
    decreases |a|
  {
    if a != [] {
      assert (a + b)[1..] == a[1..] + b;
      CaseElementsAppend(a[1..], b);
    } else {
      assert a + b == b;
    }
  }

  /** One case declaration lists its own elements, in order; any other member lists none. */
  lemma CaseElementsOfOne(m: Member)
    ensures m.CaseDecl? ==> CaseElements([m]) == m.elements
    ensures !m.CaseDecl? ==> CaseElements([m]) == []
  {
    assert [m][1..] == [];
  }

  /**
   * The literal `allCases` entries: for each element name in order, the
   * entry in the baseline group, then the one outside it.
   */
  function LiteralEntries(elements: seq<string>): (r: seq<(bool, string)>)
    ensures |r| == 2 * |elements|
    ensures forall i :: 0 <= i < |elements| ==> r[2 * i] == (true, elements[i]) && r[2 * i + 1] == (false, elements[i])
  {
    if elements == [] then []
    else [(true, elements[0]), (false, elements[0])] + LiteralEntries(elements[1..])
  }

  // ---------------------------------------------------------------------
  // What an expansion produces
  // ---------------------------------------------------------------------

  datatype Severity = Error | Warning

  /** The `DiagnosticError` raw values the rules report. */
  datatype DiagnosticId = IncorrectType | UnsupportedEnum | DoubleDefault | VariantEnum | NoVariantEnum

  datatype Diagnostic = Diagnostic(severity: Severity, id: DiagnosticId)

  /** The cases a generated `allCases` lists. */
  datatype CaseListing =
    | BoolPairs(pairs: seq<(bool, bool)>)   // literal (baseline, isEnabled) pairs
    | VariantFlatMap                        // `Variant.allCases.flatMap { [(true, $0), (false, $0)] }`
    | VariantLiterals(entries: seq<(bool, string)>) // literal `(baseline: b, variant: .e)` entries

  /** The value a generated `default` is. */
  datatype DefaultValue =
    | EnabledCase | DisabledCase
    | BaselineBoolDefault(isEnabled: bool)  // `(baseline: true, isEnabled: ...)`
    | BaselineVariantDefault                // `(baseline: true, variant: .default)`

  /**
   * A synthesized declaration. The behaviour of the generated bodies is
   * given by the codec modules (BoolCodec, BaselineBoolCodec, BaselineVariantCodec).
   */
  datatype Generated =
    | EnumCase(caseName: string)                  // `case enabled`
    | BooleanLiteralInit                          // `init(booleanLiteral:)`: value ? .enabled : .disabled
    | RawValueBool                                // `var rawValue: Bool`: enabled -> true, disabled -> false
    | RawValueInt                                 // `var rawValue: Int`: enabled -> 1, disabled -> 0
    | StoredProperty(propertyName: string, typeName: string)  // `let baseline: Bool`
    | BoolTokenNameInit                           // `init?(name:)` accepting true/false with optional `_baseline`
    | VariantNameInit                             // `init?(name:)` delegating to `Variant(name:)`
    | MemberwiseInit(signature: string)           // `init(baseline:isEnabled:)`
    | AllCasesProperty(listing: CaseListing)
    | StatusNameProperty                          // `name`: Enabled/Disabled, `_baseline` appended when baseline
    | VariantNameProperty                         // `name`: variant.name, `_baseline` appended when baseline
    | DefaultProperty(value: DefaultValue)        // `static ... default`

  /** The name a generated declaration introduces. */
  function IntroducedName(g: Generated): string {
    match g
    case EnumCase(n) => n
    case BooleanLiteralInit => "init(booleanLiteral:)"
    case RawValueBool => "rawValue"
    case RawValueInt => "rawValue"
    case StoredProperty(n, _) => n
    case BoolTokenNameInit => "init(name:)"
    case VariantNameInit => "init(name:)"
    case MemberwiseInit(sig) => sig
    case AllCasesProperty(_) => "allCases"
    case StatusNameProperty => "name"
    case VariantNameProperty => "name"
    case DefaultProperty(_) => "default"
  }

  function IntroducedNames(gs: seq<Generated>): (r: seq<string>)
    ensures |r| == |gs|
    ensures forall i :: 0 <= i < |gs| ==> r[i] == IntroducedName(gs[i])
  {
    if gs == [] then [] else [IntroducedName(gs[0])] + IntroducedNames(gs[1..])
  }

  /** An `extension T: <conformances> { <members> }`. */
  datatype Extension = Extension(conformances: seq<string>, members: seq<Generated>)

  /** What the member role returns, with what it reported. */
  datatype MemberRole = MemberRole(diagnostics: seq<Diagnostic>, members: seq<Generated>)

  /** What the extension role returns (zero or one extension), with what it reported. */
  datatype ExtensionRole = ExtensionRole(diagnostics: seq<Diagnostic>, extension: Option<Extension>)

  /**
   * One attached macro's whole effect on a declaration: the member role's
   * diagnostics followed by the extension role's, the synthesized members and
   * the extension.
   */
  datatype Expansion = Expansion(diagnostics: seq<Diagnostic>, members: seq<Generated>, extension: Option<Extension>)

  function Combine(m: MemberRole, e: ExtensionRole): Expansion {
    Expansion(m.diagnostics + e.diagnostics, m.members, e.extension)
  }

  /** Identifier types naming `names`, in order. */
  function NamedTypes(names: seq<string>): (r: seq<TypeRef>)
    ensures |r| == |names|
    ensures forall i :: 0 <= i < |names| ==> r[i] == Named(names[i])
  {
    if names == [] then [] else [Named(names[0])] + NamedTypes(names[1..])
  }

  /** Some generated member is a `default`. */
  predicate DefinesDefault(gs: seq<Generated>) {
    exists i :: 0 <= i < |gs| && gs[i].DefaultProperty?
  }

  /**
   * The declaration as it reads once an extension's work is written into it
   * by hand: its conformances appended to the inheritance clause and, when the
   * extension supplies a `default`, a `` `default` `` variable among the members.
   */
  function Absorb(d: Decl, e: Extension): Decl {
    d.(inherited := d.inherited + NamedTypes(e.conformances),
       members := d.members + (if DefinesDefault(e.members) then [VariableDecl([Identifier("`default`")])] else []))
  }

  /**
   * A member-attribute role that marks nested declarations of one kind with
   * `attribute` unless it is already written on them: `[attribute]` or nothing.
   */
  function MarkUnlessPresent(m: Member, kind: DeclKind, attribute: string): (r: seq<string>)
    ensures r == [] || r == [attribute]
    ensures r == [attribute] <==> m.Nested? && m.decl.kind == kind && !HasAttribute(m.decl, attribute)
  {
    if m.Nested? && m.decl.kind == kind && !HasAttribute(m.decl, attribute) then [attribute] else []
  }

  /** An expansion that only reports an error twice, once from each role. */
  predicate RejectedTwice(x: Expansion, id: DiagnosticId) {
    x == Expansion([Diagnostic(Error, id), Diagnostic(Error, id)], [], None)
  }
}
