/**
 * `@BoolRemoteValue(enabledByDefault:)` on an enum: the member role adds the
 * cases `enabled`/`disabled`, `init(booleanLiteral:)` and a Bool `rawValue`;
 * the extension role adds the conformances the enum does not already list
 * (`BoolRemoteValue`, `CaseIterable`) and a `default` when the enum has none.
 *
 * `enabledByDefault` is the macro's first argument when that argument is a
 * Boolean literal, and `None` otherwise.
 */
module BoolRemoteValueMacro {
  import opened Wrappers
  import opened Strings
  import opened Syntax
  import Conformances

  /** `doubleDefault` is a warning; the other diagnostics are errors. */
  function DiagnosticOf(id: DiagnosticId): (r: Diagnostic)
    ensures r.id == id
    ensures r.severity == Warning <==> id == DoubleDefault
  {
    Diagnostic(if id == DoubleDefault then Warning else Error, id)
  }

  /** The check both roles make first: an enum whose raw type is not `String`. */
  function Guard(d: Decl): (r: Option<DiagnosticId>)
    ensures r.None? <==> d.kind == EnumKind && !FirstInheritedIsString(d)
    ensures d.kind != EnumKind ==> r == Some(IncorrectType)
    ensures d.kind == EnumKind && FirstInheritedIsString(d) ==> r == Some(UnsupportedEnum)
  {
    if d.kind != EnumKind then Some(IncorrectType)
    else if FirstInheritedIsString(d) then Some(UnsupportedEnum)
    else None
  }

  /** What the member role adds to an accepted enum. */
  const BoolMembers: seq<Generated> :=
    [EnumCase("enabled"), EnumCase("disabled"), BooleanLiteralInit, RawValueBool]

  function MemberExpansion(d: Decl): (r: MemberRole)
    ensures Guard(d).Some? ==> r == MemberRole([DiagnosticOf(Guard(d).value)], [])
    ensures Guard(d).None? ==> r == MemberRole([], BoolMembers)
  {
    match Guard(d)
    case Some(id) => MemberRole([DiagnosticOf(id)], [])
    case None => MemberRole([], BoolMembers)
  }

  /**
   * `defaultDeclaration`: the value of the `default` to synthesize, if any,
   * and the warning given when the argument and a declared `default` clash.
   */
  function DefaultDeclaration(enabledByDefault: Option<bool>, hasDefault: bool): (r: (seq<Diagnostic>, Option<bool>))
    ensures r.1.Some? <==> !hasDefault
    ensures r.1.Some? ==> (r.1.value <==> enabledByDefault == Some(true))
    ensures r.0 == [] || r.0 == [DiagnosticOf(DoubleDefault)]
    ensures r.0 != [] <==> enabledByDefault.Some? && hasDefault
  {
    match (enabledByDefault, hasDefault)
    case (Some(_), true) => ([DiagnosticOf(DoubleDefault)], None)
    case (Some(enabled), false) => ([], Some(enabled))
    case (None, true) => ([], None)
    case (None, false) => ([], Some(false))
  }

  function ExtensionExpansion(d: Decl, enabledByDefault: Option<bool>): (r: ExtensionRole)
    ensures Guard(d).Some? ==> r == ExtensionRole([DiagnosticOf(Guard(d).value)], None)
    ensures Guard(d).None? ==>
      var missing := Conformances.Missing(Conformances.BoolRequired, InheritedNames(d));
      && r.diagnostics == DefaultDeclaration(enabledByDefault, DeclaresDefault(d)).0
      && (r.extension.None? <==> missing == [] && DeclaresDefault(d))
      && (r.extension.Some? ==> r.extension.value.conformances == missing)
      && (r.extension.Some? ==> (DefinesDefault(r.extension.value.members) <==> !DeclaresDefault(d)))
  {
    match Guard(d)
    case Some(id) => ExtensionRole([DiagnosticOf(id)], None)
    case None =>
      var missing := Conformances.Missing(Conformances.BoolRequired, InheritedNames(d));
      var (diagnostics, default) := DefaultDeclaration(enabledByDefault, DeclaresDefault(d));
      var member := match default
        case None => []
        case Some(enabled) => [DefaultProperty(if enabled then EnabledCase else DisabledCase)];
      assert member != [] ==> member[0].DefaultProperty?;
      if missing == [] && member == [] then ExtensionRole(diagnostics, None)
      else ExtensionRole(diagnostics, Some(Extension(missing, member)))
  }

  /** Both roles of `@BoolRemoteValue` on one declaration. */
  function Expand(d: Decl, enabledByDefault: Option<bool>): Expansion {
    Combine(MemberExpansion(d), ExtensionExpansion(d, enabledByDefault))
  }

  /** Anything but an enum is refused with `incorrectType`, once by each role. */
  lemma RejectsNonEnum(d: Decl, enabledByDefault: Option<bool>)
    requires d.kind != EnumKind
    ensures RejectedTwice(Expand(d, enabledByDefault), IncorrectType)
  {
  }

  /** An enum whose inheritance clause starts with `String` is refused with `unsupportedEnum`, once by each role. */
  lemma RejectsStringEnum(d: Decl, enabledByDefault: Option<bool>)
    requires d.kind == EnumKind && FirstInheritedIsString(d)
    ensures RejectedTwice(Expand(d, enabledByDefault), UnsupportedEnum)
  {
  }

  /**
   * Any other enum (a bare one, an `Int` one, one listing `String` later) is
   * accepted: no error, the four members, and at most the `doubleDefault` warning.
   */
  lemma AcceptsOtherEnums(d: Decl, enabledByDefault: Option<bool>)
    requires d.kind == EnumKind && !FirstInheritedIsString(d)
    ensures var x := Expand(d, enabledByDefault);
      && x.members == BoolMembers
      && IntroducedNames(x.members) == ["enabled", "disabled", "init(booleanLiteral:)", "rawValue"]
      && forall i :: 0 <= i < |x.diagnostics| ==> x.diagnostics[i].severity == Warning
  {
    BoolMemberNames();
  }

  /** The names the member role introduces. */
  lemma BoolMemberNames()
    ensures IntroducedNames(BoolMembers) == ["enabled", "disabled", "init(booleanLiteral:)", "rawValue"]
  {
    assert IntroducedNames(BoolMembers[3..]) == ["rawValue"];
  }

  /**
   * The extension lists exactly the required conformances the enum does not
   * already name, in `sorted()` order, and none that it names.
   */
  lemma ConformancesAreSortedDifference(d: Decl, enabledByDefault: Option<bool>, sorted: seq<string>)
    requires Guard(d).None? && ExtensionExpansion(d, enabledByDefault).extension.Some?
    requires StrictlySorted(sorted)
    requires Elements(sorted) == Elements(Conformances.BoolRequired) - Elements(InheritedNames(d))
    ensures ExtensionExpansion(d, enabledByDefault).extension.value.conformances == sorted
    ensures forall c :: c in sorted ==> Named(c) !in d.inherited
  {
    Conformances.RequiredListsSorted();
    Conformances.MissingIsSortedDifference(Conformances.BoolRequired, InheritedNames(d), sorted);
  }

  /** The `default` the extension synthesizes, if any. */
  function SynthesizedDefault(x: Expansion): Option<DefaultValue> {
    if x.extension.Some? && |x.extension.value.members| > 0 && x.extension.value.members[0].DefaultProperty?
    then Some(x.extension.value.members[0].value)
    else None
  }

  /**
   * The default table: a declared `default` always wins (and an explicit
   * argument beside it draws the `doubleDefault` warning); otherwise the
   * argument picks `.enabled` or `.disabled`, and no argument means `.disabled`.
   */
  lemma DefaultTable(d: Decl, enabledByDefault: Option<bool>)
    requires Guard(d).None?
    ensures var x := Expand(d, enabledByDefault);
      && (DeclaresDefault(d) ==> SynthesizedDefault(x).None?)
      && (!DeclaresDefault(d) && enabledByDefault == Some(true) ==> SynthesizedDefault(x) == Some(EnabledCase))
      && (!DeclaresDefault(d) && enabledByDefault != Some(true) ==> SynthesizedDefault(x) == Some(DisabledCase))
      && (x.diagnostics == [DiagnosticOf(DoubleDefault)] <==> DeclaresDefault(d) && enabledByDefault.Some?)
      && (x.diagnostics == [] <==> !(DeclaresDefault(d) && enabledByDefault.Some?))
  {
  }

  /**
   * Once the generated conformances and `default` are written into the enum
   * by hand, the extension role has nothing left to add and reports nothing.
   */
  lemma {:induction false} NothingLeftToAdd(d: Decl, enabledByDefault: Option<bool>)
    requires Guard(d).None? && ExtensionExpansion(d, enabledByDefault).extension.Some?
    ensures var d' := Absorb(d, ExtensionExpansion(d, enabledByDefault).extension.value);
      ExtensionExpansion(d', None) == ExtensionRole([], None)
  {
    var e := ExtensionExpansion(d, enabledByDefault).extension.value;
    assert |d.inherited| == 0 ==> "BoolRemoteValue" in e.conformances;
    AbsorbKeepsGuard(d, e);
    AbsorbCompletes(d, e);
    AbsorbDeclaresDefault(d, e);
  }

  /** Appending conformances drawn from the required list keeps the enum accepted. */
  lemma AbsorbKeepsGuard(d: Decl, e: Extension)
    requires Guard(d).None?
    requires |d.inherited| == 0 ==> |e.conformances| > 0
    requires forall c :: c in e.conformances ==> c != "String"
    ensures Guard(Absorb(d, e)).None?
  {
    var d' := Absorb(d, e);
    assert d'.inherited[..|d.inherited|] == d.inherited;
    if |d.inherited| == 0 {
      assert e.conformances[0] in e.conformances;
      assert d'.inherited[0] == Named(e.conformances[0]);
    } else {
      assert d'.inherited[0] == d.inherited[0];
    }
  }

  /** Once the missing conformances are appended, none is missing. */
  lemma AbsorbCompletes(d: Decl, e: Extension)
    requires e.conformances == Conformances.Missing(Conformances.BoolRequired, InheritedNames(d))
    ensures Conformances.Missing(Conformances.BoolRequired, InheritedNames(Absorb(d, e))) == []
  {
    var d' := Absorb(d, e);
    var added := NamedTypes(e.conformances);
    assert d'.inherited == d.inherited + added;
    forall c | c in Conformances.BoolRequired ensures c in InheritedNames(d') {
      if Named(c) !in d.inherited {
        var k :| 0 <= k < |e.conformances| && e.conformances[k] == c;
        assert added[k] == Named(c);
      }
    }
    var m := Conformances.Missing(Conformances.BoolRequired, InheritedNames(d'));
    ElementsEmpty(m);
    assert Elements(m) == {};
  }

  /** A declaration with the synthesized `default` written in declares one. */
  lemma AbsorbDeclaresDefault(d: Decl, e: Extension)
    requires DefinesDefault(e.members) <==> !DeclaresDefault(d)
    ensures DeclaresDefault(Absorb(d, e))
  {
    var d' := Absorb(d, e);
    if !DeclaresDefault(d) {
      var m := |d.members|;
      assert d'.members[m] == VariableDecl([Identifier("`default`")]);
      assert d'.members[m].bindings[0] == Identifier("`default`");
    } else {
      var i, j :| 0 <= i < |d.members| && d.members[i].VariableDecl? &&
        0 <= j < |d.members[i].bindings| && d.members[i].bindings[j] == Identifier("`default`");
      assert d'.members[i] == d.members[i];
    }
  }

  /**
   * The rule generates a Bool `rawValue` and never `isEnabled`, and never
   * declares `Equatable`, whatever the enum.
   */
  lemma NoIsEnabledNoEquatable(d: Decl, enabledByDefault: Option<bool>)
    ensures "isEnabled" !in IntroducedNames(Expand(d, enabledByDefault).members)
    ensures Expand(d, enabledByDefault).extension.Some? ==>
      "Equatable" !in Expand(d, enabledByDefault).extension.value.conformances
  {
    MembersLackIsEnabled(d);
    ConformancesLackEquatable(d, enabledByDefault);
  }

  lemma MembersLackIsEnabled(d: Decl)
    ensures "isEnabled" !in IntroducedNames(MemberExpansion(d).members)
  {
    if Guard(d).None? {
      BoolMemberNames();
    } else {
      assert MemberExpansion(d).members == [];
    }
  }

  lemma ConformancesLackEquatable(d: Decl, enabledByDefault: Option<bool>)
    ensures ExtensionExpansion(d, enabledByDefault).extension.Some? ==>
      "Equatable" !in ExtensionExpansion(d, enabledByDefault).extension.value.conformances
  {
    if Guard(d).None? {
      assert "Equatable" !in Conformances.BoolRequired;
    }
  }
}
