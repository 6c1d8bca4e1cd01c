/**
 * `@StringRemoteValue` on a `String`-raw enum: an extension-only rule that
 * adds whichever of `CaseIterable`, `Equatable` and `StringRemoteValue` the
 * enum does not already list. It adds no members: `name`, `init?(name:)` and
 * `default` come from the runtime extensions (module StringFlags).
 */
module StringRemoteValueMacro {
  import opened Wrappers
  import opened Strings
  import opened Syntax
  import Conformances

  function ExtensionExpansion(d: Decl): (r: ExtensionRole)
    ensures d.kind != EnumKind ==> r == ExtensionRole([Diagnostic(Error, IncorrectType)], None)
    ensures d.kind == EnumKind && !FirstInheritedIsString(d) ==> r == ExtensionRole([Diagnostic(Error, UnsupportedEnum)], None)
    ensures d.kind == EnumKind && FirstInheritedIsString(d) ==>
      var missing := Conformances.Missing(Conformances.StringRequired, InheritedNames(d));
      && r.diagnostics == []
      && (r.extension.None? <==> missing == [])
      && (r.extension.Some? ==> r.extension.value == Extension(missing, []))
  {
    if d.kind != EnumKind then ExtensionRole([Diagnostic(Error, IncorrectType)], None)
    else if !FirstInheritedIsString(d) then ExtensionRole([Diagnostic(Error, UnsupportedEnum)], None)
    else
      var missing := Conformances.Missing(Conformances.StringRequired, InheritedNames(d));
      if missing == [] then ExtensionRole([], None)
      else ExtensionRole([], Some(Extension(missing, [])))
  }

  /** Every diagnostic the rule reports is an error, and a reported error means no extension. */
  lemma OnlyErrors(d: Decl)
    ensures var r := ExtensionExpansion(d);
      && (forall i :: 0 <= i < |r.diagnostics| ==> r.diagnostics[i].severity == Error)
      && (r.diagnostics != [] ==> r.extension.None?)
      && (r.diagnostics == [] <==> d.kind == EnumKind && FirstInheritedIsString(d))
  {
  }

  /**
   * The extension lists exactly the required conformances the enum does not
   * already name, in `sorted()` order, and none that it names.
   */
  lemma ConformancesAreSortedDifference(d: Decl, sorted: seq<string>)
    requires ExtensionExpansion(d).extension.Some?
    requires StrictlySorted(sorted)
    requires Elements(sorted) == Elements(Conformances.StringRequired) - Elements(InheritedNames(d))
    ensures ExtensionExpansion(d).extension.value.conformances == sorted
    ensures forall c :: c in sorted ==> Named(c) !in d.inherited
  {
    Conformances.RequiredListsSorted();
    Conformances.MissingIsSortedDifference(Conformances.StringRequired, InheritedNames(d), sorted);
  }

  /** Applying the rule again to the enum with the added conformances written out adds nothing. */
  lemma {:induction false} Idempotent(d: Decl)
    requires ExtensionExpansion(d).extension.Some?
    ensures ExtensionExpansion(Absorb(d, ExtensionExpansion(d).extension.value)) == ExtensionRole([], None)
  {
    var e := ExtensionExpansion(d).extension.value;
    var d' := Absorb(d, e);
    assert d'.kind == EnumKind && d'.inherited[0] == d.inherited[0];
    forall c | c in Conformances.StringRequired ensures c in InheritedNames(d') {
      if Named(c) !in d.inherited {
        var k :| 0 <= k < |e.conformances| && e.conformances[k] == c;
        assert d'.inherited[|d.inherited| + k] == Named(c);
      } else {
        assert Named(c) in d'.inherited;
      }
    }
    var m := Conformances.Missing(Conformances.StringRequired, InheritedNames(d'));
    ElementsEmpty(m);
    assert Elements(m) == {};
  }
}
