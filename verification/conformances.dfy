/**
 * `Set(required).subtracting(inherited).sorted()`: the conformances a rule
 * still has to declare, in the order the extension lists them.
 */
module Conformances {
  import opened Strings

  /** The names of `required` that `inherited` does not hold, keeping `required`'s order. */
  function Missing(required: seq<string>, inherited: seq<string>): (r: seq<string>)
    ensures forall x :: x in r <==> x in required && x !in inherited
    ensures |r| <= |required|
  {
    if required == [] then []
    else (if required[0] in inherited then [] else [required[0]]) + Missing(required[1..], inherited)
  }

  /** Filtering a strictly sorted listing leaves it strictly sorted. */
  lemma {:induction false} MissingSorted(required: seq<string>, inherited: seq<string>)
    requires StrictlySorted(required)
    ensures StrictlySorted(Missing(required, inherited))
    decreases |required|
  {
    if required != [] {
      var rest := Missing(required[1..], inherited);
      MissingSorted(required[1..], inherited);
      forall x | x in rest ensures Less(required[0], x) {
        var k :| 0 <= k < |required[1..]| && required[1..][k] == x;
        assert required[k + 1] == x;
      }
    }
  }

  /**
   * When `required` is listed in sorted order, `Missing` is exactly what
   * `Set(required).subtracting(inherited).sorted()` yields: the one strictly
   * sorted listing of the set difference.
   */
  lemma MissingIsSortedDifference(required: seq<string>, inherited: seq<string>, sorted: seq<string>)
    requires StrictlySorted(required)
    requires StrictlySorted(sorted) && Elements(sorted) == Elements(required) - Elements(inherited)
    ensures Missing(required, inherited) == sorted
  {
    MissingSorted(required, inherited);
    SortedListingUnique(Missing(required, inherited), sorted);
  }

  /** Nothing is dropped when the inheritance clause names none of the required conformances. */
  lemma {:induction false} NoneInherited(required: seq<string>, inherited: seq<string>)
    requires forall x :: x in required ==> x !in inherited
    ensures Missing(required, inherited) == required
    decreases |required|
  {
    if required != [] {
      assert required[0] in required;
      forall x | x in required[1..] ensures x !in inherited {
        assert x in required;
      }
      NoneInherited(required[1..], inherited);
      assert [required[0]] + required[1..] == required;
    }
  }

  /** What `@BoolRemoteValue` needs, in sorted order. */
  const BoolRequired: seq<string> := ["BoolRemoteValue", "CaseIterable"]

  /** What `@StringRemoteValue` needs, in sorted order. */
  const StringRequired: seq<string> := ["CaseIterable", "Equatable", "StringRemoteValue"]

  lemma RequiredListsSorted()
    ensures StrictlySorted(BoolRequired) && StrictlySorted(StringRequired)
  {
    assert Less("BoolRemoteValue", "CaseIterable");
    assert Less("CaseIterable", "Equatable") && Less("Equatable", "StringRemoteValue");
    LessTransitive("CaseIterable", "Equatable", "StringRemoteValue");
  }
}
