/**
 * The members `@BaselineBoolRemoteValue` generates: a (baseline, isEnabled)
 * pair named by the tokens `true`/`false` with an optional `_baseline`.
 */
module BaselineBoolCodec {
  import opened Wrappers
  import opened Strings
  import BaselineName

  datatype BaselineBool = BaselineBool(baseline: bool, isEnabled: bool)

  /** `if name == "true" { true } else if name == "false" { false } else { nil }` */
  function Token(token: string): Option<bool> {
    if token == "true" then Some(true)
    else if token == "false" then Some(false)
    else None
  }

  /** The generated `init?(name:)`. */
  function InitName(name: string): (r: Option<BaselineBool>)
    ensures r.Some? ==> r.value.baseline == HasSuffix(name, BaselineName.Suffix)
  {
    var split := BaselineName.Split(name);
    match Token(split.1)
    case None => None
    case Some(isEnabled) => Some(BaselineBool(split.0, isEnabled))
  }

  /** Every name the generated initializer accepts. */
  const AcceptedNames: seq<string> := ["true", "false", "true_baseline", "false_baseline"]

  /** `init?(name:)` accepts exactly the four names, each as the pair it spells. */
  lemma InitNameAcceptsExactly(name: string)
    ensures InitName(name).Some? <==> name in AcceptedNames
    ensures name == "true" ==> InitName(name) == Some(BaselineBool(false, true))
    ensures name == "false" ==> InitName(name) == Some(BaselineBool(false, false))
    ensures name == "true_baseline" ==> InitName(name) == Some(BaselineBool(true, true))
    ensures name == "false_baseline" ==> InitName(name) == Some(BaselineBool(true, false))
  {
    var split := BaselineName.Split(name);
    SplitsOf();
    if InitName(name).Some? {
      assert split.1 == "true" || split.1 == "false";
      if split.0 {
        assert name == split.1 + BaselineName.Suffix;
      }
    }
  }

  lemma SplitsOf()
    ensures BaselineName.Split("true") == (false, "true")
    ensures BaselineName.Split("false") == (false, "false")
    ensures BaselineName.Split("true_baseline") == (true, "true")
    ensures BaselineName.Split("false_baseline") == (true, "false")
  {
    assert "true" + BaselineName.Suffix == "true_baseline";
    assert "false" + BaselineName.Suffix == "false_baseline";
    BaselineName.SplitJoin(false, "true");
    BaselineName.SplitJoin(false, "false");
    BaselineName.SplitJoin(true, "true");
    BaselineName.SplitJoin(true, "false");
  }

  /** The suffix is stripped once only, and other spellings of a boolean are not tokens. */
  lemma InitNameRejects()
    ensures InitName("true_baseline_baseline") == None
    ensures InitName("enabled") == None
    ensures InitName("") == None
  {
    var twice := "true_baseline_baseline";
    assert HasSuffix(twice, BaselineName.Suffix) by {
      assert twice[13..] == BaselineName.Suffix;
    }
    assert BaselineName.Split(twice).1 == "true_baseline" by {
      assert twice == "true_baseline" + BaselineName.Suffix;
    }
  }

  /** The generated `allCases`, in the order it is written. */
  const AllCases: seq<BaselineBool> := [
    BaselineBool(true, false), BaselineBool(false, false),
    BaselineBool(true, true), BaselineBool(false, true)
  ]

  /** `allCases` lists each of the four pairs exactly once. */
  lemma AllCasesComplete(v: BaselineBool)
    ensures |AllCases| == 4 && v in AllCases
    ensures forall i, j :: 0 <= i < j < |AllCases| ==> AllCases[i] != AllCases[j]
  {
  }

  /** The generated `name`: `Enabled`/`Disabled`, with `_baseline` when baseline. */
  function StatusName(v: BaselineBool): string {
    BaselineName.Join(v.baseline, if v.isEnabled then "Enabled" else "Disabled")
  }

  /** No generated `name` is accepted by the generated `init?(name:)`. */
  lemma StatusNameNeverParses(v: BaselineBool)
    ensures InitName(StatusName(v)) == None
  {
    var token := if v.isEnabled then "Enabled" else "Disabled";
    assert !HasSuffix(token, BaselineName.Suffix);
    BaselineName.SplitJoin(v.baseline, token);
  }

  /** `name` rendering the tokens `init?(name:)` parses. */
  function TokenName(v: BaselineBool): string {
    BaselineName.Join(v.baseline, if v.isEnabled then "true" else "false")
  }

  /** With token names, parsing and naming are inverse in both directions. */
  lemma TokenNameRoundTrip(v: BaselineBool, name: string)
    ensures InitName(TokenName(v)) == Some(v)
    ensures InitName(name) == Some(v) ==> TokenName(v) == name
  {
    var token := if v.isEnabled then "true" else "false";
    assert !HasSuffix(token, BaselineName.Suffix);
    BaselineName.SplitJoin(v.baseline, token);
    InitNameAcceptsExactly(name);
  }

  /** The generated `default`: the baseline group, enabled as the argument says (false when absent). */
  function Default(enabledByDefault: Option<bool>): (r: BaselineBool)
    ensures r.baseline
    ensures r.isEnabled <==> enabledByDefault == Some(true)
  {
    BaselineBool(true, enabledByDefault.GetOr(false))
  }
}

/**
 * The members `@BaselineStringRemoteValue` and `@BaselineRemoteValue`
 * generate around a nested `Variant`: a (baseline, variant) pair whose name is
 * the variant's name with an optional `_baseline`.
 */
module BaselineVariantCodec {
  import opened Wrappers
  import opened Strings
  import BaselineName

  datatype Baseline<V> = Baseline(baseline: bool, variant: V)

  /** The generated `init?(name:)`; `variantInit` is `Variant(name:)`. */
  function InitName<V>(name: string, variantInit: string -> Option<V>): (r: Option<Baseline<V>>)
    ensures r.Some? <==> variantInit(BaselineName.Split(name).1).Some?
    ensures r.Some? ==> r.value.baseline == HasSuffix(name, BaselineName.Suffix)
    ensures r.Some? ==> r.value.variant == variantInit(BaselineName.Split(name).1).value
  {
    var split := BaselineName.Split(name);
    match variantInit(split.1)
    case None => None
    case Some(variant) => Some(Baseline(split.0, variant))
  }

  /** The generated `name`; `variantName` is `Variant.name`. */
  function Name<V>(x: Baseline<V>, variantName: V -> string): (r: string)
    ensures HasSuffix(r, BaselineName.Suffix) <==> x.baseline || HasSuffix(variantName(x.variant), BaselineName.Suffix)
  {
    BaselineName.Join(x.baseline, variantName(x.variant))
  }

  /**
   * Naming then parsing gives the value back, when the variant's own
   * name/init round-trip and its name does not end in `_baseline`.
   */
  lemma RoundTrip<V>(x: Baseline<V>, variantInit: string -> Option<V>, variantName: V -> string)
    requires variantInit(variantName(x.variant)) == Some(x.variant)
    requires !HasSuffix(variantName(x.variant), BaselineName.Suffix)
    ensures InitName(Name(x, variantName), variantInit) == Some(x)
  {
    BaselineName.SplitJoin(x.baseline, variantName(x.variant));
  }

  /** Parsing then naming gives the name back, when the variant's init/name round-trip. */
  lemma NameOfParsed<V>(name: string, variantInit: string -> Option<V>, variantName: V -> string)
    requires InitName(name, variantInit).Some?
    requires variantName(InitName(name, variantInit).value.variant) == BaselineName.Split(name).1
    ensures Name(InitName(name, variantInit).value, variantName) == name
  {
    BaselineName.JoinSplit(name);
  }

  /** `Variant.allCases.flatMap { [Self(baseline: true, variant: $0), Self(baseline: false, variant: $0)] }` */
  function FlatMapAllCases<V>(variants: seq<V>): (r: seq<Baseline<V>>)
    ensures |r| == 2 * |variants|
    ensures forall i :: 0 <= i < |variants| ==>
      r[2 * i] == Baseline(true, variants[i]) && r[2 * i + 1] == Baseline(false, variants[i])
  {
    if variants == [] then []
    else [Baseline(true, variants[0]), Baseline(false, variants[0])] + FlatMapAllCases(variants[1..])
  }

  /** `allCases` holds every pair whose variant is a case, and nothing else. */
  lemma AllCasesComplete<V>(variants: seq<V>, x: Baseline<V>)
    ensures x in FlatMapAllCases(variants) <==> x.variant in variants
  {
    var r := FlatMapAllCases(variants);
    if x in r {
      var k :| 0 <= k < |r| && r[k] == x;
      assert r[2 * (k / 2)].variant == variants[k / 2];
      assert r[2 * (k / 2) + 1].variant == variants[k / 2];
    }
    if x.variant in variants {
      var i :| 0 <= i < |variants| && variants[i] == x.variant;
      assert r[if x.baseline then 2 * i else 2 * i + 1] == x;
    }
  }

  /** Distinct variants give an `allCases` without repetitions. */
  lemma AllCasesDistinct<V>(variants: seq<V>)
    requires forall i, j :: 0 <= i < j < |variants| ==> variants[i] != variants[j]
    ensures forall i, j :: 0 <= i < j < |FlatMapAllCases(variants)| ==>
      FlatMapAllCases(variants)[i] != FlatMapAllCases(variants)[j]
  {
    var r := FlatMapAllCases(variants);
    forall i, j | 0 <= i < j < |r| ensures r[i] != r[j] {
      assert r[i] == Baseline(i % 2 == 0, variants[i / 2]) by {
        assert i == 2 * (i / 2) || i == 2 * (i / 2) + 1;
      }
      assert r[j] == Baseline(j % 2 == 0, variants[j / 2]) by {
        assert j == 2 * (j / 2) || j == 2 * (j / 2) + 1;
      }
    }
  }

  /** The generated `default`: the baseline group of `Variant.default`. */
  function Default<V>(variantDefault: V): (r: Baseline<V>)
    ensures r.baseline && r.variant == variantDefault
  {
    Baseline(true, variantDefault)
  }
}
