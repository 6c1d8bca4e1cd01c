/** `shouldTrack` of an `ExperimentalGroupTrackable` remote value. */
module Tracking {
  import opened Wrappers
  import BaselineName
  import BaselineVariantCodec

  /**
   * `if let self = self as? BaselineStringRemoteValue { !self.baseline } else { true }`.
   * `baseline` is the value's `baseline` when its type conforms to
   * `BaselineStringRemoteValue`, and `None` otherwise.
   */
  function ShouldTrack(baseline: Option<bool>): (r: bool)
    ensures r <==> baseline != Some(true)
  {
    match baseline
    case Some(b) => !b
    case None => true
  }

  /**
   * A baseline flag parsed from `a_baseline` is not tracked and one parsed
   * from `a` is, whenever the variant accepts the name `a`.
   */
  lemma TracksParsedNames<V>(variantInit: string -> Option<V>)
    requires variantInit("a").Some?
    ensures var x := BaselineVariantCodec.InitName("a_baseline", variantInit);
      x == Some(BaselineVariantCodec.Baseline(true, variantInit("a").value)) && !ShouldTrack(Some(x.value.baseline))
    ensures var x := BaselineVariantCodec.InitName("a", variantInit);
      x == Some(BaselineVariantCodec.Baseline(false, variantInit("a").value)) && ShouldTrack(Some(x.value.baseline))
  {
    assert "a_baseline" == "a" + BaselineName.Suffix;
    BaselineName.SplitJoin(true, "a");
    BaselineName.SplitJoin(false, "a");
  }
}
