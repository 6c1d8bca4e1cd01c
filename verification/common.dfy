/** Optional values, as Swift's `T?`. */
module Wrappers {

  datatype Option<+T> = None | Some(value: T) {

    /** `x ?? d` */
    function GetOr(default: T): T {
      match this
      case Some(v) => v
      case None => default
    }
  }
}

/**
 * Strings as sequences of characters: suffix tests, and the lexicographic
 * order Swift's `sorted()` applies to the (ASCII) protocol names the macros emit.
 */
module Strings {

  predicate HasSuffix(s: string, suffix: string) {
    |suffix| <= |s| && s[|s| - |suffix|..] == suffix
  }

  /** `String(s.dropLast(n))` */
  function DropLast(s: string, n: nat): (r: string)
    ensures n <= |s| ==> |r| == |s| - n && r + s[|s| - n..] == s
    ensures n > |s| ==> r == []
  {
    if n <= |s| then s[..|s| - n] else []
  }

  /** Strict lexicographic order on character codes. */
  predicate Less(a: string, b: string)
    decreases |a|
  {
    if |a| == 0 then |b| > 0
    else |b| > 0 && (a[0] < b[0] || (a[0] == b[0] && Less(a[1..], b[1..])))
  }

  lemma {:induction false} LessIrreflexive(a: string)
    ensures !Less(a, a)
    decreases |a|
  {
    if |a| > 0 {
      LessIrreflexive(a[1..]);
    }
  }

  lemma {:induction false} LessTransitive(a: string, b: string, c: string)
    requires Less(a, b) && Less(b, c)
    ensures Less(a, c)
    decreases |a|
  {
    if |a| > 0 && a[0] == b[0] && b[0] == c[0] {
      LessTransitive(a[1..], b[1..], c[1..]);
    }
  }

  lemma {:induction false} LessTotal(a: string, b: string)
    requires a != b
    ensures Less(a, b) || Less(b, a)
    decreases |a|
  {
    if |a| > 0 && |b| > 0 && a[0] == b[0] {
      assert a == [a[0]] + a[1..] && b == [b[0]] + b[1..];
      LessTotal(a[1..], b[1..]);
    }
  }

  /** The set of names a listing holds. */
  function Elements(xs: seq<string>): set<string> {
    set x | x in xs
  }

  lemma ElementsEmpty(xs: seq<string>)
    ensures Elements(xs) == {} <==> xs == []
  {
    if xs != [] {
      assert xs[0] in Elements(xs);
    }
  }

  /** Every earlier element is strictly below every later one (so there are no duplicates). */
  ghost predicate StrictlySorted(xs: seq<string>) {
    forall i, j :: 0 <= i < j < |xs| ==> Less(xs[i], xs[j])
  }

  /** The only strictly sorted listing of a set is the one `sorted()` returns. */
  lemma {:induction false} SortedListingUnique(xs: seq<string>, ys: seq<string>)
    requires StrictlySorted(xs) && StrictlySorted(ys)
    requires Elements(xs) == Elements(ys)
    ensures xs == ys
    decreases |xs|
  {
    ElementsEmpty(xs);
    ElementsEmpty(ys);
    if xs != [] && ys != [] {
      var x, y := xs[0], ys[0];
      assert x in Elements(ys);
      assert y in Elements(xs);
      if x != y {
        var i :| 0 <= i < |ys| && ys[i] == x;
        var j :| 0 <= j < |xs| && xs[j] == y;
        assert i > 0 && j > 0;
        assert Less(y, x) && Less(x, y);
        LessTransitive(x, y, x);
        LessIrreflexive(x);
      }
      forall k | 0 <= k < |xs| ensures xs[k] != x || k == 0 {
        if k > 0 { LessIrreflexive(x); }
      }
      forall k | 0 <= k < |ys| ensures ys[k] != y || k == 0 {
        if k > 0 { LessIrreflexive(y); }
      }
      assert Elements(xs[1..]) == Elements(xs) - {x};
      assert Elements(ys[1..]) == Elements(ys) - {y};
      SortedListingUnique(xs[1..], ys[1..]);
      assert xs == [x] + xs[1..] && ys == [y] + ys[1..];
    }
  }
}
