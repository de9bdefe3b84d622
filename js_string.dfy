/**
 * The string primitives the snippets rely on: `String.prototype.indexOf`,
 * `startsWith`, the native `endsWith`, and the ES5 `endsWith` helper that is
 * built on `indexOf` (ch04-core-es6-features/code.js, lines 243-252).
 */
module JsString {

  /** True when `t` occurs in `s` starting at index `i`. */
  predicate OccursAt(s: string, t: string, i: int)
  {
    0 <= i && i + |t| <= |s| && s[i..i + |t|] == t
  }

  /**
   * `s.indexOf(t, from)` for `from <= |s|`: the first index at or after `from`
   * where `t` occurs, or -1 when there is none.
   */
  function IndexOfFrom(s: string, t: string, from: nat): (r: int)
    requires from <= |s|
    ensures r == -1 || (from <= r && OccursAt(s, t, r))
    ensures r == -1 ==> forall j :: from <= j ==> !OccursAt(s, t, j)
    ensures forall j :: from <= j < r ==> !OccursAt(s, t, j)
    decreases |s| - from
  {
    if from + |t| > |s| then -1
    else if s[from..from + |t|] == t then from
    else IndexOfFrom(s, t, from + 1)
  }

  /** `s.indexOf(t)`: the index of the first occurrence of `t` in `s`, or -1. */
  function IndexOf(s: string, t: string): (r: int)
    ensures r == -1 <==> forall j :: !OccursAt(s, t, j)
    ensures r != -1 ==> OccursAt(s, t, r) && forall j :: 0 <= j < r ==> !OccursAt(s, t, j)
  {
    IndexOfFrom(s, t, 0)
  }

  /** Native `s.startsWith(p)` (line 245): `p` occurs at index 0. */
  predicate StartsWith(s: string, p: string)
    ensures StartsWith(s, p) <==> OccursAt(s, p, 0)
  {
    |p| <= |s| && s[..|p|] == p
  }

  /** Native `s.endsWith(x)` (line 252): `x` occurs at index `|s| - |x|`. */
  predicate NativeEndsWith(s: string, x: string)
    ensures NativeEndsWith(s, x) <==> OccursAt(s, x, |s| - |x|)
  {
    |x| <= |s| && s[|s| - |x|..] == x
  }

  /** `startsWith` holds exactly when `s` is `p` followed by something. */
  lemma {:induction false} StartsWithIsPrefix(s: string, p: string)
    ensures StartsWith(s, p) <==> exists q :: s == p + q
  {
    if StartsWith(s, p) {
      assert s == p + s[|p|..];
    }
    if exists q :: s == p + q {
      var q :| s == p + q;
      assert s[..|p|] == p;
    }
  }

  /** Native `endsWith` holds exactly when `s` is something followed by `x`. */
  lemma {:induction false} NativeEndsWithIsSuffix(s: string, x: string)
    ensures NativeEndsWith(s, x) <==> exists q :: s == q + x
  {
    if NativeEndsWith(s, x) {
      assert s == s[..|s| - |x|] + x;
    }
    if exists q :: s == q + x {
      var q :| s == q + x;
      assert s[|s| - |x|..] == x;
    }
  }

  /**
   * The ES5 helper `endsWith(str, suffix)` built on `indexOf` (lines 248-251).
   * Whenever it says yes, `str` really ends with `suffix`.
   */
  predicate EndsWith(str: string, suffix: string)
    ensures EndsWith(str, suffix) ==> NativeEndsWith(str, suffix)
  {
    var index := IndexOf(str, suffix);
    index >= 0 && index == |str| - |suffix|
  }

  /** The ES5 test `str.indexOf(p) === 0` is the ES6 `str.startsWith(p)` (lines 243-246). */
  lemma IndexOfZeroIffStartsWith(s: string, p: string)
    ensures IndexOf(s, p) == 0 <==> StartsWith(s, p)
  {
  }

  /**
   * The helper answers true exactly when `suffix` ends `str` and occurs
   * nowhere earlier in `str`: the first occurrence must be the final one.
   */
  lemma EndsWithIffOnlyFinalOccurrence(str: string, suffix: string)
    ensures EndsWith(str, suffix) <==>
              NativeEndsWith(str, suffix) &&
              forall j :: 0 <= j < |str| - |suffix| ==> !OccursAt(str, suffix, j)
  {
    if NativeEndsWith(str, suffix) {
      assert OccursAt(str, suffix, |str| - |suffix|);
    }
  }


  /** The helper is strictly stronger than native `endsWith`: "abab" ends with "ab", yet the helper says no. */
  lemma EndsWithStricterThanNative()
    ensures NativeEndsWith("abab", "ab") && !EndsWith("abab", "ab")
  {
  }

  /** A suffix longer than the string is never accepted. */
  lemma EndsWithLongSuffix(str: string, suffix: string)
    requires |suffix| > |str|
    ensures !EndsWith(str, suffix)
  {
  }

  /**
   * The `index >= 0` test is what rejects a suffix exactly one longer than the
   * string: there `indexOf` gives -1, which equals `str.length - suffix.length`.
   */
  lemma IndexGuardNeeded(str: string, suffix: string)
    requires |suffix| == |str| + 1
    ensures IndexOf(str, suffix) == |str| - |suffix|
    ensures !EndsWith(str, suffix)
  {
  }

  /** The empty suffix occurs at index 0, so the helper accepts it only for the empty string. */
  lemma EndsWithEmptySuffix(str: string)
    ensures EndsWith(str, "") <==> str == ""
  {
  }

  /**
   * The helper as evidently intended: look for `suffix` only from the one
   * index where it would have to start, `str.indexOf(suffix, str.length - suffix.length)`.
   */
  predicate EndsWithCorrected(str: string, suffix: string)
    ensures EndsWithCorrected(str, suffix) <==> NativeEndsWith(str, suffix)
  {
    var index := |str| - |suffix|;
    index >= 0 && IndexOfFrom(str, suffix, index) == index
  }

}
