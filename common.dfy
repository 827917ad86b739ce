/** Small value-level helpers shared by the component models: an optional
    value, absolute value and maximum on reals, counted multiples and
    Euclidean division, the first minimum of a
    sequence (what `indexOf(Math.min(...))` and a strict `<` scan compute),
    the maximum of a sequence (`Math.max(...)`), and the substring
    searches behind `endsWith` and `replace`. */
module Common {

  datatype Option<T> = None | Some(value: T) {
    function GetOr(default: T): T {
      match this
      case Some(v) => v
      case None => default
    }
  }

  function Abs(v: real): real {
    if v < 0.0 then -v else v
  }

  function Max(a: real, b: real): real {
    if a < b then b else a
  }

  /** `n * r` written as `n` additions of `r`, so that a count times a real
      stays linear for the solver; TimesIsProduct ties it to `*`. */
  function Times(n: nat, r: real): real
    decreases n
  {
    if n == 0 then 0.0 else Times(n - 1, r) + r
  }

  lemma {:induction false} TimesIsProduct(n: nat, r: real)
    ensures Times(n, r) == n as real * r
    decreases n
  {
    if n > 0 {
      TimesIsProduct(n - 1, r);
      assert n as real * r == (n - 1) as real * r + r;
    }
  }

  /** Copies add up: `(m + n) * r == m * r + n * r`. */
  lemma {:induction false} TimesAdd(m: nat, n: nat, r: real)
    ensures Times(m + n, r) == Times(m, r) + Times(n, r)
    decreases n
  {
    if n > 0 {
      TimesAdd(m, n - 1, r);
    }
  }

  /** Euclidean division by a positive divisor, pinned down by its quotient
      and remainder. */
  lemma DivMod(n: nat, d: nat, q: nat, r: nat)
    requires 0 < d && n == q * d + r && r < d
    ensures n / d == q && n % d == r
  {
    var q', r' := n / d, n % d;
    assert (q - q') * d == r' - r;
    MulOutside(q - q', d);
  }

  /** A non-zero whole multiple of `d` is at least `d` away from zero. */
  lemma MulOutside(k: int, d: int)
    requires d > 0
    ensures k >= 1 ==> k * d >= d
    ensures k <= -1 ==> k * d <= -d
  {
  }

  /** With a non-negative factor, more copies never give less. */
  lemma {:induction false} TimesMonotone(m: nat, n: nat, r: real)
    requires m <= n && r >= 0.0
    ensures 0.0 <= Times(m, r) <= Times(n, r)
    decreases n
  {
    if m < n {
      TimesMonotone(m, n - 1, r);
    } else if n > 0 {
      TimesMonotone(0, n - 1, r);
    }
  }

  /** The lowest index holding the minimum of `s` (FirstMinIndexIsMin). */
  function FirstMinIndex(s: seq<real>): (k: nat)
    requires |s| > 0
    ensures k < |s|
    decreases |s|
  {
    if |s| == 1 then 0
    else
      var k := FirstMinIndex(s[..|s| - 1]);
      if s[|s| - 1] < s[k] then |s| - 1 else k
  }

  /** Every entry is at least `s[FirstMinIndex(s)]`, and every entry
      before that index is strictly larger. */
  lemma {:induction false} FirstMinIndexIsMin(s: seq<real>)
    requires |s| > 0
    ensures forall j :: 0 <= j < |s| ==> s[FirstMinIndex(s)] <= s[j]
    ensures forall j :: 0 <= j < FirstMinIndex(s) ==> s[FirstMinIndex(s)] < s[j]
    decreases |s|
  {
    if |s| > 1 {
      var init := s[..|s| - 1];
      FirstMinIndexIsMin(init);
      assert forall j :: 0 <= j < |init| ==> init[j] == s[j];
    }
  }

  /** The two properties of FirstMinIndex determine it. */
  lemma FirstMinIndexUnique(s: seq<real>, k: nat)
    requires k < |s|
    requires forall j :: 0 <= j < |s| ==> s[k] <= s[j]
    requires forall j :: 0 <= j < k ==> s[k] < s[j]
    ensures FirstMinIndex(s) == k
  {
    FirstMinIndexIsMin(s);
  }

  /** The largest entry of a non-empty sequence (SeqMaxIsMax). */
  function SeqMax(s: seq<real>): real
    requires |s| > 0
    decreases |s|
  {
    if |s| == 1 then s[0] else Max(SeqMax(s[..|s| - 1]), s[|s| - 1])
  }

  /** SeqMax bounds every entry and is one of them. */
  lemma {:induction false} SeqMaxIsMax(s: seq<real>)
    requires |s| > 0
    ensures forall i :: 0 <= i < |s| ==> s[i] <= SeqMax(s)
    ensures exists i :: 0 <= i < |s| && s[i] == SeqMax(s)
    decreases |s|
  {
    if |s| == 1 {
      assert s[0] == SeqMax(s);
    } else {
      var init := s[..|s| - 1];
      SeqMaxIsMax(init);
      assert forall i :: 0 <= i < |init| ==> init[i] == s[i];
      var w :| 0 <= w < |init| && init[w] == SeqMax(init);
      if SeqMax(init) < s[|s| - 1] {
        assert s[|s| - 1] == SeqMax(s);
      } else {
        assert s[w] == SeqMax(s);
      }
    }
  }

  /** An upper bound of `s` that `s` attains is its maximum. */
  lemma SeqMaxUnique(s: seq<real>, m: real, w: nat)
    requires w < |s| && s[w] == m
    requires forall i :: 0 <= i < |s| ==> s[i] <= m
    ensures SeqMax(s) == m
  {
    SeqMaxIsMax(s);
  }

  /** Raising one entry by a non-negative amount raises the maximum to at
      most that entry's new value. */
  lemma SeqMaxRaise(s: seq<real>, k: nat, d: real)
    requires k < |s| && d >= 0.0
    ensures SeqMax(s[k := s[k] + d]) == Max(SeqMax(s), s[k] + d)
  {
    var t := s[k := s[k] + d];
    var m := Max(SeqMax(s), s[k] + d);
    SeqMaxIsMax(s);
    forall i | 0 <= i < |t| ensures t[i] <= m {
      if i != k { assert t[i] == s[i] <= SeqMax(s); }
    }
    if s[k] + d >= SeqMax(s) {
      SeqMaxUnique(t, m, k);
    } else {
      var w :| 0 <= w < |s| && s[w] == SeqMax(s);
      assert w != k;
      SeqMaxUnique(t, m, w);
    }
  }

  /** The maximum of a sequence extended by one entry. */
  lemma SeqMaxAppend(s: seq<real>, x: real)
    requires |s| > 0
    ensures SeqMax(s + [x]) == Max(SeqMax(s), x)
  {
    assert (s + [x])[..|s|] == s;
  }

  /** `s.endsWith(suffix)`. */
  predicate EndsWith(s: string, suffix: string) {
    |suffix| <= |s| && s[|s| - |suffix|..] == suffix
  }

  /** `pat` occurs in `s` starting at index `k`. */
  predicate OccursAt(s: string, pat: string, k: nat) {
    k + |pat| <= |s| && s[k..k + |pat|] == pat
  }

  /** The first index at or after `from` where `pat` occurs in `s`. */
  function IndexOfFrom(s: string, pat: string, from: nat): (r: Option<nat>)
    requires from <= |s|
    ensures r.Some? ==> from <= r.value && OccursAt(s, pat, r.value)
    ensures r.Some? ==> forall j :: from <= j < r.value ==> !OccursAt(s, pat, j)
    ensures r.None? ==> forall j :: from <= j <= |s| ==> !OccursAt(s, pat, j)
    decreases |s| - from
  {
    if OccursAt(s, pat, from) then Some(from)
    else if from == |s| then None
    else IndexOfFrom(s, pat, from + 1)
  }

  /** `s.indexOf(pat)`, with None for -1. */
  function IndexOf(s: string, pat: string): Option<nat> {
    IndexOfFrom(s, pat, 0)
  }
}
