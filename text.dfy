/** Removal of leading and trailing whitespace, as Rust's `str::trim` does it:
    scan forward from the start past whitespace, then backward from the end
    past whitespace without crossing the first scan, and keep what lies
    between. Which characters count as whitespace is a parameter `isWs`, so
    every fact below holds for any whitespace set. */
module Text {

  /** All characters of `s[lo..hi]` are whitespace. */
  ghost predicate AllWs(s: string, lo: int, hi: int, isWs: char -> bool)
    requires 0 <= lo <= hi <= |s|
  {
    forall k :: lo <= k < hi ==> isWs(s[k])
  }

  /** Scanning forward from `k`: the end of the whitespace run that starts
      at `k`. */
  function SkipWsForward(s: string, isWs: char -> bool, k: nat): (n: nat)
    requires k <= |s|
    ensures k <= n <= |s| && AllWs(s, k, n, isWs)
    ensures n < |s| ==> !isWs(s[n])
    decreases |s| - k
  {
    if k < |s| && isWs(s[k]) then SkipWsForward(s, isWs, k + 1) else k
  }

  /** Scanning backward from `k`, never below `lo`: the start of the
      whitespace run that ends at `k`. */
  function SkipWsBackward(s: string, isWs: char -> bool, lo: nat, k: nat): (n: nat)
    requires lo <= k <= |s|
    ensures lo <= n <= k && AllWs(s, n, k, isWs)
    ensures lo < n ==> !isWs(s[n - 1])
    decreases k
  {
    if lo < k && isWs(s[k - 1]) then SkipWsBackward(s, isWs, lo, k - 1) else k
  }

  /** Where the trimmed text starts. */
  function TrimStartIndex(s: string, isWs: char -> bool): nat
  {
    SkipWsForward(s, isWs, 0)
  }

  /** Where the trimmed text ends. */
  function TrimEndIndex(s: string, isWs: char -> bool): nat
  {
    SkipWsBackward(s, isWs, TrimStartIndex(s, isWs), |s|)
  }

  /** `s` without its leading and trailing whitespace. */
  function Trim(s: string, isWs: char -> bool): (r: string)
    ensures |r| <= |s|
    ensures r == [] || (!isWs(r[0]) && !isWs(r[|r| - 1]))
  {
    s[TrimStartIndex(s, isWs)..TrimEndIndex(s, isWs)]
  }

  /** Trim keeps one contiguous slice `s[i..j]` of its input and all that it
      drops around that slice is whitespace. */
  lemma TrimSliceOf(s: string, isWs: char -> bool) returns (i: nat, j: nat)
    ensures i <= j <= |s|
    ensures Trim(s, isWs) == s[i..j]
    ensures AllWs(s, 0, i, isWs) && AllWs(s, j, |s|, isWs)
  {
    i, j := TrimStartIndex(s, isWs), TrimEndIndex(s, isWs);
  }

  /** The converse of TrimSliceOf: any slice `s[i..j]` that is surrounded by
      whitespace only and neither starts nor ends with whitespace is what Trim
      returns. Together the two characterise Trim completely. */
  lemma TrimIsSlice(s: string, isWs: char -> bool, i: nat, j: nat)
    requires i <= j <= |s|
    requires AllWs(s, 0, i, isWs) && AllWs(s, j, |s|, isWs)
    requires i < j ==> !isWs(s[i]) && !isWs(s[j - 1])
    ensures Trim(s, isWs) == s[i..j]
  {
    var a, b := TrimStartIndex(s, isWs), TrimEndIndex(s, isWs);
    if i == j {
      assert AllWs(s, 0, |s|, isWs) by {
        forall k | 0 <= k < |s| ensures isWs(s[k]) {
          assert k < i || j <= k;
        }
      }
      assert a == |s|;
    } else {
      assert !isWs(s[i]) && !isWs(s[j - 1]);
      assert a == i;
      assert b == j;
    }
  }

  /** Text that neither starts nor ends with whitespace, padded on both sides
      with whitespace only, trims back to exactly that text; whitespace inside
      it is kept. */
  lemma TrimPadded(pre: string, core: string, post: string, isWs: char -> bool)
    requires forall k :: 0 <= k < |pre| ==> isWs(pre[k])
    requires forall k :: 0 <= k < |post| ==> isWs(post[k])
    requires core == [] || (!isWs(core[0]) && !isWs(core[|core| - 1]))
    ensures Trim(pre + core + post, isWs) == core
  {
    var s := pre + core + post;
    var i, j := |pre|, |pre| + |core|;
    assert s[i..j] == core;
    forall k | j <= k < |s| ensures isWs(s[k]) {
      assert s[k] == post[k - j];
    }
    forall k | 0 <= k < i ensures isWs(s[k]) {
      assert s[k] == pre[k];
    }
    if i < j {
      assert s[i] == core[0] && s[j - 1] == core[|core| - 1];
    }
    TrimIsSlice(s, isWs, i, j);
  }

  /** Trimming twice is trimming once. */
  lemma TrimIdempotent(s: string, isWs: char -> bool)
    ensures Trim(Trim(s, isWs), isWs) == Trim(s, isWs)
  {
    var r := Trim(s, isWs);
    assert r[0..|r|] == r;
    TrimIsSlice(r, isWs, 0, |r|);
  }
}
