/** Dividing an amount: the equal split with remainder and the check of a manual split. */
module MoneySplit {
  import opened Wrappers
  import opened MoneyText

  /** The mathematical sum, which may exceed int64. */
  function Total(shares: seq<int64>): int {
    if shares == [] then 0 else Total(shares[..|shares| - 1]) + shares[|shares| - 1] as int
  }

  lemma TotalStep(shares: seq<int64>, k: nat)
    requires k < |shares|
    ensures Total(shares[..k + 1]) == Total(shares[..k]) + shares[k] as int
  {
    assert shares[..k + 1][..k] == shares[..k];
  }

  lemma {:induction false} TotalPositive(shares: seq<int64>, k: nat)
    requires k <= |shares|
    requires forall i :: 0 <= i < |shares| ==> shares[i] > 0
    ensures Total(shares[..k]) <= Total(shares)
    ensures k < |shares| ==> Total(shares[..k]) < Total(shares)
    decreases |shares| - k
  {
    if k < |shares| {
      TotalPositive(shares, k + 1);
      TotalStep(shares, k);
    } else {
      assert shares[..k] == shares;
    }
  }

  lemma {:induction false} TotalMonotone(a: seq<int64>, b: seq<int64>)
    requires |a| == |b|
    requires forall i :: 0 <= i < |a| ==> a[i] <= b[i]
    ensures Total(a) <= Total(b)
    ensures a != b ==> Total(a) < Total(b)
  {
    if a == [] {
    } else {
      var n := |a| - 1;
      TotalMonotone(a[..n], b[..n]);
      assert a == a[..n] + [a[n]] && b == b[..n] + [b[n]];
    }
  }

  // ---------------------------------------------------------------- equal split

  /** n positive, non-decreasing shares that sum to total and differ by at most one unit. */
  ghost predicate EvenSplit(total: int, n: int, shares: seq<int64>) {
    && |shares| == n
    && Total(shares) == total
    && (forall i :: 0 <= i < n ==> shares[i] > 0)
    && (forall i, j :: 0 <= i <= j < n ==> shares[i] <= shares[j] && shares[j] as int <= shares[i] as int + 1)
  }

  method SplitEqual(totalMinor: int64, participants: int64) returns (r: Result<seq<int64>, MoneyError>)
    ensures r.Success? <==> totalMinor > 0 && participants > 0 && totalMinor >= participants
    ensures r.Success? ==> EvenSplit(totalMinor as int, participants as int, r.value)
    ensures r.Failure? ==> r.error == InvalidSplit
  {
    if totalMinor <= 0 || participants <= 0 {
      return Failure(InvalidSplit);
    }
    var base := totalMinor / participants;
    var remainder := totalMinor % participants;
    assert totalMinor as int == participants as int * base as int + remainder as int;
    DivisionSize(totalMinor as int, participants as int, base as int, remainder as int);
    if base == 0 {
      return Failure(InvalidSplit);
    }
    var shares := FillShares(base, participants - remainder, participants);
    assert PrefixTotal(base as int, (participants - remainder) as int, participants as int) == totalMinor as int;
    return Success(shares);
  }

  /** The filling loop: base for the indices below first, base + 1 from there on. */
  method FillShares(base: int64, first: int64, participants: int64) returns (filled: seq<int64>)
    requires 0 <= first <= participants
    requires first < participants ==> base as int < MAX_INT64
    ensures |filled| == participants as int
    ensures forall k :: 0 <= k < |filled| ==> filled[k] == if k < first as int then base else base + 1
    ensures Total(filled) == PrefixTotal(base as int, first as int, participants as int)
  {
    var shares := new int64[participants as int];
    for i := 0 to shares.Length
      invariant forall k :: 0 <= k < i ==> shares[k] == if k < first as int then base else base + 1
      invariant Total(shares[..i]) == PrefixTotal(base as int, first as int, i)
    {
      ghost var before := shares[..i];
      shares[i] := base;
      if i >= first as int {
        shares[i] := shares[i] + 1;
      }
      assert shares[..i + 1] == before + [shares[i]];
      assert (before + [shares[i]])[..i] == before;
      PrefixTotalStep(base as int, first as int, i);
    }
    filled := shares[..];
    assert shares[..shares.Length] == filled;
  }

  /** The first i shares: base each, one more from index first on. */
  ghost function PrefixTotal(base: int, first: int, i: int): int {
    i * base + (if i <= first then 0 else i - first)
  }

  lemma PrefixTotalStep(base: int, first: int, i: int)
    ensures PrefixTotal(base, first, i + 1) == PrefixTotal(base, first, i) + (if i < first then base else base + 1)
  {
    assert (i + 1) * base == i * base + base;
  }

  lemma DivisionSize(total: int, n: int, base: int, remainder: int)
    requires total > 0 && n > 0
    requires total == n * base + remainder && 0 <= remainder < n
    ensures base >= 0
    ensures base == 0 <==> total < n
    ensures base == total ==> remainder == 0
  {
    assert base < 0 ==> n * base <= -n;
    if base >= 1 {
      assert n * base >= n && n * base >= base;
    }
  }

  lemma {:induction false} SharesPrefix(base: int, first: nat, shares: seq<int64>, k: nat)
    requires k <= |shares|
    requires forall i :: 0 <= i < |shares| ==> shares[i] as int == if i < first then base else base + 1
    ensures Total(shares[..k]) == PrefixTotal(base, first, k)
  {
    if k == 0 {
    } else {
      SharesPrefix(base, first, shares, k - 1);
      TotalStep(shares, k - 1);
      PrefixTotalStep(base, first, k - 1);
    }
  }

  /** An amount can be split evenly among n > 0 exactly when there is a unit for each. */
  lemma EvenSplitExists(total: int, n: nat)
    requires n > 0 && total <= MAX_INT64
    ensures (exists shares :: EvenSplit(total, n, shares)) <==> n <= total
  {
    if n <= total {
      var base, rem := total / n, total % n;
      DivisionSize(total, n, base, rem);
      DivisionFits(total, n, base, rem);
      var shares := seq(n, i requires 0 <= i < n => if i < n - rem then base as int64 else (base + 1) as int64);
      SharesPrefix(base, n - rem, shares, n);
      assert shares[..n] == shares;
      assert EvenSplit(total, n, shares);
    }
    forall shares | EvenSplit(total, n, shares) ensures n <= total {
      TotalAtLeast(shares);
    }
  }

  lemma DivisionFits(total: int, n: int, base: int, rem: int)
    requires 0 < n <= total && total == n * base + rem && 0 <= rem < n && base >= 1
    ensures base <= total && (rem > 0 ==> base + 1 <= total)
  {
    assert n * base >= base;
  }

  lemma {:induction false} TotalAtLeast(shares: seq<int64>)
    requires forall i :: 0 <= i < |shares| ==> shares[i] > 0
    ensures |shares| <= Total(shares)
  {
    if shares == [] {
    } else {
      TotalAtLeast(shares[..|shares| - 1]);
    }
  }

  /** There is exactly one even split of an amount among n. */
  lemma EvenSplitUnique(total: int, n: int, a: seq<int64>, b: seq<int64>)
    requires EvenSplit(total, n, a) && EvenSplit(total, n, b)
    ensures a == b
  {
    if a != b {
      var i :| 0 <= i < n && a[i] != b[i];
      var (x, y) := if a[i] < b[i] then (a, b) else (b, a);
      forall j | 0 <= j < n ensures x[j] <= y[j] {
        if j <= i {
          assert x[j] <= x[i] && y[i] as int <= y[j] as int + 1;
        } else {
          assert x[j] as int <= x[i] as int + 1 && y[i] <= y[j];
        }
      }
      TotalMonotone(x, y);
      assert false;
    }
  }

  // ---------------------------------------------------------------- manual split

  ghost predicate PositiveSplit(total: int, shares: seq<int64>) {
    total > 0 && shares != [] && forall i :: 0 <= i < |shares| ==> shares[i] > 0
  }

  /**
   * Decides the split on unbounded integers although the accumulator is an int64:
   * the overflow guard only turns a mismatch into an invalid split.
   */
  method ValidateManualSplit(totalMinor: int64, shares: seq<int64>) returns (r: Result<(), MoneyError>)
    ensures r.Success? <==> PositiveSplit(totalMinor as int, shares) && Total(shares) == totalMinor as int
    ensures r == Failure(SplitMismatch) <==>
            PositiveSplit(totalMinor as int, shares) && Total(shares) <= MAX_INT64 && Total(shares) != totalMinor as int
    ensures r.Failure? ==> r.error == SplitMismatch || r.error == InvalidSplit
  {
    if totalMinor <= 0 || |shares| == 0 {
      return Failure(InvalidSplit);
    }
    var sum: int64 := 0;
    for i := 0 to |shares|
      invariant forall k :: 0 <= k < i ==> shares[k] > 0
      invariant 0 <= sum as int == Total(shares[..i])
    {
      var share := shares[i];
      if share <= 0 {
        return Failure(InvalidSplit);
      }
      TotalStep(shares, i);
      if sum > MAX_INT64 as int64 - share {
        if PositiveSplit(totalMinor as int, shares) {
          TotalPositive(shares, i + 1);
        }
        return Failure(InvalidSplit);
      }
      sum := sum + share;
    }
    assert shares[..|shares|] == shares;
    if sum != totalMinor {
      return Failure(SplitMismatch);
    }
    return Success(());
  }
}
