/** How Lua sizes the array part of a table (ltable.c, rehash). */
module TableSizes {
  import opened Basics

  const MAXBITS: nat := 26
  const MAXASIZE: nat := Pow2(MAXBITS)

  function Pow2(n: nat): (r: nat)
    ensures r > 0
  {
    if n == 0 then 1 else 2 * Pow2(n - 1)
  }

  lemma {:induction false} Pow2Grows(a: nat, b: nat)
    requires a < b
    ensures Pow2(a) < Pow2(b)
    decreases b
  {
    if a < b - 1 { Pow2Grows(a, b - 1); }
  }

  /** ceillog2: the least power of two that is not below x */
  function CeilLog2(x: nat): (r: nat)
    requires x > 0
    ensures x <= Pow2(r) && (r > 0 ==> Pow2(r - 1) < x)
  {
    LogFrom(x, 0)
  }

  function LogFrom(x: nat, i: nat): (r: nat)
    requires x > 0 && (i > 0 ==> Pow2(i - 1) < x)
    ensures x <= Pow2(r) && (r > 0 ==> Pow2(r - 1) < x)
    decreases x - Pow2(i)
  {
    if x <= Pow2(i) then i else LogFrom(x, i + 1)
  }

  lemma LogBelow(x: nat, i: nat)
    requires x > 0
    ensures CeilLog2(x) <= i <==> x <= Pow2(i)
  {
    var r := CeilLog2(x);
    if i < r {
      if i < r - 1 { Pow2Grows(i, r - 1); }
    } else if r < i {
      Pow2Grows(r, i);
    }
  }

  // ---- counting keys ---------------------------------------------------------------------------------------

  // The keys of s in the slice lg, which ends at 2 to the power of lg
  function Slice(s: set<nat>, lg: nat): set<nat> {
    set k | k in s && k > 0 && CeilLog2(k) == lg
  }

  function UpTo(s: set<nat>, n: nat): set<nat> {
    set k | k in s && 0 < k <= n
  }

  // nums counts the keys of s in each slice.
  predicate Counts(nums: seq<nat>, s: set<nat>) {
    |nums| == MAXBITS + 1 && forall lg :: 0 <= lg <= MAXBITS ==> nums[lg] == |Slice(s, lg)|
  }

  lemma SliceAdd(s: set<nat>, k: nat, lg: nat)
    requires k > 0 && k !in s
    ensures |Slice(s + {k}, lg)| == |Slice(s, lg)| + if CeilLog2(k) == lg then 1 else 0
  {
    if CeilLog2(k) == lg {
      assert Slice(s + {k}, lg) == Slice(s, lg) + {k};
    } else {
      assert Slice(s + {k}, lg) == Slice(s, lg);
    }
  }

  lemma CountOne(nums: seq<nat>, s: set<nat>, k: nat)
    requires Counts(nums, s) && 0 < k <= MAXASIZE && k !in s
    ensures CeilLog2(k) <= MAXBITS && Counts(nums[CeilLog2(k) := nums[CeilLog2(k)] + 1], s + {k})
  {
    LogBelow(k, MAXBITS);
    var nums' := nums[CeilLog2(k) := nums[CeilLog2(k)] + 1];
    forall lg | 0 <= lg <= MAXBITS
      ensures nums'[lg] == |Slice(s + {k}, lg)|
    {
      SliceAdd(s, k, lg);
    }
  }

  lemma SliceStep(s: set<nat>, lg: nat)
    ensures |UpTo(s, Pow2(lg))| == |Slice(s, lg)| + if lg == 0 then 0 else |UpTo(s, Pow2(lg - 1))|
  {
    if lg == 0 {
      forall k: nat | k > 0
        ensures k <= Pow2(0) <==> CeilLog2(k) == 0
      {
        LogBelow(k, 0);
      }
      assert UpTo(s, Pow2(0)) == Slice(s, 0);
    } else {
      forall k: nat | k > 0
        ensures k <= Pow2(lg) <==> k <= Pow2(lg - 1) || CeilLog2(k) == lg
        ensures !(k <= Pow2(lg - 1) && CeilLog2(k) == lg)
      {
        LogBelow(k, lg);
        LogBelow(k, lg - 1);
      }
      assert UpTo(s, Pow2(lg)) == UpTo(s, Pow2(lg - 1)) + Slice(s, lg);
      assert UpTo(s, Pow2(lg - 1)) !! Slice(s, lg);
    }
  }

  lemma {:induction false} UpToSize(s: set<nat>, n: nat)
    ensures |UpTo(s, n)| <= n
    decreases n
  {
    if n == 0 {
      assert UpTo(s, 0) == {};
    } else {
      UpToSize(s, n - 1);
      if n in s {
        assert UpTo(s, n) == UpTo(s, n - 1) + {n};
      } else {
        assert UpTo(s, n) == UpTo(s, n - 1);
      }
    }
  }

  // ---- the size of the array part --------------------------------------------------------------------------

  // More than half of the slots 1..n would be used.
  predicate Dense(s: set<nat>, n: nat) {
    |UpTo(s, n)| > n / 2
  }

  predicate IsSize(n: nat) {
    n == 0 || exists j :: 0 <= j <= MAXBITS && n == Pow2(j)
  }

  /** n is the largest power of two, or 0, that leaves less than half of the array part unused. */
  ghost predicate Optimal(s: set<nat>, n: nat) {
    && IsSize(n) && (n > 0 ==> Dense(s, n))
    && forall j: nat :: Dense(s, Pow2(j)) ==> Pow2(j) <= n
  }

  // When all keys have been counted, or cannot be more than half of the slots, no larger size is dense.
  lemma NoneDenser(s: set<nat>, i: nat, total: nat)
    requires |UpTo(s, Pow2(i))| == total || total <= Pow2(i) / 2
    requires forall k :: k in s ==> 0 < k <= MAXASIZE
    requires total == |s|
    ensures forall j: nat :: j > i ==> !Dense(s, Pow2(j))
    ensures total <= Pow2(i) / 2 ==> !Dense(s, Pow2(i))
  {
    forall j: nat
      ensures |UpTo(s, Pow2(j))| <= total
    {
      SubsetCount(UpTo(s, Pow2(j)), s);
    }
    forall j: nat | j > i
      ensures !Dense(s, Pow2(j))
    {
      if j > i + 1 { Pow2Grows(i, j - 1); }
      UpToSize(s, Pow2(i));
      assert Pow2(j) == 2 * Pow2(j - 1);
    }
  }

  // A slice without keys makes no size dense.
  lemma NotDense(s: set<nat>, i: nat)
    requires Slice(s, i) == {}
    ensures !Dense(s, Pow2(i))
  {
    SliceStep(s, i);
    if i > 0 {
      UpToSize(s, Pow2(i - 1));
    }
  }

  // The state of computesizes in front of slice i
  ghost predicate Computed(s: set<nat>, i: nat, a: nat, n: nat, na: nat) {
    && a == (if i == 0 then 0 else |UpTo(s, Pow2(i - 1))|) && IsSize(n) && (n > 0 ==> Dense(s, n)) && na == |UpTo(s, n)|
    && forall j: nat :: j < i && Dense(s, Pow2(j)) ==> Pow2(j) <= n
  }

  lemma ComputedNext(s: set<nat>, i: nat, a: nat, n: nat, na: nat)
    requires Computed(s, i, a, n, na) && i <= MAXBITS
    ensures var a' := a + |Slice(s, i)|;
            if |Slice(s, i)| > 0 && a' > Pow2(i) / 2
              then Computed(s, i + 1, a', Pow2(i), a') else Computed(s, i + 1, a', n, na)
  {
    SliceStep(s, i);
    EmptySlice(s, i);
    hide Slice, UpTo, CeilLog2, Pow2;
    assert i > 0 ==> i + 1 - 1 == i;
    var n' := if |Slice(s, i)| > 0 && a + |Slice(s, i)| > Pow2(i) / 2 then Pow2(i) else n;
    if n' == Pow2(i) {
      assert IsSize(Pow2(i));
      forall j: nat | j < i + 1 && Dense(s, Pow2(j))
        ensures Pow2(j) <= n'
      {
        if j < i { Pow2Grows(j, i); }
      }
    }
  }

  lemma EmptySlice(s: set<nat>, i: nat)
    ensures |Slice(s, i)| == 0 ==> !Dense(s, Pow2(i))
  {
    if |Slice(s, i)| == 0 { NotDense(s, i); }
  }

  lemma ComputedStart(s: set<nat>)
    ensures Computed(s, 0, 0, 0, 0)
  {
    assert UpTo(s, 0) == {};
  }

  // Every key of s is at most MAXASIZE.
  lemma AllInSlices(s: set<nat>)
    requires forall k :: k in s ==> 0 < k <= MAXASIZE
    ensures UpTo(s, Pow2(MAXBITS)) == s && |s| <= MAXASIZE
  {
    assert UpTo(s, Pow2(MAXBITS)) == s;
    UpToSize(s, Pow2(MAXBITS));
  }

  lemma ComputedDone(s: set<nat>, i: nat, a: nat, n: nat, na: nat)
    requires Computed(s, i, a, n, na) && (forall k :: k in s ==> 0 < k <= MAXASIZE)
    requires (i > 0 && a == |s|) || |s| <= Pow2(i) / 2
    ensures Optimal(s, n) && na == |UpTo(s, n)|
  {
    if i > 0 && a == |s| {
      NoneDenser(s, i - 1, |s|);
    } else {
      NoneDenser(s, i, |s|);
    }
    forall j: nat | Dense(s, Pow2(j))
      ensures Pow2(j) <= n
    {
      assert j < i;
    }
  }

  /** computesizes: narray keys are counted in nums.  The result is the size of the array part and the number of
      keys that will be in it. */
  method ComputeSizes(nums: array<nat>, narray: nat, ghost s: set<nat>) returns (n: nat, na: nat)
    requires Counts(nums[..], s) && narray == |s| && forall k :: k in s ==> 0 < k <= MAXASIZE
    ensures Optimal(s, n) && na == |UpTo(s, n)|
  {
    hide Slice, UpTo, CeilLog2, Optimal, Computed;
    var i: nat, twotoi, a: nat := 0, 1, 0;
    n, na := 0, 0;
    AllInSlices(s);
    ComputedStart(s);
    while twotoi / 2 < narray
      invariant i <= MAXBITS + 1 && twotoi == Pow2(i) && Computed(s, i, a, n, na)
      decreases MAXBITS + 1 - i
    {
      if i > MAXBITS { assert false; }
      ghost var n0, na0 := n, na;
      ComputedNext(s, i, a, n, na);
      if nums[i] > 0 {
        a := a + nums[i];
        if a > twotoi / 2 {
          n := twotoi;
          na := a;
        }
      }
      i := i + 1;
      if a == narray { break; }
      twotoi := twotoi * 2;
    }
    ComputedDone(s, i, a, n, na);
  }
}
