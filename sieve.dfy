/**
 * The binning sieve that stacking relies on: each datum is sieved into a bin
 * of width `binWidth` along the position axis and, when a numeric base was
 * given, into one of two sign classes relative to that base; every bin keeps
 * a running total.
 */
module BinSieve {
  import opened Wrappers
  import JsMath

  /**
   * A bin label.  The source builds the string `prefix + bin`, with prefix
   * `'v'` (`below` here) or `'^'`; two labels are the same string exactly
   * when both parts agree.
   */
  datatype Label = Label(below: bool, bin: int)

  /** The running total of bin `l`; a bin never written to counts as 0. */
  function Total(bins: map<Label, real>, l: Label): (r: real)
    ensures l in bins ==> r == bins[l]
    ensures l !in bins ==> r == 0.0
  {
    if l in bins then bins[l] else 0.0
  }

  /** The bins after `value` has been added to bin `l`. */
  function Deposit(bins: map<Label, real>, l: Label, value: real): (r: map<Label, real>)
    ensures Total(r, l) == Total(bins, l) + value
    ensures forall m :: m != l ==> Total(r, m) == Total(bins, m)
    ensures r.Keys == bins.Keys + {l}
  {
    bins[l := Total(bins, l) + value]
  }

  /** The sum of a sequence of values (0 for none). */
  function Sum(values: seq<real>): real
  {
    if values == [] then 0.0 else values[0] + Sum(values[1..])
  }

  /**
   * What successive deposits of `values` into bin `l`, starting from `bins`,
   * return one after the other: each one the total before it was added.
   */
  function Bases(bins: map<Label, real>, l: Label, values: seq<real>): (r: seq<real>)
    ensures |r| == |values|
    ensures values != [] ==> r[0] == Total(bins, l)
    decreases |values|
  {
    if values == [] then []
    else [Total(bins, l)] + Bases(Deposit(bins, l, values[0]), l, values[1..])
  }

  /** The bins after successive deposits of `values` into bin `l`. */
  function DepositAll(bins: map<Label, real>, l: Label, values: seq<real>): (r: map<Label, real>)
    ensures r.Keys == if values == [] then bins.Keys else bins.Keys + {l}
    decreases |values|
  {
    if values == [] then bins
    else DepositAll(Deposit(bins, l, values[0]), l, values[1..])
  }

  /**
   * Successive puts of s1, s2, ... into one bin return the prefix sums
   * 0, s1, s1 + s2, ... (offset by the bin's starting total): these are the
   * bases of a stack.
   */
  lemma {:induction false} BasesArePrefixSums(bins: map<Label, real>, l: Label, values: seq<real>, k: nat)
    requires k < |values|
    ensures Bases(bins, l, values)[k] == Total(bins, l) + Sum(values[..k])
    decreases |values|
  {
    if k > 0 {
      BasesArePrefixSums(Deposit(bins, l, values[0]), l, values[1..], k - 1);
      assert values[..k][1..] == values[1..][..k - 1];
    }
  }

  /** After all the deposits the bin holds its old total plus their sum; no other bin changes. */
  lemma {:induction false} DepositAllTotals(bins: map<Label, real>, l: Label, values: seq<real>)
    ensures Total(DepositAll(bins, l, values), l) == Total(bins, l) + Sum(values)
    ensures forall m :: m != l ==> Total(DepositAll(bins, l, values), m) == Total(bins, m)
    decreases |values|
  {
    if values != [] {
      DepositAllTotals(Deposit(bins, l, values[0]), l, values[1..]);
    }
  }

  class Sieve {
    const binWidth: real
    /** The base, present only when a numeric `binBase` was given. */
    const binBase: Option<real>
    /** The running total of every bin written so far. */
    var bins: map<Label, real>

    ghost predicate Valid()
    {
      binWidth != 0.0
    }

    constructor (binWidth: real, binBase: Option<real>)
      requires binWidth != 0.0
      ensures Valid()
      ensures this.binWidth == binWidth && this.binBase == binBase
      ensures bins == map[]
    {
      this.binWidth := binWidth;
      this.binBase := binBase;
      bins := map[];
    }

    /**
     * The bin of a datum: below the base when there is one and `value` is
     * smaller than it (a value equal to the base is not below), and the
     * position divided by the bin width, rounded to the nearest integer.
     */
    function BinLabel(position: real, value: real): (l: Label)
      requires Valid()
      ensures l.below <==> binBase.Some? && value < binBase.value
      ensures position / binWidth - 0.5 < l.bin as real <= position / binWidth + 0.5
    {
      Label(binBase.Some? && value < binBase.value, JsMath.Round(position / binWidth))
    }

    /** The current total of the datum's bin, 0 for a bin never written to. */
    function Get(position: real, value: real): (r: real)
      requires Valid()
      reads this
      ensures BinLabel(position, value) !in bins ==> r == 0.0
      ensures BinLabel(position, value) in bins ==> r == bins[BinLabel(position, value)]
    {
      Total(bins, BinLabel(position, value))
    }

    /**
     * Adds `value` to the datum's bin and returns the total the bin held
     * before.  Only that bin changes.
     */
    method Put(position: real, value: real) returns (previous: real)
      requires Valid()
      modifies this
      ensures Valid()
      ensures previous == old(Get(position, value))
      ensures Get(position, value) == previous + value
      ensures bins == Deposit(old(bins), BinLabel(position, value), value)
      ensures forall l :: l != BinLabel(position, value) ==> Total(bins, l) == Total(old(bins), l)
    {
      var bin := BinLabel(position, value);
      previous := Total(bins, bin);
      bins := bins[bin := previous + value];
    }

    /**
     * Successive puts of data that all share bin `l`: the totals returned
     * are the successive bases of that bin, and the bins end as the
     * deposits of all the values leave them.
     */
    method PutAll(positions: seq<real>, values: seq<real>, l: Label) returns (bases: seq<real>)
      requires Valid() && |positions| == |values|
      requires forall j :: 0 <= j < |values| ==> BinLabel(positions[j], values[j]) == l
      modifies this
      ensures Valid()
      ensures bases == Bases(old(bins), l, values)
      ensures bins == DepositAll(old(bins), l, values)
    {
      bases := [];
      var i := 0;
      while i < |values|
        invariant 0 <= i <= |values|
        invariant bases + Bases(bins, l, values[i..]) == Bases(old(bins), l, values)
        invariant DepositAll(bins, l, values[i..]) == DepositAll(old(bins), l, values)
      {
        ghost var before := bins;
        assert values[i..][1..] == values[i + 1..];
        var previous := Put(positions[i], values[i]);
        assert previous == Total(before, l) && bins == Deposit(before, l, values[i]);
        bases := bases + [previous];
        i := i + 1;
      }
      assert values[i..] == [];
    }

    /**
     * Bin `k` holds exactly the positions whose quotient by the bin width
     * lies in [k - 0.5, k + 0.5): a half goes to the bin above.
     */
    lemma BinOfInterval(position: real, value: real, k: int)
      requires Valid()
      requires k as real - 0.5 <= position / binWidth < k as real + 0.5
      ensures BinLabel(position, value).bin == k
    {
      var x := position / binWidth;
      var r := JsMath.Round(x);
      assert x - 0.5 < r as real <= x + 0.5;
      assert (r - k) as real < 1.0 && (k - r) as real < 1.0;
    }

    /**
     * Two data whose positions round to the same bin and that lie on the
     * same side of the base share one running total.
     */
    lemma SharedBin(p1: real, v1: real, p2: real, v2: real)
      requires Valid()
      requires JsMath.Round(p1 / binWidth) == JsMath.Round(p2 / binWidth)
      requires binBase.Some? ==> (v1 < binBase.value <==> v2 < binBase.value)
      ensures BinLabel(p1, v1) == BinLabel(p2, v2)
      ensures Get(p1, v1) == Get(p2, v2)
    {
    }

    /**
     * With a base, a value below it and one at or above it at the same
     * position go to different bins, so they accumulate independently.
     */
    lemma SignsSplit(position: real, below: real, above: real)
      requires Valid()
      requires binBase.Some? && below < binBase.value <= above
      ensures BinLabel(position, below) != BinLabel(position, above)
    {
    }
  }

  /**
   * The stack case of the calc tests: three traces y = [2, 1, 2], [3, 1, 2]
   * and [null, null, 2] over positions 0, 1, 2 (null sizes are not put).
   * The bases returned are [0, 0, 0], [2, 1, 2] and [4] at position 2.
   */
  method StackCaseBases() returns (bases: seq<real>)
    ensures bases == [0.0, 0.0, 0.0, 2.0, 1.0, 2.0, 4.0]
  {
    var sieve := new Sieve(1.0, None);
    var b0 := sieve.Put(0.0, 2.0);
    var b1 := sieve.Put(1.0, 1.0);
    var b2 := sieve.Put(2.0, 2.0);
    var b3 := sieve.Put(0.0, 3.0);
    var b4 := sieve.Put(1.0, 1.0);
    var b5 := sieve.Put(2.0, 2.0);
    var b6 := sieve.Put(2.0, 2.0);
    bases := [b0, b1, b2, b3, b4, b5, b6];
  }

  /**
   * The relative case of the calc tests: a sieve split at base 0, traces
   * y = [20, 14, -23] and [-12, -18, -29].  Negative values at positions 0
   * and 1 start a bin of their own (base 0); at position 2 the second
   * negative value stacks on the first (base -23).
   */
  method RelativeCaseBases() returns (bases: seq<real>)
    ensures bases == [0.0, 0.0, 0.0, 0.0, 0.0, -23.0]
  {
    var sieve := new Sieve(1.0, Some(0.0));
    var b0 := sieve.Put(0.0, 20.0);
    var b1 := sieve.Put(1.0, 14.0);
    var b2 := sieve.Put(2.0, -23.0);
    var b3 := sieve.Put(0.0, -12.0);
    var b4 := sieve.Put(1.0, -18.0);
    var b5 := sieve.Put(2.0, -29.0);
    bases := [b0, b1, b2, b3, b4, b5];
  }
}
