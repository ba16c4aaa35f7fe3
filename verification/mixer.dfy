/**
 * The post-processing half of `create_mix_profile`: the least-squares
 * weights arrive as an input, are clipped, normalised, cut down to the k
 * largest, renormalised, scaled to the glass volume and turned into a recipe
 * of the entries above a small threshold.
 */
module Mixer {
  import opened Seqs
  import opened Outcomes

  /** Volumes at or below this many millilitres are left out of the recipe. */
  const Threshold: real := 0.000001

  /** One line of a recipe: an ingredient name and its volume in millilitres. */
  datatype Entry = Entry(name: string, volume: real)

  /** The ingredient names of a recipe, in recipe order. */
  function Names(r: seq<Entry>): (ns: seq<string>)
    ensures |ns| == |r|
  {
    if r == [] then [] else [r[0].name] + Names(r[1..])
  }

  /** The total volume of a recipe. */
  function Total(r: seq<Entry>): real
  {
    if r == [] then 0.0 else r[0].volume + Total(r[1..])
  }

  /**
   * The volume the recipe gives `name` when read as a dictionary. The search
   * takes the first matching entry; a recipe's names are distinct, so this
   * is the only entry for `name`.
   */
  function Lookup(r: seq<Entry>, name: string): Option<real>
  {
    if r == [] then None
    else if r[0].name == name then Some(r[0].volume)
    else Lookup(r[1..], name)
  }

  predicate Distinct(names: seq<string>)
  {
    forall i, j :: 0 <= i < j < |names| ==> names[i] != names[j]
  }

  /** Step 2: negative weights are raised to zero (`np.maximum(w, 0)`). */
  function Clip(w: seq<real>): (r: seq<real>)
    ensures |r| == |w| && NonNegative(r)
    ensures forall i :: 0 <= i < |w| && w[i] >= 0.0 ==> r[i] == w[i]
    ensures forall i :: 0 <= i < |w| && w[i] < 0.0 ==> r[i] == 0.0
  {
    seq(|w|, i requires 0 <= i < |w| => if w[i] > 0.0 then w[i] else 0.0)
  }

  /**
   * Step 3: divide by the sum when it is positive, otherwise fall back to
   * the uniform distribution 1/n. An empty vector stays empty.
   */
  function Normalise(w: seq<real>): (r: seq<real>)
    ensures |r| == |w|
  {
    var s := Sum(w);
    if s > 0.0 then Scale(w, 1.0 / s)
    else if w == [] then []
    else Constant(|w|, 1.0 / (|w| as real))
  }

  /**
   * `mask` selects `k` positions of `w`, and no unselected weight exceeds a
   * selected one: the first k indices of some descending `argsort`. Among
   * equal weights the choice is left open, as `np.argsort` is not stable.
   */
  predicate IsTopK(w: seq<real>, mask: seq<bool>, k: nat)
  {
    && |mask| == |w|
    && CountTrue(mask) == k
    && forall i, j :: 0 <= i < |w| && 0 <= j < |w| && mask[i] && !mask[j] ==> w[j] <= w[i]
  }

  /** Step 4, `w[~mask] = 0`: unselected weights become zero. */
  function Retain(w: seq<real>, mask: seq<bool>): (r: seq<real>)
    requires |mask| == |w|
    ensures |r| == |w|
  {
    seq(|w|, i requires 0 <= i < |w| => if mask[i] then w[i] else 0.0)
  }

  /**
   * Step 4, renormalisation as written: divide by the retained sum when it is
   * positive, otherwise `np.ones_like(w[mask]) / k`, which has k entries.
   */
  function Renormalise(v: seq<real>, k: nat): seq<real>
    requires k >= 1
  {
    var s := Sum(v);
    if s > 0.0 then Scale(v, 1.0 / s) else Constant(k, 1.0 / (k as real))
  }

  /** The weights `create_mix_profile` scales, for the top-k choice `mask`. */
  function MixWeights(raw: seq<real>, k: nat, mask: seq<bool>): seq<real>
    requires k >= 1 && |mask| == |raw|
  {
    var w := Normalise(Clip(raw));
    if k < |w| then Renormalise(Retain(w, mask), k) else w
  }

  /**
   * Steps 5-6 without the two-decimal rounding: pair names with volumes as
   * `zip` does (stopping at the shorter) and keep the pairs whose volume
   * exceeds the threshold, in input order.
   */
  function Recipe(names: seq<string>, volumes: seq<real>): seq<Entry>
  {
    if names == [] || volumes == [] then []
    else
      var rest := Recipe(names[1..], volumes[1..]);
      if volumes[0] > Threshold then [Entry(names[0], volumes[0])] + rest else rest
  }

  /** Normalisation always yields a distribution: non-negative weights summing to 1. */
  lemma NormaliseIsDistribution(w: seq<real>)
    requires |w| > 0 && NonNegative(w)
    ensures NonNegative(Normalise(w)) && Sum(Normalise(w)) == 1.0
  {
    var s := Sum(w);
    if s > 0.0 {
      SumScale(w, 1.0 / s);
      ScaleNonNegative(w, 1.0 / s);
    } else {
      SumConstant(|w|, 1.0 / (|w| as real));
    }
  }

  /**
   * The uniform fallback of the renormalisation is unreachable: the top k
   * (k >= 1) of a distribution always keep positive mass, because they
   * include a largest weight.
   */
  lemma RetainedMassPositive(w: seq<real>, mask: seq<bool>, k: nat)
    requires NonNegative(w) && Sum(w) == 1.0
    requires k >= 1 && IsTopK(w, mask, k)
    ensures Sum(Retain(w, mask)) > 0.0
  {
    var r := Retain(w, mask);
    assert NonNegative(r);
    if Sum(r) <= 0.0 {
      var m := SelectedExists(mask);
      forall i | 0 <= i < |w| ensures w[i] == 0.0 {
        ElementAtMostSum(r, i);
        ElementAtMostSum(r, m);
        assert r[m] == w[m];
      }
      SumAllZero(w);
      assert false;
    }
  }

  /**
   * Keeping the top k of a distribution and renormalising gives a
   * distribution again, with at most k non-zero weights; the retained mass
   * is positive, so the division branch is the one taken.
   */
  lemma RenormaliseTopK(w: seq<real>, mask: seq<bool>, k: nat)
    requires NonNegative(w) && Sum(w) == 1.0
    requires k >= 1 && IsTopK(w, mask, k)
    ensures Sum(Retain(w, mask)) > 0.0
    ensures var m := Renormalise(Retain(w, mask), k);
      && |m| == |w|
      && NonNegative(m)
      && Sum(m) == 1.0
      && CountNonZero(m) <= k
  {
    var r := Retain(w, mask);
    RetainedMassPositive(w, mask, k);
    var s := Sum(r);
    var m := Scale(r, 1.0 / s);
    assert Renormalise(r, k) == m;
    SumScale(r, 1.0 / s);
    assert (1.0 / s) * s == 1.0;
    CountNonZeroScale(r, 1.0 / s);
    RetainCountNonZero(w, mask);
    assert NonNegative(r);
    ScaleNonNegative(r, 1.0 / s);
  }

  /** With positive retained mass a selected weight becomes its share of that mass and every other weight zero. */
  lemma RenormalisedWeights(w: seq<real>, mask: seq<bool>, k: nat)
    requires |mask| == |w| && k >= 1
    requires Sum(Retain(w, mask)) > 0.0
    ensures forall i :: 0 <= i < |w| ==>
      Renormalise(Retain(w, mask), k)[i] == (if mask[i] then w[i] * (1.0 / Sum(Retain(w, mask))) else 0.0)
  {
    var r := Retain(w, mask);
    var s := Sum(r);
    var m := Scale(r, 1.0 / s);
    assert Renormalise(r, k) == m;
    forall i | 0 <= i < |w|
      ensures m[i] == (if mask[i] then w[i] * (1.0 / s) else 0.0)
    {
      assert r[i] == (if mask[i] then w[i] else 0.0);
    }
  }

  /**
   * The weights that are scaled to volumes form a distribution with at most
   * min(k, n) non-zero entries; when k >= n nothing is truncated.
   */
  lemma MixWeightsShape(raw: seq<real>, k: nat, mask: seq<bool>)
    requires k >= 1 && |mask| == |raw| && |raw| > 0
    requires k < |raw| ==> IsTopK(Normalise(Clip(raw)), mask, k)
    ensures var m := MixWeights(raw, k, mask);
      && |m| == |raw|
      && NonNegative(m)
      && Sum(m) == 1.0
      && CountNonZero(m) <= k
    ensures k >= |raw| ==> MixWeights(raw, k, mask) == Normalise(Clip(raw))
  {
    var w := Normalise(Clip(raw));
    NormaliseIsDistribution(Clip(raw));
    if k < |raw| {
      RenormaliseTopK(w, mask, k);
    } else {
      CountNonZeroAtMostLength(w);
    }
  }

  /** Zeroing the unselected weights leaves at most as many non-zero weights as were selected. */
  lemma {:induction false} RetainCountNonZero(w: seq<real>, mask: seq<bool>)
    requires |mask| == |w|
    ensures CountNonZero(Retain(w, mask)) <= CountTrue(mask)
  {
    if w != [] {
      assert Retain(w, mask)[1..] == Retain(w[1..], mask[1..]);
      RetainCountNonZero(w[1..], mask[1..]);
    }
  }

  /**
   * A recipe lists names in their input order, each with a volume above the
   * threshold, and has no more entries than there are such volumes.
   */
  lemma {:induction false} RecipeShape(names: seq<string>, volumes: seq<real>)
    ensures var r := Recipe(names, volumes);
      && (forall e :: e in r ==> e.volume > Threshold)
      && IsSubsequence(Names(r), names)
      && |r| <= |names|
      && |r| <= CountAbove(volumes, Threshold)
  {
    if names != [] && volumes != [] {
      RecipeShape(names[1..], volumes[1..]);
    }
  }

  /**
   * Read as a dictionary, the recipe maps the i-th name to the i-th volume
   * exactly when that volume exceeds the threshold (names are distinct keys).
   */
  lemma {:induction false} RecipeLookup(names: seq<string>, volumes: seq<real>, i: nat)
    requires Distinct(names) && i < |names| && i < |volumes|
    ensures Lookup(Recipe(names, volumes), names[i])
      == if volumes[i] > Threshold then Some(volumes[i]) else None
  {
    if i == 0 {
      if volumes[0] <= Threshold {
        RecipeLookupAbsent(names[1..], volumes[1..], names[0]);
      }
    } else {
      RecipeLookup(names[1..], volumes[1..], i - 1);
    }
  }

  /** A name that is not among the inputs is not in the recipe. */
  lemma {:induction false} RecipeLookupAbsent(names: seq<string>, volumes: seq<real>, x: string)
    requires x !in names
    ensures Lookup(Recipe(names, volumes), x) == None
  {
    if names != [] && volumes != [] {
      RecipeLookupAbsent(names[1..], volumes[1..], x);
    }
  }

  /**
   * Filtering only removes volume, and each removed volume is at most the
   * threshold: the total lies between sum - n * threshold and sum.
   */
  lemma {:induction false} RecipeTotalBounds(names: seq<string>, volumes: seq<real>)
    requires NonNegative(volumes)
    ensures Total(Recipe(names, volumes)) <= Sum(volumes)
    ensures |names| >= |volumes| ==>
      Total(Recipe(names, volumes)) >= Sum(volumes) - (|volumes| as real) * Threshold
  {
    if names == [] || volumes == [] {
      SumNonNegative(volumes);
    } else {
      RecipeTotalBounds(names[1..], volumes[1..]);
    }
  }

  /**
   * Step 4's in-place update: the array entries outside the mask are set
   * to zero, the others stay as they were.
   */
  method ZeroUnselected(w: array<real>, mask: seq<bool>)
    requires |mask| == w.Length
    modifies w
    ensures w[..] == Retain(old(w[..]), mask)
  {
    forall i | 0 <= i < w.Length && !mask[i] {
      w[i] := 0.0;
    }
  }

  /** The index of a largest weight among the unselected positions. */
  method MaxUnselected(w: seq<real>, mask: seq<bool>) returns (m: nat)
    requires |mask| == |w| && CountTrue(mask) < |mask|
    ensures m < |w| && !mask[m]
    ensures forall j :: 0 <= j < |w| && !mask[j] ==> w[j] <= w[m]
  {
    ghost var u := UnselectedExists(mask);
    m := 0;
    var found := false;
    var i := 0;
    while i < |w|
      invariant 0 <= i <= |w|
      invariant found ==> m < |w| && !mask[m]
      invariant found ==> forall j :: 0 <= j < i && !mask[j] ==> w[j] <= w[m]
      invariant !found ==> forall j :: 0 <= j < i ==> mask[j]
    {
      if !mask[i] && (!found || w[i] > w[m]) {
        m := i;
        found := true;
      }
      i := i + 1;
    }
    assert found by { assert !mask[u]; }
  }

  /** Step 4's `argsort(-w)[:k]`: select k positions holding the k largest weights. */
  method SelectTopK(w: seq<real>, k: nat) returns (mask: seq<bool>)
    requires k <= |w|
    ensures IsTopK(w, mask, k)
  {
    mask := seq(|w|, i => false);
    CountTrueAllFalse(|w|);
    var t := 0;
    while t < k
      invariant t <= k
      invariant |mask| == |w| && CountTrue(mask) == t
      invariant forall i, j :: 0 <= i < |w| && 0 <= j < |w| && mask[i] && !mask[j] ==> w[j] <= w[i]
    {
      var m := MaxUnselected(w, mask);
      CountTrueSet(mask, m);
      mask := mask[m := true];
      t := t + 1;
    }
  }

  /**
   * The guarantees of the finished recipe: at most min(k, n) entries, each
   * above the threshold, in ingredient order, and for a non-negative volume a
   * total of at most `totalVolume` and at least `totalVolume` minus n
   * thresholds.
   */
  lemma MixRecipeGuarantees(raw: seq<real>, names: seq<string>, k: nat, mask: seq<bool>, totalVolume: real)
    requires k >= 1 && |mask| == |raw|
    requires k < |raw| ==> IsTopK(Normalise(Clip(raw)), mask, k)
    ensures var recipe := Recipe(names, Scale(MixWeights(raw, k, mask), totalVolume));
      && |recipe| <= k && |recipe| <= |names| && |recipe| <= |raw|
      && (forall e :: e in recipe ==> e.volume > Threshold)
      && IsSubsequence(Names(recipe), names)
      && (totalVolume >= 0.0 ==> Total(recipe) <= totalVolume)
      && (totalVolume >= 0.0 && |names| >= |raw| > 0 ==>
            Total(recipe) >= totalVolume - (|raw| as real) * Threshold)
  {
    var w := MixWeights(raw, k, mask);
    var volumes := Scale(w, totalVolume);
    RecipeShape(names, volumes);
    if raw != [] {
      MixWeightsShape(raw, k, mask);
      CountAboveAtMostNonZero(volumes, Threshold);
      if totalVolume != 0.0 {
        CountNonZeroScale(w, totalVolume);
      } else {
        CountAboveZeroes(volumes);
      }
      CountNonZeroAtMostLength(w);
      if totalVolume >= 0.0 {
        SumScale(w, totalVolume);
        ScaleNonNegative(w, totalVolume);
        RecipeTotalBounds(names, volumes);
      }
    }
  }

  /**
   * `create_mix_profile` from the clipping step on, for the raw least-squares
   * weights `raw`. `selected` is the top-k choice made, which the source does
   * not return.
   */
  method CreateMixProfile(raw: seq<real>, names: seq<string>, k: nat, totalVolume: real)
    returns (recipe: seq<Entry>, ghost selected: seq<bool>)
    requires k >= 1
    ensures |selected| == |raw|
    ensures k < |raw| ==> IsTopK(Normalise(Clip(raw)), selected, k)
    ensures recipe == Recipe(names, Scale(MixWeights(raw, k, selected), totalVolume))
    ensures |recipe| <= k && |recipe| <= |names| && |recipe| <= |raw|
    ensures forall e :: e in recipe ==> e.volume > Threshold
    ensures IsSubsequence(Names(recipe), names)
    ensures totalVolume >= 0.0 ==> Total(recipe) <= totalVolume
    ensures totalVolume >= 0.0 && |names| >= |raw| > 0 ==>
      Total(recipe) >= totalVolume - (|raw| as real) * Threshold
  {
    var w := Normalise(Clip(raw));
    selected := seq(|raw|, i => true);
    if k < |w| {
      var mask := SelectTopK(w, k);
      var a := new real[|w|](i requires 0 <= i < |w| => w[i]);
      assert a[..] == w;
      ZeroUnselected(a, mask);
      w := Renormalise(a[..], k);
      selected := mask;
    }
    assert w == MixWeights(raw, k, selected);
    recipe := Recipe(names, Scale(w, totalVolume));
    MixRecipeGuarantees(raw, names, k, selected, totalVolume);
  }

  lemma {:induction false} CountAboveZeroes(s: seq<real>)
    requires forall i :: 0 <= i < |s| ==> s[i] == 0.0
    ensures CountAbove(s, Threshold) == 0
  {
    if s != [] {
      CountAboveZeroes(s[1..]);
    }
  }
}
