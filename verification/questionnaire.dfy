/**
 * The questionnaire of the final cocktail generator: averaging the chosen
 * option tastes into a user profile, normalising the alcohol preference and
 * the ingredient limit, filtering the catalog to one pool, and handing the
 * pool to the mixer.
 */
module Questionnaire {
  import opened Outcomes
  import opened Seqs
  import opened Taste
  import opened Text
  import Mixer

  /** A question with the taste of each of its two options. */
  datatype Question = Question(option1: TasteVector, option2: TasteVector)

  /** A catalog entry: name, taste and alcoholic flag. */
  datatype Ingredient = Ingredient(name: string, taste: TasteVector, alcoholic: bool)

  /** The glass volume the recipe is scaled to, in millilitres. */
  const TotalVolume: real := 200.0

  /** The taste an answer selects: "1" the first option, "2" the second, anything else none. */
  function Chosen(q: Question, answer: string): Option<TasteVector>
  {
    if answer == "1" then Some(q.option1)
    else if answer == "2" then Some(q.option2)
    else None
  }

  /** Component-wise sum of the chosen option tastes. */
  function ChosenSum(questions: seq<Question>, answers: seq<string>): TasteVector
    requires |answers| == |questions|
  {
    if questions == [] then Zero
    else
      var n := |questions| - 1;
      var s := ChosenSum(questions[..n], answers[..n]);
      match Chosen(questions[n], answers[n])
      case Some(t) => Add(s, t)
      case None => s
  }

  /** The number of answers that chose an option. */
  function ValidCount(answers: seq<string>): nat
  {
    if answers == [] then 0
    else
      var n := |answers| - 1;
      ValidCount(answers[..n]) + (if answers[n] == "1" || answers[n] == "2" then 1 else 0)
  }

  /** The user profile: the chosen sum divided by the valid count, or by 1 when there is none. */
  function Average(questions: seq<Question>, answers: seq<string>): TasteVector
    requires |answers| == |questions|
  {
    var v := ValidCount(answers);
    Times(ChosenSum(questions, answers), 1.0 / Divisor(v))
  }

  /** `user_profile /= valid_answers if valid_answers > 0 else 1` divides by this. */
  function Divisor(valid: nat): (d: real)
    ensures d > 0.0
  {
    if valid > 0 then valid as real else 1.0
  }

  /**
   * The answering loop: every "1" or "2" adds the chosen option's taste and
   * counts as valid; the sum is then divided by the valid count.
   */
  method AggregateProfile(questions: seq<Question>, answers: seq<string>) returns (profile: TasteVector)
    requires |answers| == |questions|
    ensures profile == Average(questions, answers)
  {
    profile := Zero;
    var valid := 0;
    var i := 0;
    while i < |questions|
      invariant 0 <= i <= |questions|
      invariant profile == ChosenSum(questions[..i], answers[..i])
      invariant valid == ValidCount(answers[..i])
    {
      assert questions[..i + 1][..i] == questions[..i];
      assert answers[..i + 1][..i] == answers[..i];
      if answers[i] == "1" {
        profile := Add(profile, questions[i].option1);
        valid := valid + 1;
      } else if answers[i] == "2" {
        profile := Add(profile, questions[i].option2);
        valid := valid + 1;
      }
      i := i + 1;
    }
    assert questions[..i] == questions && answers[..i] == answers;
    profile := Times(profile, 1.0 / Divisor(valid));
  }

  /** Without a valid answer the profile is the zero vector. */
  lemma {:induction false} NoValidAnswersGiveZero(questions: seq<Question>, answers: seq<string>)
    requires |answers| == |questions| && ValidCount(answers) == 0
    ensures Average(questions, answers) == Zero
  {
    ZeroSumWithoutValid(questions, answers);
  }

  lemma {:induction false} ZeroSumWithoutValid(questions: seq<Question>, answers: seq<string>)
    requires |answers| == |questions| && ValidCount(answers) == 0
    ensures ChosenSum(questions, answers) == Zero
  {
    if questions != [] {
      var n := |questions| - 1;
      ZeroSumWithoutValid(questions[..n], answers[..n]);
    }
  }

  /** `x` added to itself `v` times. */
  function Repeat(v: nat, x: real): real
  {
    if v == 0 then 0.0 else Repeat(v - 1, x) + x
  }

  lemma {:induction false} RepeatIsProduct(v: nat, x: real)
    ensures Repeat(v, x) == (v as real) * x
  {
    if v > 0 {
      RepeatIsProduct(v - 1, x);
      assert (v as real) * x == ((v - 1) as real) * x + x;
    }
  }

  /** Each component of the chosen sum lies between v * lo and v * hi for v valid answers. */
  lemma {:induction false} ChosenSumBounds(questions: seq<Question>, answers: seq<string>, lo: real, hi: real, c: nat)
    requires |answers| == |questions| && c < 5
    requires forall i :: 0 <= i < |questions| ==>
      Within(questions[i].option1, lo, hi) && Within(questions[i].option2, lo, hi)
    ensures Repeat(ValidCount(answers), lo) <= ChosenSum(questions, answers)[c]
    ensures ChosenSum(questions, answers)[c] <= Repeat(ValidCount(answers), hi)
  {
    if questions != [] {
      var n := |questions| - 1;
      ChosenSumBounds(questions[..n], answers[..n], lo, hi, c);
      if answers[n] == "1" || answers[n] == "2" {
        assert Within(Chosen(questions[n], answers[n]).value, lo, hi);
      }
    }
  }

  /**
   * The profile is an average: when every option taste lies in [lo, hi] and
   * some answer was valid, every profile component lies in [lo, hi] too.
   */
  lemma {:induction false} AverageWithinBounds(questions: seq<Question>, answers: seq<string>, lo: real, hi: real)
    requires |answers| == |questions| && ValidCount(answers) > 0
    requires forall i :: 0 <= i < |questions| ==>
      Within(questions[i].option1, lo, hi) && Within(questions[i].option2, lo, hi)
    ensures Within(Average(questions, answers), lo, hi)
  {
    forall c | 0 <= c < 5 ensures lo <= Average(questions, answers)[c] <= hi {
      AverageComponentBounds(questions, answers, lo, hi, c);
    }
  }

  lemma {:induction false} AverageComponentBounds(questions: seq<Question>, answers: seq<string>, lo: real, hi: real, c: nat)
    requires |answers| == |questions| && ValidCount(answers) > 0 && c < 5
    requires forall i :: 0 <= i < |questions| ==>
      Within(questions[i].option1, lo, hi) && Within(questions[i].option2, lo, hi)
    ensures lo <= Average(questions, answers)[c] <= hi
  {
    var n := ValidCount(answers);
    var x := ChosenSum(questions, answers)[c];
    ChosenSumBounds(questions, answers, lo, hi, c);
    RepeatDivideBounds(n, x, lo, hi);
    assert Divisor(n) == n as real;
    var avg := Average(questions, answers);
    assert avg == Times(ChosenSum(questions, answers), 1.0 / n as real);
    assert avg[c] == x * (1.0 / n as real);
  }

  lemma RepeatDivideBounds(n: nat, x: real, lo: real, hi: real)
    requires n > 0 && Repeat(n, lo) <= x <= Repeat(n, hi)
    ensures lo <= x * (1.0 / n as real) <= hi
  {
    RepeatIsProduct(n, lo);
    RepeatIsProduct(n, hi);
    DivideBounds(x, n as real, lo, hi);
  }

  lemma DivideBounds(x: real, v: real, lo: real, hi: real)
    requires v > 0.0 && v * lo <= x <= v * hi
    ensures lo <= x * (1.0 / v) <= hi
  {
    var d := 1.0 / v;
    assert v * d == 1.0;
    assert (v * lo) * d <= x * d;
    assert x * d <= (v * hi) * d;
  }

  /**
   * The alcohol preference: the answer is stripped and lower-cased (`lower`
   * stands for `str.lower`); "a" or "n" are kept, anything else becomes "n".
   */
  function NormalisePreference(input: string, lower: string -> string): (pref: string)
    ensures pref == "a" || pref == "n"
    ensures pref == "a" <==> lower(Strip(input)) == "a"
  {
    var answer := lower(Strip(input));
    if answer == "a" || answer == "n" then answer else "n"
  }

  /** The ingredient limit: a parsed integer raised to at least 1, or 3 when the input is not an integer. */
  function ClampK(parsed: Option<int>): (k: int)
    ensures k >= 1
    ensures parsed.None? ==> k == 3
    ensures parsed.Some? && parsed.value >= 1 ==> k == parsed.value
    ensures parsed.Some? && parsed.value < 1 ==> k == 1
  {
    match parsed
    case None => 3
    case Some(v) => if v >= 1 then v else 1
  }

  /**
   * The pool: the catalog entries whose alcoholic flag equals `pref == "a"`,
   * in catalog order; no other entries.
   */
  function FilterCatalog(catalog: seq<Ingredient>, pref: string): (pool: seq<Ingredient>)
    ensures IsSubsequence(pool, catalog)
    ensures forall x :: x in pool ==> x.alcoholic == (pref == "a")
    ensures forall x :: x in catalog && x.alcoholic == (pref == "a") ==> x in pool
  {
    if catalog == [] then []
    else
      var rest := FilterCatalog(catalog[1..], pref);
      if catalog[0].alcoholic == (pref == "a") then [catalog[0]] + rest else rest
  }

  function NamesOf(pool: seq<Ingredient>): (names: seq<string>)
    ensures |names| == |pool|
    ensures forall i :: 0 <= i < |pool| ==> names[i] == pool[i].name
  {
    seq(|pool|, i requires 0 <= i < |pool| => pool[i].name)
  }

  function TastesOf(pool: seq<Ingredient>): (tastes: seq<TasteVector>)
    ensures |tastes| == |pool|
  {
    seq(|pool|, i requires 0 <= i < |pool| => pool[i].taste)
  }

  /**
   * One cocktail request after the answers are in: normalise the preference
   * and the limit, filter the catalog to a single pool (none when it is
   * empty), reconstruct the profile over the pool, solve for raw weights and
   * mix. `reconstruct` stands for the autoencoder trained on the pool and
   * `solve` for the least-squares solver.
   */
  method Recommend(
    questions: seq<Question>, answers: seq<string>, prefInput: string, kInput: Option<int>,
    catalog: seq<Ingredient>, lower: string -> string,
    reconstruct: (seq<TasteVector>, TasteVector) -> TasteVector,
    solve: (seq<TasteVector>, TasteVector) -> seq<real>)
    returns (profile: TasteVector, recipe: Option<seq<Mixer.Entry>>, ghost selected: seq<bool>)
    requires |answers| == |questions|
    ensures profile == Average(questions, answers)
    ensures recipe.None? <==> FilterCatalog(catalog, NormalisePreference(prefInput, lower)) == []
    ensures recipe.Some? ==>
      var pool := FilterCatalog(catalog, NormalisePreference(prefInput, lower));
      var raw := solve(TastesOf(pool), reconstruct(TastesOf(pool), profile));
      var k := ClampK(kInput);
      && |selected| == |raw|
      && (k < |raw| ==> Mixer.IsTopK(Mixer.Normalise(Mixer.Clip(raw)), selected, k))
      && recipe.value == Mixer.Recipe(NamesOf(pool), Scale(Mixer.MixWeights(raw, k, selected), TotalVolume))
    ensures recipe.Some? ==> |recipe.value| <= ClampK(kInput)
    ensures recipe.Some? ==> forall e :: e in recipe.value ==>
      e.volume > Mixer.Threshold &&
      exists x :: x in catalog && x.name == e.name && x.alcoholic == (NormalisePreference(prefInput, lower) == "a")
    ensures recipe.Some? ==> Mixer.Total(recipe.value) <= TotalVolume
    ensures recipe.Some? ==>
      var pool := FilterCatalog(catalog, NormalisePreference(prefInput, lower));
      var raw := solve(TastesOf(pool), reconstruct(TastesOf(pool), profile));
      |pool| >= |raw| > 0 ==> Mixer.Total(recipe.value) >= TotalVolume - (|raw| as real) * Mixer.Threshold
  {
    profile := AggregateProfile(questions, answers);
    var pref := NormalisePreference(prefInput, lower);
    var k := ClampK(kInput);
    var pool := FilterCatalog(catalog, pref);
    if pool == [] {
      return profile, None, [];
    }
    var names := NamesOf(pool);
    var tastes := TastesOf(pool);
    var reconstructed := reconstruct(tastes, profile);
    var raw := solve(tastes, reconstructed);
    var mix, chosen := Mixer.CreateMixProfile(raw, names, k as nat, TotalVolume);
    recipe, selected := Some(mix), chosen;
    Seqs.SubsequenceMembers(Mixer.Names(mix), names);
    forall e | e in mix
      ensures exists x :: x in catalog && x.name == e.name && x.alcoholic == (pref == "a")
    {
      var j :| 0 <= j < |mix| && mix[j] == e;
      assert Mixer.Names(mix)[j] == e.name by { NamesAt(mix, j); }
      assert e.name in names;
      var i :| 0 <= i < |names| && names[i] == e.name;
      Seqs.SubsequenceMembers(pool, catalog);
      assert pool[i] in catalog;
    }
  }

  lemma {:induction false} NamesAt(r: seq<Mixer.Entry>, j: nat)
    requires j < |r|
    ensures Mixer.Names(r)[j] == r[j].name
  {
    if j > 0 {
      NamesAt(r[1..], j - 1);
    }
  }
}
