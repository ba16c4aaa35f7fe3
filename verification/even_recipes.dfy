/**
 * The two even-split recipe generators: every answer that leads to a spirit
 * puts that spirit into the cocktail with `(200 - alcohol) // len(answers)`
 * ml, and a positive alcohol volume adds an 'Alkohol' entry. The first
 * variant drops answers whose taste class or spirit is missing or empty;
 * the second falls back to "Unbekannte Zutat" for a missing spirit and
 * answers an empty questionnaire with ["Vollmilch"].
 */
module EvenRecipes {
  import opened Outcomes
  import opened Dicts

  /** A question offering two options, answered with "1" or "2". */
  datatype Question = Question(first: string, second: string)

  /** The five questions of both variants. */
  const Questions: seq<Question> := [
    Question("Vollmilch", "Zartbitter"),
    Question("Gummibärchen", "Salzbrezeln"),
    Question("Milchshake", "Zitronenlimo"),
    Question("Kaffee", "Heiße Schokolade"),
    Question("Ketchup", "Senf")
  ]

  /** The option recorded for one input: "2" picks the second option, anything else the first. */
  function SelectAnswer(q: Question, input: string): (answer: string)
    ensures input == "2" ==> answer == q.second
    ensures input != "2" ==> answer == q.first
  {
    if input == "1" then q.first
    else if input == "2" then q.second
    else q.first
  }

  /** One recorded answer per question, read from one input line per question. */
  method CollectAnswers(questions: seq<Question>, inputs: seq<string>) returns (selected: seq<string>)
    requires |inputs| == |questions|
    ensures |selected| == |questions|
    ensures forall i :: 0 <= i < |questions| ==>
      selected[i] == SelectAnswer(questions[i], inputs[i])
      && (selected[i] == questions[i].first || selected[i] == questions[i].second)
  {
    selected := [];
    for i := 0 to |questions|
      invariant |selected| == i
      invariant forall j :: 0 <= j < i ==> selected[j] == SelectAnswer(questions[j], inputs[j])
    {
      if inputs[i] == "1" {
        selected := selected + [questions[i].first];
      } else if inputs[i] == "2" {
        selected := selected + [questions[i].second];
      } else {
        selected := selected + [questions[i].first];
      }
    }
  }

  /** The first variant's alcohol volume: the choice itself if it is "0", "2" or "4", else 0. */
  function AlcoholFromChoice(input: string): (volume: int)
    ensures volume == 0 || volume == 2 || volume == 4
    ensures input == "2" ==> volume == 2
    ensures input == "4" ==> volume == 4
    ensures input != "2" && input != "4" ==> volume == 0
  {
    if input == "0" then 0
    else if input == "2" then 2
    else if input == "4" then 4
    else 0
  }

  /**
   * The second variant's alcohol volume from the parsed input (None when
   * the input is not an integer): kept if it is 0, 2 or 4, else 0.
   */
  function AlcoholFromParsed(parsed: Option<int>): (volume: int)
    ensures volume == 0 || volume == 2 || volume == 4
    ensures parsed.Some? && parsed.value in {0, 2, 4} ==> volume == parsed.value
    ensures !(parsed.Some? && parsed.value in {0, 2, 4}) ==> volume == 0
  {
    match parsed
    case Some(v) => if v == 0 || v == 2 || v == 4 then v else 0
    case None => 0
  }

  /** The first variant's answer-to-taste-class table. */
  const AustauschClasses: map<string, string> := map[
    "Vollmilch" := "süß", "Zartbitter" := "bitter", "Gummibärchen" := "süß",
    "Salzbrezeln" := "salzig", "Milchshake" := "süß", "Zitronenlimo" := "sauer",
    "Kaffee" := "bitter", "Heiße Schokolade" := "süß", "Ketchup" := "sauer",
    "Senf" := "scharf"
  ]

  /** The first variant's initial taste-class-to-spirit table. */
  const AustauschSpirits: map<string, string> := map[
    "süß" := "Amaretto", "bitter" := "Aperol", "salzig" := "Tequila",
    "sauer" := "Gin", "scharf" := "Chili-Wodka"
  ]

  /** The second variant's answer-to-taste-class table. */
  const Test1Classes: map<string, string> := map[
    "Vollmilch" := "süß", "Zartbitter" := "süß/bitter", "Gummibärchen" := "süß",
    "Salzbrezeln" := "salzig", "Milchshake" := "cremig/süß", "Zitronenlimo" := "wässrig/sauer",
    "Kaffee" := "wässrig/bitter", "Heiße Schokolade" := "cremig/süß", "Ketchup" := "fruchtig/mild",
    "Senf" := "scharf"
  ]

  /** The second variant's initial taste-class-to-spirit table. */
  const Test1Spirits: map<string, string> := map[
    "süß" := "Amaretto", "süß/bitter" := "Aperol", "salzig" := "Tequila",
    "cremig/süß" := "Baileys", "wässrig/sauer" := "Gin", "wässrig/bitter" := "Whiskey",
    "fruchtig/mild" := "Rum", "scharf" := "Chili-Wodka"
  ]

  /** The second variant's stand-in for a taste class without a spirit. */
  const UnknownIngredient: string := "Unbekannte Zutat"

  /** The key of the alcohol entry. */
  const AlcoholKey: string := "Alkohol"

  datatype Variant = Austausch | Test1

  /**
   * The spirit an answer puts into the cocktail, if any. The first variant
   * needs a non-empty taste class with a non-empty spirit; the second needs
   * a non-empty taste class and uses the stand-in when it has no spirit.
   */
  function Ingredient(variant: Variant, spirits: map<string, string>, answer: string): (r: Option<string>)
    ensures variant == Austausch && r.Some? ==> r.value != "" && r.value in spirits.Values
    ensures variant == Test1 && r.Some? ==> r.value in spirits.Values || r.value == UnknownIngredient
    ensures r.Some? ==> answer in (if variant == Austausch then AustauschClasses else Test1Classes)
  {
    match variant
    case Austausch =>
      if answer in AustauschClasses && AustauschClasses[answer] != ""
        && AustauschClasses[answer] in spirits && spirits[AustauschClasses[answer]] != ""
      then Some(spirits[AustauschClasses[answer]])
      else None
    case Test1 =>
      if answer in Test1Classes && Test1Classes[answer] != "" then
        Some(if Test1Classes[answer] in spirits then spirits[Test1Classes[answer]] else UnknownIngredient)
      else None
  }

  /**
   * `(200 - alcohol) // n`: Python's floor division, which for a positive
   * divisor is Dafny's Euclidean division.
   */
  function EvenShare(alcohol: int, n: nat): int
    requires n > 0
  {
    (200 - alcohol) / n
  }

  /** The share is the largest volume that `n` equal portions can take from what is left. */
  lemma EvenShareFloor(alcohol: int, n: nat)
    requires n > 0
    ensures EvenShare(alcohol, n) * n <= 200 - alcohol < (EvenShare(alcohol, n) + 1) * n
  {
  }

  /**
   * When an answer contributes: the first variant needs a non-empty taste
   * class with a non-empty spirit and gives that spirit; the second needs a
   * non-empty taste class and gives its spirit, or "Unbekannte Zutat" when
   * the table has none.
   */
  lemma IngredientCases(variant: Variant, spirits: map<string, string>, answer: string)
    ensures variant == Austausch ==>
      (Ingredient(variant, spirits, answer).Some? <==>
        (answer in AustauschClasses && AustauschClasses[answer] != ""
         && AustauschClasses[answer] in spirits && spirits[AustauschClasses[answer]] != ""))
    ensures variant == Austausch && Ingredient(variant, spirits, answer).Some? ==>
      Ingredient(variant, spirits, answer).value == spirits[AustauschClasses[answer]]
    ensures variant == Test1 ==>
      (Ingredient(variant, spirits, answer).Some? <==> (answer in Test1Classes && Test1Classes[answer] != ""))
    ensures variant == Test1 && Ingredient(variant, spirits, answer).Some? ==>
      Ingredient(variant, spirits, answer).value
        == if Test1Classes[answer] in spirits then spirits[Test1Classes[answer]] else UnknownIngredient
  {
  }

  /** What each answer puts into the cocktail, in answer order. */
  function Ingredients(variant: Variant, spirits: map<string, string>, answers: seq<string>): (r: seq<Option<string>>)
    ensures |r| == |answers|
    ensures forall i :: 0 <= i < |answers| ==> r[i] == Ingredient(variant, spirits, answers[i])
  {
    seq(|answers|, i requires 0 <= i < |answers| => Ingredient(variant, spirits, answers[i]))
  }

  /** The cocktail dict filled by the answer loop, each ingredient assigned `share`. */
  function EvenShares(ingredients: seq<Option<string>>, share: int): Dict<int>
  {
    if ingredients == [] then []
    else
      var n := |ingredients| - 1;
      var d := EvenShares(ingredients[..n], share);
      match ingredients[n]
      case Some(ingredient) => Put(d, ingredient, share)
      case None => d
  }

  /** One more answer either adds its ingredient with the share or leaves the dict as it was. */
  lemma EvenSharesStep(ingredients: seq<Option<string>>, i: nat, share: int)
    requires i < |ingredients|
    ensures EvenShares(ingredients[..i + 1], share)
      == if ingredients[i].Some? then Put(EvenShares(ingredients[..i], share), ingredients[i].value, share)
         else EvenShares(ingredients[..i], share)
  {
    assert ingredients[..i + 1][..i] == ingredients[..i];
  }

  /** The alcohol entry, added (or assigned) only for a positive volume. */
  function WithAlcohol(d: Dict<int>, alcohol: int): Dict<int>
  {
    if alcohol > 0 then Put(d, AlcoholKey, alcohol) else d
  }

  /** The first variant's cocktail; without answers nothing is divided. */
  function AustauschRecipe(spirits: map<string, string>, answers: seq<string>, alcohol: int): Dict<int>
  {
    if answers == [] then WithAlcohol([], alcohol)
    else WithAlcohol(EvenShares(Ingredients(Austausch, spirits, answers), EvenShare(alcohol, |answers|)), alcohol)
  }

  /** The answers the second variant works with: an empty list becomes ["Vollmilch"]. */
  function Test1Answers(answers: seq<string>): (used: seq<string>)
    ensures |used| > 0
    ensures answers != [] ==> used == answers
  {
    if answers == [] then ["Vollmilch"] else answers
  }

  /** The second variant's cocktail. */
  function Test1Recipe(spirits: map<string, string>, answers: seq<string>, alcohol: int): Dict<int>
  {
    var used := Test1Answers(answers);
    WithAlcohol(EvenShares(Ingredients(Test1, spirits, used), EvenShare(alcohol, |used|)), alcohol)
  }

  /** An ingredient is in the cocktail exactly when some answer leads to it. */
  lemma {:induction false} EvenSharesKeys(ingredients: seq<Option<string>>, share: int, k: string)
    ensures k in Keys(EvenShares(ingredients, share)) <==> Some(k) in ingredients
  {
    if ingredients != [] {
      var n := |ingredients| - 1;
      EvenSharesKeys(ingredients[..n], share, k);
      assert ingredients == ingredients[..n] + [ingredients[n]];
      if ingredients[n].Some? {
        PutKeys(EvenShares(ingredients[..n], share), ingredients[n].value, share);
      }
    }
  }

  /**
   * The cocktail has distinct keys, at most one per answer, every value is
   * the share, and the values add up to the number of entries times the share.
   */
  lemma {:induction false} EvenSharesShape(ingredients: seq<Option<string>>, share: int)
    ensures DistinctKeys(EvenShares(ingredients, share))
    ensures |EvenShares(ingredients, share)| <= |ingredients|
    ensures forall i :: 0 <= i < |EvenShares(ingredients, share)| ==> EvenShares(ingredients, share)[i].1 == share
    ensures ValueSum(EvenShares(ingredients, share)) == |EvenShares(ingredients, share)| * share
  {
    var d := EvenShares(ingredients, share);
    if ingredients != [] {
      var n := |ingredients| - 1;
      var prev := EvenShares(ingredients[..n], share);
      EvenSharesShape(ingredients[..n], share);
      match ingredients[n]
      case Some(ingredient) =>
        PutDistinct(prev, ingredient, share);
        PutConstant(prev, ingredient, share);
        PutLength(prev, ingredient, share);
      case None =>
    }
    ValueSumConstant(d, share);
  }

  /** `a <= b` scaled by a non-negative factor. */
  lemma MulMonotone(a: int, b: int, c: int)
    requires a <= b && 0 <= c
    ensures a * c <= b * c
  {
  }

  /** For a volume from 0 to 200 the even shares never exceed what is left after the alcohol. */
  lemma {:induction false} EvenSharesVolume(ingredients: seq<Option<string>>, alcohol: int)
    requires 0 <= alcohol <= 200 && |ingredients| > 0
    ensures ValueSum(EvenShares(ingredients, EvenShare(alcohol, |ingredients|))) <= 200 - alcohol
    ensures forall i :: 0 <= i < |EvenShares(ingredients, EvenShare(alcohol, |ingredients|))| ==>
      EvenShares(ingredients, EvenShare(alcohol, |ingredients|))[i].1 >= 0
  {
    var share := EvenShare(alcohol, |ingredients|);
    var d := EvenShares(ingredients, share);
    EvenSharesShape(ingredients, share);
    EvenShareFloor(alcohol, |ingredients|);
    assert share >= 0;
    MulMonotone(|d|, |ingredients|, share);
  }

  /**
   * A positive alcohol volume is stored under 'Alkohol' and the rest keeps
   * its values; no alcohol leaves the cocktail untouched.
   */
  lemma AlcoholEntry(d: Dict<int>, alcohol: int)
    ensures alcohol > 0 ==> Get(WithAlcohol(d, alcohol), AlcoholKey) == Some(alcohol)
    ensures alcohol > 0 ==> forall k :: k != AlcoholKey ==> Get(WithAlcohol(d, alcohol), k) == Get(d, k)
    ensures alcohol <= 0 ==> WithAlcohol(d, alcohol) == d
  {
    if alcohol > 0 {
      PutGet(d, AlcoholKey, alcohol);
    }
  }

  /** Adding the alcohol entry to non-negative shares keeps the total within 200 ml. */
  lemma WithAlcoholVolume(d: Dict<int>, alcohol: int)
    requires 0 <= alcohol <= 200
    requires ValueSum(d) <= 200 - alcohol
    requires forall i :: 0 <= i < |d| ==> d[i].1 >= 0
    ensures ValueSum(WithAlcohol(d, alcohol)) <= 200
  {
    if alcohol > 0 {
      PutValueSum(d, AlcoholKey, alcohol);
      GetOrBounded(d, AlcoholKey, 0, 0);
    }
  }

  /**
   * The first variant's cocktail for any spirits table: distinct keys, at
   * most one entry per answer plus the alcohol entry, the alcohol stored
   * under 'Alkohol' when positive, and at most 200 ml in all.
   */
  lemma AustauschRecipeShape(spirits: map<string, string>, answers: seq<string>, alcohol: int)
    requires 0 <= alcohol <= 200
    ensures DistinctKeys(AustauschRecipe(spirits, answers, alcohol))
    ensures |AustauschRecipe(spirits, answers, alcohol)| <= |answers| + 1
    ensures alcohol > 0 ==> Get(AustauschRecipe(spirits, answers, alcohol), AlcoholKey) == Some(alcohol)
    ensures ValueSum(AustauschRecipe(spirits, answers, alcohol)) <= 200
  {
    var d: Dict<int> := [];
    if answers != [] {
      var ingredients := Ingredients(Austausch, spirits, answers);
      d := EvenShares(ingredients, EvenShare(alcohol, |answers|));
      EvenSharesShape(ingredients, EvenShare(alcohol, |answers|));
      EvenSharesVolume(ingredients, alcohol);
    }
    AlcoholEntry(d, alcohol);
    WithAlcoholVolume(d, alcohol);
    if alcohol > 0 {
      PutDistinct(d, AlcoholKey, alcohol);
      PutLength(d, AlcoholKey, alcohol);
    }
  }

  /** The second variant's cocktail: the same guarantees, counted over the answers actually used. */
  lemma Test1RecipeShape(spirits: map<string, string>, answers: seq<string>, alcohol: int)
    requires 0 <= alcohol <= 200
    ensures DistinctKeys(Test1Recipe(spirits, answers, alcohol))
    ensures |Test1Recipe(spirits, answers, alcohol)| <= |Test1Answers(answers)| + 1
    ensures alcohol > 0 ==> Get(Test1Recipe(spirits, answers, alcohol), AlcoholKey) == Some(alcohol)
    ensures ValueSum(Test1Recipe(spirits, answers, alcohol)) <= 200
  {
    var used := Test1Answers(answers);
    var ingredients := Ingredients(Test1, spirits, used);
    var d := EvenShares(ingredients, EvenShare(alcohol, |used|));
    EvenSharesShape(ingredients, EvenShare(alcohol, |used|));
    EvenSharesVolume(ingredients, alcohol);
    AlcoholEntry(d, alcohol);
    WithAlcoholVolume(d, alcohol);
    if alcohol > 0 {
      PutDistinct(d, AlcoholKey, alcohol);
      PutLength(d, AlcoholKey, alcohol);
    }
  }

  /** With the initial tables no answer leads to a spirit called 'Alkohol'. */
  lemma NoSpiritNamedAlcohol(variant: Variant, answer: string)
    ensures Ingredient(variant, if variant == Austausch then AustauschSpirits else Test1Spirits, answer) != Some(AlcoholKey)
  {
  }

  /** With the initial tables 'Alkohol' is a key of the cocktail exactly when the volume is positive. */
  lemma AlcoholKeyIffPositive(variant: Variant, answers: seq<string>, alcohol: int)
    ensures var spirits := if variant == Austausch then AustauschSpirits else Test1Spirits;
      var cocktail := if variant == Austausch then AustauschRecipe(spirits, answers, alcohol)
        else Test1Recipe(spirits, answers, alcohol);
      AlcoholKey in Keys(cocktail) <==> alcohol > 0
  {
    var spirits := if variant == Austausch then AustauschSpirits else Test1Spirits;
    var used := if variant == Austausch then answers else Test1Answers(answers);
    var d: Dict<int> := [];
    if used != [] {
      var ingredients := Ingredients(variant, spirits, used);
      d := EvenShares(ingredients, EvenShare(alcohol, |used|));
      EvenSharesKeys(ingredients, EvenShare(alcohol, |used|), AlcoholKey);
      forall i | 0 <= i < |used|
        ensures ingredients[i] != Some(AlcoholKey)
      {
        NoSpiritNamedAlcohol(variant, used[i]);
      }
    }
    assert AlcoholKey !in Keys(d);
    if alcohol > 0 {
      PutKeys(d, AlcoholKey, alcohol);
    }
  }

  /** With the initial tables every taste class has a spirit, so the stand-in never appears. */
  lemma Test1NeverUnknown(answers: seq<string>, alcohol: int)
    ensures UnknownIngredient !in Keys(Test1Recipe(Test1Spirits, answers, alcohol))
  {
    var used := Test1Answers(answers);
    var share := EvenShare(alcohol, |used|);
    var ingredients := Ingredients(Test1, Test1Spirits, used);
    EvenSharesKeys(ingredients, share, UnknownIngredient);
    forall i | 0 <= i < |used|
      ensures ingredients[i] != Some(UnknownIngredient)
    {
    }
    var d := EvenShares(ingredients, share);
    if alcohol > 0 {
      PutKeys(d, AlcoholKey, alcohol);
    }
  }

  /** The second variant answers an empty questionnaire with a single Amaretto share. */
  lemma Test1EmptyQuestionnaire(alcohol: int)
    ensures Test1Recipe(Test1Spirits, [], alcohol) == WithAlcohol([("Amaretto", 200 - alcohol)], alcohol)
  {
    assert Test1Classes["Vollmilch"] == "süß";
    assert Test1Spirits["süß"] == "Amaretto";
    assert Ingredient(Test1, Test1Spirits, "Vollmilch") == Some("Amaretto");
    var ingredients := Ingredients(Test1, Test1Spirits, ["Vollmilch"]);
    assert ingredients == [Some("Amaretto")];
    assert ingredients[..0] == [];
    assert EvenShare(alcohol, 1) == 200 - alcohol;
    assert EvenShares(ingredients, 200 - alcohol) == Put([], "Amaretto", 200 - alcohol);
  }
}
