/**
 * The proportional-count generator: each valid answer is translated to a
 * taste class and counted, and every class with a positive count gets
 * `(200 - alcohol) * count / total_answers` ml of its spirit, in the order
 * of the count table. Invalid answers are skipped but still count toward
 * the total.
 */
module ProportionalRecipe {
  import opened Outcomes
  import opened Dicts
  import opened Text
  import EvenRecipes

  /** Answer-to-taste-class translations, in insertion order. */
  const Translations: Dict<string> := [
    ("Vollmilch", "süß"), ("Zartbitter", "süß/bitter"), ("Gummibärchen", "süß"),
    ("Salzbrezeln", "salzig"), ("Milchshake", "cremig/süß"), ("Zitronenlimo", "wässrig/sauer"),
    ("Kaffee", "wässrig/bitter"), ("Heiße Schokolade", "cremig/süß"), ("Ketchup", "fruchtig/mild"),
    ("Senf", "scharf")
  ]

  /** Taste-class-to-spirit table. */
  const Spirits: map<string, string> := map[
    "süß" := "Amaretto", "süß/bitter" := "Aperol", "salzig" := "Tequila",
    "cremig/süß" := "Baileys", "wässrig/sauer" := "Gin", "wässrig/bitter" := "Whiskey",
    "fruchtig/mild" := "Rum", "scharf" := "Chili-Wodka"
  ]

  /** The stand-in for a taste class without a spirit. */
  const NoIngredient: string := "Keine Zutat verfügbar"

  /** The whole volume of a cocktail in ml. */
  const TotalVolume: int := 200

  /** The stripped input "1" gives the first option, "2" the second, anything else no answer. */
  function DecodeAnswer(q: EvenRecipes.Question, input: string): (answer: Option<string>)
    ensures Strip(input) == "1" ==> answer == Some(q.first)
    ensures Strip(input) == "2" ==> answer == Some(q.second)
    ensures Strip(input) != "1" && Strip(input) != "2" ==> answer == None
  {
    var s := Strip(input);
    if s == "1" then Some(q.first)
    else if s == "2" then Some(q.second)
    else None
  }

  /** The decoded answers, one per question. */
  function Decoded(questions: seq<EvenRecipes.Question>, inputs: seq<string>): (answers: seq<Option<string>>)
    requires |inputs| == |questions|
    ensures |answers| == |questions|
    ensures forall i :: 0 <= i < |questions| ==> answers[i] == DecodeAnswer(questions[i], inputs[i])
  {
    seq(|questions|, i requires 0 <= i < |questions| => DecodeAnswer(questions[i], inputs[i]))
  }

  /** One recorded (possibly missing) answer per question, read from one input line per question. */
  method CollectAnswers(questions: seq<EvenRecipes.Question>, inputs: seq<string>) returns (selected: seq<Option<string>>)
    requires |inputs| == |questions|
    ensures selected == Decoded(questions, inputs)
  {
    selected := [];
    for i := 0 to |questions|
      invariant |selected| == i
      invariant forall j :: 0 <= j < i ==> selected[j] == DecodeAnswer(questions[j], inputs[j])
    {
      var answer := Strip(inputs[i]);
      if answer == "1" {
        selected := selected + [Some(questions[i].first)];
      } else if answer == "2" {
        selected := selected + [Some(questions[i].second)];
      } else {
        selected := selected + [None];
      }
    }
  }

  /** The stripped alcohol choice: "2" is 20 ml, "4" is 40 ml, anything else none. */
  function DecodeAlcohol(input: string): (volume: int)
    ensures volume == 0 || volume == 20 || volume == 40
    ensures Strip(input) == "2" ==> volume == 20
    ensures Strip(input) == "4" ==> volume == 40
    ensures Strip(input) != "2" && Strip(input) != "4" ==> volume == 0
  {
    var s := Strip(input);
    if s == "0" then 0
    else if s == "2" then 20
    else if s == "4" then 40
    else 0
  }

  /** The distinct entries of `s` in order of first occurrence. */
  function Dedup(s: seq<string>): seq<string>
  {
    if s == [] then []
    else
      var n := |s| - 1;
      var r := Dedup(s[..n]);
      if s[n] in r then r else r + [s[n]]
  }

  /** The distinct entries are distinct and are exactly the entries of `s`. */
  lemma {:induction false} DedupShape(s: seq<string>)
    ensures forall i, j :: 0 <= i < j < |Dedup(s)| ==> Dedup(s)[i] != Dedup(s)[j]
    ensures forall x :: x in Dedup(s) <==> x in s
  {
    if s != [] {
      var n := |s| - 1;
      DedupShape(s[..n]);
      assert s == s[..n] + [s[n]];
    }
  }

  /** `{p: 0 for p in profiles}`: each profile assigned 0 in turn. */
  function ZeroCounts(profiles: seq<string>): Dict<int>
  {
    if profiles == [] then []
    else
      var n := |profiles| - 1;
      Put(ZeroCounts(profiles[..n]), profiles[n], 0)
  }

  /** The count table has one key per distinct profile, in first-occurrence order. */
  lemma {:induction false} ZeroCountsKeys(profiles: seq<string>)
    ensures Keys(ZeroCounts(profiles)) == Dedup(profiles)
  {
    if profiles != [] {
      var n := |profiles| - 1;
      ZeroCountsKeys(profiles[..n]);
      PutKeys(ZeroCounts(profiles[..n]), profiles[n], 0);
    }
  }

  /** Every count starts at 0. */
  lemma {:induction false} ZeroCountsZero(profiles: seq<string>)
    ensures forall i :: 0 <= i < |ZeroCounts(profiles)| ==> ZeroCounts(profiles)[i].1 == 0
    ensures ValueSum(ZeroCounts(profiles)) == 0
  {
    if profiles != [] {
      var n := |profiles| - 1;
      ZeroCountsZero(profiles[..n]);
      PutConstant(ZeroCounts(profiles[..n]), profiles[n], 0);
    }
    ValueSumConstant(ZeroCounts(profiles), 0);
  }

  /** The taste classes in the order of the count table. */
  const ProfileOrder: seq<string> := Dedup(Values(Translations))

  /** Appending to a list whose distinct entries are `r` appends to `r` unless already there. */
  lemma DedupSnoc(s: seq<string>, x: string, r: seq<string>)
    requires Dedup(s) == r
    ensures Dedup(s + [x]) == if x in r then r else r + [x]
  {
    assert (s + [x])[..|s|] == s;
  }

  /** The distinct classes among the first three translations. */
  lemma DedupFirstThree()
    ensures Dedup(["süß", "süß/bitter", "süß"]) == ["süß", "süß/bitter"]
  {
    DedupSnoc([], "süß", []);
    DedupSnoc(["süß"], "süß/bitter", ["süß"]);
    DedupSnoc(["süß", "süß/bitter"], "süß", ["süß", "süß/bitter"]);
  }

  /** The distinct classes among the first six translations. */
  lemma DedupFirstSix()
    ensures Dedup(["süß", "süß/bitter", "süß", "salzig", "cremig/süß", "wässrig/sauer"])
      == ["süß", "süß/bitter", "salzig", "cremig/süß", "wässrig/sauer"]
  {
    var s3 := ["süß", "süß/bitter", "süß"];
    DedupFirstThree();
    DedupSnoc(s3, "salzig", ["süß", "süß/bitter"]);
    DedupSnoc(s3 + ["salzig"], "cremig/süß", ["süß", "süß/bitter", "salzig"]);
    DedupSnoc(s3 + ["salzig"] + ["cremig/süß"], "wässrig/sauer", ["süß", "süß/bitter", "salzig", "cremig/süß"]);
    assert s3 + ["salzig"] + ["cremig/süß"] + ["wässrig/sauer"]
      == ["süß", "süß/bitter", "süß", "salzig", "cremig/süß", "wässrig/sauer"];
  }

  /** The distinct classes among the first eight translations. */
  lemma DedupFirstEight()
    ensures Dedup(["süß", "süß/bitter", "süß", "salzig", "cremig/süß", "wässrig/sauer", "wässrig/bitter", "cremig/süß"])
      == ["süß", "süß/bitter", "salzig", "cremig/süß", "wässrig/sauer", "wässrig/bitter"]
  {
    var s6 := ["süß", "süß/bitter", "süß", "salzig", "cremig/süß", "wässrig/sauer"];
    var r6 := ["süß", "süß/bitter", "salzig", "cremig/süß", "wässrig/sauer"];
    DedupFirstSix();
    DedupSnoc(s6, "wässrig/bitter", r6);
    DedupSnoc(s6 + ["wässrig/bitter"], "cremig/süß", r6 + ["wässrig/bitter"]);
    assert s6 + ["wässrig/bitter"] + ["cremig/süß"]
      == ["süß", "süß/bitter", "süß", "salzig", "cremig/süß", "wässrig/sauer", "wässrig/bitter", "cremig/süß"];
  }

  /** The taste classes of the translations, in insertion order. */
  lemma TranslatedClasses()
    ensures Values(Translations) == ["süß", "süß/bitter", "süß", "salzig", "cremig/süß", "wässrig/sauer",
      "wässrig/bitter", "cremig/süß", "fruchtig/mild", "scharf"]
  {
    ValuesAt(Translations);
  }

  /** The translated answers, in insertion order. */
  lemma TranslatedAnswers()
    ensures Keys(Translations) == ["Vollmilch", "Zartbitter", "Gummibärchen", "Salzbrezeln", "Milchshake",
      "Zitronenlimo", "Kaffee", "Heiße Schokolade", "Ketchup", "Senf"]
  {
    KeysAt(Translations);
  }

  /** The distinct classes among all ten translations. */
  lemma DedupAllTen()
    ensures Dedup(["süß", "süß/bitter", "süß", "salzig", "cremig/süß", "wässrig/sauer",
      "wässrig/bitter", "cremig/süß", "fruchtig/mild", "scharf"])
      == ["süß", "süß/bitter", "salzig", "cremig/süß", "wässrig/sauer", "wässrig/bitter", "fruchtig/mild", "scharf"]
  {
    var s8 := ["süß", "süß/bitter", "süß", "salzig", "cremig/süß", "wässrig/sauer", "wässrig/bitter", "cremig/süß"];
    var r8 := ["süß", "süß/bitter", "salzig", "cremig/süß", "wässrig/sauer", "wässrig/bitter"];
    DedupFirstEight();
    assert "fruchtig/mild" !in r8;
    DedupSnoc(s8, "fruchtig/mild", r8);
    assert "scharf" !in r8 + ["fruchtig/mild"];
    DedupSnoc(s8 + ["fruchtig/mild"], "scharf", r8 + ["fruchtig/mild"]);
    assert s8 + ["fruchtig/mild"] + ["scharf"] == ["süß", "süß/bitter", "süß", "salzig", "cremig/süß", "wässrig/sauer",
      "wässrig/bitter", "cremig/süß", "fruchtig/mild", "scharf"];
  }

  /** The count table's keys: eight classes, since two classes repeat among the translations. */
  lemma ProfileOrderIsEight()
    ensures ProfileOrder == ["süß", "süß/bitter", "salzig", "cremig/süß", "wässrig/sauer",
      "wässrig/bitter", "fruchtig/mild", "scharf"]
  {
    TranslatedClasses();
    DedupAllTen();
  }

  /** The taste class an answer counts toward: a non-empty answer that has a translation in `tr`. */
  function Counted(tr: Dict<string>, answer: Option<string>): (c: Option<string>)
    ensures c.Some? <==> answer.Some? && answer.value != "" && answer.value in Keys(tr)
    ensures c.Some? ==> (answer.value, c.value) in tr && c.value in Values(tr)
  {
    if answer.Some? && answer.value != "" && answer.value in Keys(tr) then
      GetFound(tr, answer.value);
      Some(GetOr(tr, answer.value, ""))
    else None
  }

  /** The count table after tallying the answers, one increment per counted answer. */
  function Tally(tr: Dict<string>, answers: seq<Option<string>>): Dict<int>
  {
    if answers == [] then ZeroCounts(Values(tr))
    else
      var n := |answers| - 1;
      var counts := Tally(tr, answers[..n]);
      match Counted(tr, answers[n])
      case Some(c) => Put(counts, c, GetOr(counts, c, 0) + 1)
      case None => counts
  }

  /** The number of answers that are counted. */
  function ValidCount(tr: Dict<string>, answers: seq<Option<string>>): nat
  {
    if answers == [] then 0
    else
      var n := |answers| - 1;
      ValidCount(tr, answers[..n]) + (if Counted(tr, answers[n]).Some? then 1 else 0)
  }

  /** Tallying keeps the table's keys, since every counted class is already a key. */
  lemma {:induction false} TallyKeys(tr: Dict<string>, answers: seq<Option<string>>)
    ensures Keys(Tally(tr, answers)) == Dedup(Values(tr))
  {
    if answers == [] {
      ZeroCountsKeys(Values(tr));
    } else {
      var n := |answers| - 1;
      TallyKeys(tr, answers[..n]);
      DedupShape(Values(tr));
      var counts := Tally(tr, answers[..n]);
      match Counted(tr, answers[n])
      case Some(c) => PutKeys(counts, c, GetOr(counts, c, 0) + 1);
      case None =>
    }
  }

  /** The counts stay non-negative and add up to the number of counted answers. */
  lemma {:induction false} TallyCounts(tr: Dict<string>, answers: seq<Option<string>>)
    ensures forall i :: 0 <= i < |Tally(tr, answers)| ==> Tally(tr, answers)[i].1 >= 0
    ensures ValueSum(Tally(tr, answers)) == ValidCount(tr, answers)
  {
    if answers == [] {
      ZeroCountsZero(Values(tr));
    } else {
      var n := |answers| - 1;
      var counts := Tally(tr, answers[..n]);
      TallyCounts(tr, answers[..n]);
      match Counted(tr, answers[n])
      case Some(c) =>
        var old_count := GetOr(counts, c, 0);
        GetOrBounded(counts, c, 0, 0);
        PutBounded(counts, c, old_count + 1, 0);
        PutValueSum(counts, c, old_count + 1);
      case None =>
    }
  }

  /** At most every answer is counted, and all are exactly when each one is. */
  lemma {:induction false} ValidCountFull(tr: Dict<string>, answers: seq<Option<string>>)
    ensures ValidCount(tr, answers) <= |answers|
    ensures ValidCount(tr, answers) == |answers| <==> forall i :: 0 <= i < |answers| ==> Counted(tr, answers[i]).Some?
  {
    if answers != [] {
      var n := |answers| - 1;
      ValidCountFull(tr, answers[..n]);
      assert forall i :: 0 <= i < n ==> answers[..n][i] == answers[i];
    }
  }

  /**
   * Tallying one more answer: a counted answer increments its class, whose
   * count starts from 0 if it had none, and leaves every other class alone;
   * an answer that is not counted changes nothing.
   */
  lemma TallySnoc(tr: Dict<string>, answers: seq<Option<string>>, answer: Option<string>)
    ensures Counted(tr, answer).Some? ==>
      var c := Counted(tr, answer).value;
      && Get(Tally(tr, answers + [answer]), c) == Some(GetOr(Tally(tr, answers), c, 0) + 1)
      && forall d :: d != c ==> Get(Tally(tr, answers + [answer]), d) == Get(Tally(tr, answers), d)
    ensures Counted(tr, answer).None? ==> Tally(tr, answers + [answer]) == Tally(tr, answers)
  {
    assert (answers + [answer])[..|answers|] == answers;
    if Counted(tr, answer).Some? {
      var c := Counted(tr, answer).value;
      PutGet(Tally(tr, answers), c, GetOr(Tally(tr, answers), c, 0) + 1);
    }
  }

  /** The number of answers counted toward class `c`. */
  function CountOf(tr: Dict<string>, answers: seq<Option<string>>, c: string): nat
  {
    |set i | 0 <= i < |answers| && Counted(tr, answers[i]) == Some(c)|
  }

  /** One more answer adds one to the count of its class and nothing to the others. */
  lemma CountOfSnoc(tr: Dict<string>, answers: seq<Option<string>>, answer: Option<string>, c: string)
    ensures CountOf(tr, answers + [answer], c)
      == CountOf(tr, answers, c) + (if Counted(tr, answer) == Some(c) then 1 else 0)
  {
    var longer := answers + [answer];
    var before := set i | 0 <= i < |answers| && Counted(tr, answers[i]) == Some(c);
    var after := set i | 0 <= i < |longer| && Counted(tr, longer[i]) == Some(c);
    if Counted(tr, answer) == Some(c) {
      assert after == before + {|answers|};
    } else {
      assert after == before;
    }
  }

  /** Every class of the translations starts with a count of 0; other names have none. */
  lemma ZeroCountsGet(profiles: seq<string>, c: string)
    ensures Get(ZeroCounts(profiles), c) == if c in profiles then Some(0) else None
  {
    ZeroCountsKeys(profiles);
    ZeroCountsZero(profiles);
    DedupShape(profiles);
    GetFound(ZeroCounts(profiles), c);
  }

  /**
   * `profile_counts[p]` after the loop: each class of the translations holds
   * the number of answers counted toward it, and no other name is a key.
   */
  lemma {:induction false} TallyCountOf(tr: Dict<string>, answers: seq<Option<string>>, c: string)
    ensures Get(Tally(tr, answers), c) == if c in Values(tr) then Some(CountOf(tr, answers, c)) else None
  {
    if answers == [] {
      ZeroCountsGet(Values(tr), c);
    } else {
      var n := |answers| - 1;
      var prev := answers[..n];
      assert answers == prev + [answers[n]];
      TallyCountOf(tr, prev, c);
      TallySnoc(tr, prev, answers[n]);
      CountOfSnoc(tr, prev, answers[n], c);
      if Counted(tr, answers[n]) == Some(c) {
        TallyKeys(tr, prev);
        DedupShape(Values(tr));
        GetOrFound(Tally(tr, prev), c, 0);
      }
    }
  }

  /** `profile_counts`: the zero table, then one increment per counted answer. */
  method CountProfiles(tr: Dict<string>, answers: seq<Option<string>>) returns (counts: Dict<int>)
    ensures counts == Tally(tr, answers)
  {
    counts := ZeroCounts(Values(tr));
    for i := 0 to |answers|
      invariant counts == Tally(tr, answers[..i])
    {
      assert answers[..i + 1][..i] == answers[..i];
      var profile := Counted(tr, answers[i]);
      if profile.Some? {
        counts := Put(counts, profile.value, GetOr(counts, profile.value, 0) + 1);
      }
    }
    assert answers[..|answers|] == answers;
  }

  /** A recipe: the list of (spirit, volume) lines, in the order they are appended. */
  type Recipe = seq<(string, real)>

  /** `remaining * (count / total)`. */
  function Volume(remaining: int, count: int, total: nat): real
    requires total > 0
  {
    (remaining as real) * ((count as real) / (total as real))
  }

  /** The recipe: one portion per class with a positive count, in table order. */
  function RecipeOf(spirits: map<string, string>, counts: Dict<int>, remaining: int, total: nat): Recipe
    requires total > 0
  {
    if counts == [] then []
    else
      var n := |counts| - 1;
      var (profile, count) := counts[n];
      RecipeOf(spirits, counts[..n], remaining, total)
        + (if count > 0 then [(if profile in spirits then spirits[profile] else NoIngredient, Volume(remaining, count, total))] else [])
  }

  /** The sum of the recipe's volumes. */
  function VolumeSum(recipe: Recipe): real
  {
    if recipe == [] then 0.0
    else VolumeSum(recipe[..|recipe| - 1]) + recipe[|recipe| - 1].1
  }

  /** The sum of the positive counts. */
  function PositiveSum(counts: Dict<int>): int
  {
    if counts == [] then 0
    else
      var n := |counts| - 1;
      PositiveSum(counts[..n]) + (if counts[n].1 > 0 then counts[n].1 else 0)
  }

  /** The volumes of two counts add up to the volume of their sum. */
  lemma AddShares(remaining: int, a: int, b: int, total: nat)
    requires total > 0
    ensures Volume(remaining, a, total) + Volume(remaining, b, total) == Volume(remaining, a + b, total)
  {
    var t := total as real;
    assert ((a + b) as real) / t == (a as real) / t + (b as real) / t;
  }

  /** Appending a line adds its volume. */
  lemma VolumeSumSnoc(recipe: Recipe, line: (string, real))
    ensures VolumeSum(recipe + [line]) == VolumeSum(recipe) + line.1
  {
    assert (recipe + [line])[..|recipe|] == recipe;
  }

  /** The recipe's volumes add up to the remaining volume times the share of positive counts. */
  lemma {:induction false} RecipeVolume(spirits: map<string, string>, counts: Dict<int>, remaining: int, total: nat)
    requires total > 0
    ensures VolumeSum(RecipeOf(spirits, counts, remaining, total)) == Volume(remaining, PositiveSum(counts), total)
  {
    if counts != [] {
      var n := |counts| - 1;
      RecipeVolume(spirits, counts[..n], remaining, total);
      var prev := RecipeOf(spirits, counts[..n], remaining, total);
      var profile := counts[n].0;
      var count := counts[n].1;
      var p := PositiveSum(counts[..n]);
      assert PositiveSum(counts) == p + (if count > 0 then count else 0);
      if count > 0 {
        var line := (if profile in spirits then spirits[profile] else NoIngredient, Volume(remaining, count, total));
        assert RecipeOf(spirits, counts, remaining, total) == prev + [line];
        VolumeSumSnoc(prev, line);
        AddShares(remaining, p, count, total);
      } else {
        assert RecipeOf(spirits, counts, remaining, total) == prev;
      }
    }
  }

  /** Over non-negative counts the positive counts add up to all of them. */
  lemma {:induction false} PositiveSumOfNonNegative(counts: Dict<int>)
    requires forall i :: 0 <= i < |counts| ==> counts[i].1 >= 0
    ensures PositiveSum(counts) == ValueSum(counts)
  {
    if counts != [] {
      PositiveSumOfNonNegative(counts[..|counts| - 1]);
      ValueSumLast(counts);
    }
  }

  /** Every portion has a spirit from the table and, with something left to fill, a positive volume. */
  lemma {:induction false} RecipePortions(spirits: map<string, string>, counts: Dict<int>, remaining: int, total: nat)
    requires total > 0 && remaining > 0
    requires forall i :: 0 <= i < |counts| ==> counts[i].0 in spirits
    ensures forall i :: 0 <= i < |RecipeOf(spirits, counts, remaining, total)| ==>
      RecipeOf(spirits, counts, remaining, total)[i].0 in spirits.Values
      && RecipeOf(spirits, counts, remaining, total)[i].1 > 0.0
  {
    if counts != [] {
      var n := |counts| - 1;
      RecipePortions(spirits, counts[..n], remaining, total);
      var count := counts[n].1;
      if count > 0 {
        PositiveShare(remaining, count, total);
      }
    }
  }

  /** A positive count of a positive remaining volume is a positive volume. */
  lemma PositiveShare(remaining: int, count: int, total: nat)
    requires remaining > 0 && count > 0 && total > 0
    ensures Volume(remaining, count, total) > 0.0
  {
    assert (count as real) / (total as real) > 0.0;
  }

  /** A share of at most the whole is at most the remaining volume, and all of it exactly for the whole. */
  lemma FractionOfWhole(remaining: int, count: int, total: nat)
    requires remaining > 0 && 0 <= count <= total && total > 0
    ensures Volume(remaining, count, total) <= remaining as real
    ensures Volume(remaining, count, total) == remaining as real <==> count == total
  {
    var r, v, t := remaining as real, count as real, total as real;
    assert v / t <= 1.0;
    if r * (v / t) == r {
      assert v / t == 1.0;
    }
  }

  /** The two options of question `i` are the translated answers `2 * i` and `2 * i + 1`. */
  lemma OptionsInOrder(i: nat)
    requires i < |EvenRecipes.Questions|
    ensures 2 * i + 1 < |Keys(Translations)|
    ensures EvenRecipes.Questions[i].first == Keys(Translations)[2 * i] != ""
    ensures EvenRecipes.Questions[i].second == Keys(Translations)[2 * i + 1] != ""
  {
    TranslatedAnswers();
    var ks := Keys(Translations);
    var q := EvenRecipes.Questions[i];
    if i == 0 {
      assert q == EvenRecipes.Question("Vollmilch", "Zartbitter");
    } else if i == 1 {
      assert q == EvenRecipes.Question("Gummibärchen", "Salzbrezeln");
    } else if i == 2 {
      assert q == EvenRecipes.Question("Milchshake", "Zitronenlimo");
    } else if i == 3 {
      assert q == EvenRecipes.Question("Kaffee", "Heiße Schokolade");
    } else {
      assert q == EvenRecipes.Question("Ketchup", "Senf");
    }
  }

  /** Every option of every question has a non-empty translation. */
  lemma OptionsTranslated()
    ensures forall i :: 0 <= i < |EvenRecipes.Questions| ==>
      Counted(Translations, Some(EvenRecipes.Questions[i].first)).Some?
      && Counted(Translations, Some(EvenRecipes.Questions[i].second)).Some?
  {
    forall i | 0 <= i < |EvenRecipes.Questions|
      ensures Counted(Translations, Some(EvenRecipes.Questions[i].first)).Some?
      ensures Counted(Translations, Some(EvenRecipes.Questions[i].second)).Some?
    {
      OptionsInOrder(i);
      var ks := Keys(Translations);
      assert ks[2 * i] in ks && ks[2 * i + 1] in ks;
    }
  }

  /** No spirit of the table is the stand-in. */
  lemma StandInIsNoSpirit()
    ensures NoIngredient !in Spirits.Values
  {
    forall v | v in Spirits.Values
      ensures v != NoIngredient
    {
      var k :| k in Spirits && Spirits[k] == v;
    }
  }

  /** Every taste class of the count table has a spirit, and none of them is the stand-in. */
  lemma EveryClassHasSpirit()
    ensures forall p :: p in ProfileOrder ==> p in Spirits
    ensures NoIngredient !in Spirits.Values
  {
    ProfileOrderIsEight();
    StandInIsNoSpirit();
  }

  /**
   * The whole generator: the answers are decoded and tallied, the alcohol
   * choice decoded, and the recipe built from the counts. The volumes add up
   * to at most 200 ml less the alcohol, and to exactly that when every
   * answer was "1" or "2"; every portion is a positive amount of a spirit
   * from the table, so the stand-in never appears.
   */
  method ProportionalCocktail(inputs: seq<string>, alcoholInput: string) returns (recipe: Recipe, alcohol: int)
    requires |inputs| == |EvenRecipes.Questions|
    ensures alcohol == DecodeAlcohol(alcoholInput)
    ensures recipe == RecipeOf(Spirits, Tally(Translations, Decoded(EvenRecipes.Questions, inputs)), TotalVolume - alcohol, |inputs|)
    ensures VolumeSum(recipe) <= (TotalVolume - alcohol) as real
    ensures VolumeSum(recipe) == (TotalVolume - alcohol) as real
      <==> forall i :: 0 <= i < |inputs| ==> Strip(inputs[i]) == "1" || Strip(inputs[i]) == "2"
    ensures forall i :: 0 <= i < |recipe| ==> recipe[i].0 != NoIngredient && recipe[i].1 > 0.0
  {
    var answers := CollectAnswers(EvenRecipes.Questions, inputs);
    alcohol := DecodeAlcohol(alcoholInput);
    var counts := CountProfiles(Translations, answers);
    var remaining := TotalVolume - alcohol;
    recipe := BuildRecipe(Spirits, counts, remaining, |answers|);
    TallyKeys(Translations, answers);
    CocktailVolume(answers, inputs, counts, remaining, recipe);
    CocktailPortions(counts, remaining, recipe);
  }

  /** The recipe loop: one portion per class with a positive count, in table order. */
  method BuildRecipe(spirits: map<string, string>, counts: Dict<int>, remaining: int, total: nat) returns (recipe: Recipe)
    requires total > 0
    ensures recipe == RecipeOf(spirits, counts, remaining, total)
  {
    recipe := [];
    for i := 0 to |counts|
      invariant recipe == RecipeOf(spirits, counts[..i], remaining, total)
    {
      assert counts[..i + 1][..i] == counts[..i];
      var (profile, count) := counts[i];
      if count > 0 {
        var volume := Volume(remaining, count, total);
        var spirit := if profile in spirits then spirits[profile] else NoIngredient;
        recipe := recipe + [(spirit, volume)];
      }
    }
    assert counts[..|counts|] == counts;
  }

  /** The volume half of the generator's guarantee. */
  lemma CocktailVolume(answers: seq<Option<string>>, inputs: seq<string>, counts: Dict<int>, remaining: int, recipe: Recipe)
    requires |inputs| == |EvenRecipes.Questions|
    requires answers == Decoded(EvenRecipes.Questions, inputs)
    requires counts == Tally(Translations, answers)
    requires remaining > 0
    requires recipe == RecipeOf(Spirits, counts, remaining, |inputs|)
    ensures VolumeSum(recipe) <= remaining as real
    ensures VolumeSum(recipe) == remaining as real
      <==> forall i :: 0 <= i < |inputs| ==> Strip(inputs[i]) == "1" || Strip(inputs[i]) == "2"
  {
    TallyVolume(Translations, Spirits, answers, remaining);
    AllCountedIffDigits(inputs, answers);
  }

  /**
   * For any tables the recipe fills at most the remaining volume, and all of
   * it exactly when every answer is counted.
   */
  lemma TallyVolume(tr: Dict<string>, spirits: map<string, string>, answers: seq<Option<string>>, remaining: int)
    requires |answers| > 0 && remaining > 0
    ensures VolumeSum(RecipeOf(spirits, Tally(tr, answers), remaining, |answers|)) <= remaining as real
    ensures VolumeSum(RecipeOf(spirits, Tally(tr, answers), remaining, |answers|)) == remaining as real
      <==> forall i :: 0 <= i < |answers| ==> Counted(tr, answers[i]).Some?
  {
    var counts := Tally(tr, answers);
    var valid := ValidCount(tr, answers);
    TallyCounts(tr, answers);
    PositiveSumOfNonNegative(counts);
    RecipeVolume(spirits, counts, remaining, |answers|);
    assert PositiveSum(counts) == valid;
    ValidCountFull(tr, answers);
    FractionOfWhole(remaining, valid, |answers|);
  }

  /** Every decoded answer is counted exactly when every stripped input is "1" or "2". */
  lemma AllCountedIffDigits(inputs: seq<string>, answers: seq<Option<string>>)
    requires |inputs| == |EvenRecipes.Questions|
    requires answers == Decoded(EvenRecipes.Questions, inputs)
    ensures (forall i :: 0 <= i < |answers| ==> Counted(Translations, answers[i]).Some?)
      <==> forall i :: 0 <= i < |inputs| ==> Strip(inputs[i]) == "1" || Strip(inputs[i]) == "2"
  {
    OptionsTranslated();
    forall i | 0 <= i < |inputs|
      ensures Counted(Translations, answers[i]).Some? <==> Strip(inputs[i]) == "1" || Strip(inputs[i]) == "2"
    {
    }
  }

  /** The portion half of the generator's guarantee. */
  lemma CocktailPortions(counts: Dict<int>, remaining: int, recipe: Recipe)
    requires Keys(counts) == ProfileOrder
    requires remaining > 0
    requires recipe == RecipeOf(Spirits, counts, remaining, 5)
    ensures forall i :: 0 <= i < |recipe| ==> recipe[i].0 != NoIngredient && recipe[i].1 > 0.0
  {
    EveryClassHasSpirit();
    KeysAt(counts);
    RecipePortions(Spirits, counts, remaining, 5);
  }
}
