/**
 * The generator object with its two dictionaries: the ratings store (recipe
 * key to the list of star ratings given to it) and the spirits table (taste
 * class to spirit). It generates the even-split cocktails from the table,
 * collects and stores feedback, and extends the table.
 */
module Generator {
  import opened Outcomes
  import opened Dicts
  import opened EvenRecipes

  /**
   * The star rating kept for a feedback input, `parsed` being the result of
   * `int()` on it (None when that raises): 1 to 5 are kept, everything else
   * counts as 3.
   */
  function ClampFeedback(parsed: Option<int>): (rating: int)
    ensures 1 <= rating <= 5
    ensures parsed.Some? && 1 <= parsed.value <= 5 ==> rating == parsed.value
    ensures !(parsed.Some? && 1 <= parsed.value <= 5) ==> rating == 3
  {
    match parsed
    case Some(v) => if 1 <= v <= 5 then v else 3
    case None => 3
  }

  /** Every stored rating is a star count from 1 to 5. */
  predicate ValidRatings(db: map<string, seq<int>>)
  {
    forall key :: key in db ==> forall j :: 0 <= j < |db[key]| ==> 1 <= db[key][j] <= 5
  }

  /**
   * The store after appending `rating` to the list under `key`, the list
   * being created empty first when the key is new.
   */
  function Appended(db: map<string, seq<int>>, key: string, rating: int): (r: map<string, seq<int>>)
    ensures r.Keys == db.Keys + {key}
    ensures key in db ==> r[key] == db[key] + [rating]
    ensures key !in db ==> r[key] == [rating]
    ensures forall k :: k in db && k != key ==> r[k] == db[k]
  {
    db[key := (if key in db then db[key] else []) + [rating]]
  }

  /** Appending a star count keeps every stored rating between 1 and 5. */
  lemma AppendedKeepsValid(db: map<string, seq<int>>, key: string, rating: int)
    requires ValidRatings(db) && 1 <= rating <= 5
    ensures ValidRatings(Appended(db, key, rating))
  {
  }

  /** The spirits table after entering the given (taste class, spirit) pairs in order. */
  function Extended(spirits: map<string, string>, entries: seq<(string, string)>): map<string, string>
  {
    if entries == [] then spirits
    else
      var n := |entries| - 1;
      Extended(spirits, entries[..n])[entries[n].0 := entries[n].1]
  }

  /** The spirit entered last for `profile` among the entries, if any. */
  function LastEntered(entries: seq<(string, string)>, profile: string): (r: Option<string>)
    ensures r.Some? ==> (profile, r.value) in entries
    ensures r.None? ==> forall j :: 0 <= j < |entries| ==> entries[j].0 != profile
  {
    if entries == [] then None
    else
      var n := |entries| - 1;
      if entries[n].0 == profile then Some(entries[n].1)
      else LastEntered(entries[..n], profile)
  }

  /**
   * The spirit `LastEntered` finds was entered at some position after which
   * the class is never entered again.
   */
  lemma {:induction false} LastEnteredIsLast(entries: seq<(string, string)>, profile: string)
    ensures LastEntered(entries, profile).Some? ==>
      exists i :: 0 <= i < |entries| && entries[i] == (profile, LastEntered(entries, profile).value)
        && forall j :: i < j < |entries| ==> entries[j].0 != profile
  {
    if entries != [] {
      var n := |entries| - 1;
      if entries[n].0 == profile {
        assert entries[n] == (profile, LastEntered(entries, profile).value);
      } else {
        LastEnteredIsLast(entries[..n], profile);
        if LastEntered(entries, profile).Some? {
          var i :| 0 <= i < n && entries[..n][i] == (profile, LastEntered(entries, profile).value)
            && forall j :: i < j < n ==> entries[..n][j].0 != profile;
          assert entries[i] == (profile, LastEntered(entries, profile).value);
        }
      }
    }
  }

  /**
   * The entries taken before the first taste class that, lower-cased, reads
   * "beenden": that answer ends the input and is not stored.
   */
  function BeforeStop(entries: seq<(string, string)>, lower: string -> string): (r: seq<(string, string)>)
    ensures r <= entries
    ensures forall j :: 0 <= j < |r| ==> lower(r[j].0) != "beenden"
    ensures |r| < |entries| ==> lower(entries[|r|].0) == "beenden"
  {
    if entries == [] || lower(entries[0].0) == "beenden" then []
    else [entries[0]] + BeforeStop(entries[1..], lower)
  }

  /** A class the session added to the table is never the stop word. */
  lemma StopWordNeverStored(spirits: map<string, string>, entries: seq<(string, string)>,
                            lower: string -> string, profile: string)
    requires profile in Extended(spirits, BeforeStop(entries, lower)) && profile !in spirits
    ensures lower(profile) != "beenden"
  {
    var taken := BeforeStop(entries, lower);
    ExtendedLookup(spirits, taken, profile);
    var i :| 0 <= i < |taken| && taken[i] == (profile, LastEntered(taken, profile).value);
    assert lower(taken[i].0) != "beenden";
  }

  /**
   * Extending the table gives each entered class the spirit entered for it
   * last, and leaves every class that was not entered as it was.
   */
  lemma {:induction false} ExtendedLookup(spirits: map<string, string>, entries: seq<(string, string)>, profile: string)
    ensures LastEntered(entries, profile).Some? ==>
      profile in Extended(spirits, entries)
      && Extended(spirits, entries)[profile] == LastEntered(entries, profile).value
    ensures LastEntered(entries, profile).None? ==>
      (profile in Extended(spirits, entries) <==> profile in spirits)
      && (profile in spirits ==> Extended(spirits, entries)[profile] == spirits[profile])
  {
    if entries != [] {
      var n := |entries| - 1;
      ExtendedLookup(spirits, entries[..n], profile);
    }
  }

  /** The generator object: its ratings store and its spirits table. */
  class CocktailGenerator {
    var ratings: map<string, seq<int>>
    var spirits: map<string, string>

    /** A generator over the ratings loaded from disk and an initial spirits table. */
    constructor (loaded: map<string, seq<int>>, initialSpirits: map<string, string>)
      ensures ratings == loaded && spirits == initialSpirits
    {
      ratings := loaded;
      spirits := initialSpirits;
    }

    /** `speichere_bewertung`: append the rating under the recipe's key; nothing else changes. */
    method SaveRating(key: string, rating: int)
      modifies this
      ensures ratings == Appended(old(ratings), key, rating)
      ensures spirits == old(spirits)
    {
      if key !in ratings {
        ratings := ratings[key := []];
      }
      ratings := ratings[key := ratings[key] + [rating]];
    }

    /**
     * `sammle_feedback`: clamp the input to a star count and store it.
     * `optimise` is the decision of the variant that reworks a recipe rated
     * below 3 stars.
     */
    method CollectFeedback(key: string, parsed: Option<int>) returns (rating: int, optimise: bool)
      modifies this
      ensures rating == ClampFeedback(parsed)
      ensures optimise <==> parsed.Some? && 1 <= parsed.value <= 2
      ensures ratings == Appended(old(ratings), key, rating)
      ensures ValidRatings(old(ratings)) ==> ValidRatings(ratings)
      ensures spirits == old(spirits)
    {
      rating := ClampFeedback(parsed);
      SaveRating(key, rating);
      optimise := rating < 3;
      if ValidRatings(old(ratings)) {
        AppendedKeepsValid(old(ratings), key, rating);
      }
    }

    /**
     * `erweitere_datenbank`: enter (taste class, spirit) pairs until a class
     * that, lower-cased, reads "beenden"; `lower` stands for `str.lower`.
     */
    method ExtendSpirits(entries: seq<(string, string)>, lower: string -> string)
      modifies this
      ensures spirits == Extended(old(spirits), BeforeStop(entries, lower))
      ensures ratings == old(ratings)
    {
      var i := 0;
      while i < |entries| && lower(entries[i].0) != "beenden"
        invariant 0 <= i <= |entries|
        invariant forall j :: 0 <= j < i ==> lower(entries[j].0) != "beenden"
        invariant spirits == Extended(old(spirits), entries[..i])
        invariant ratings == old(ratings)
      {
        assert entries[..i + 1][..i] == entries[..i];
        spirits := spirits[entries[i].0 := entries[i].1];
        i := i + 1;
      }
      var taken := BeforeStop(entries, lower);
      assert |taken| == i;
      assert entries[..i] == taken;
    }
 
    /** The first variant's `generiere_cocktail` over the current spirits table. */
    method GenerateAustausch(answers: seq<string>, alcohol: int) returns (cocktail: Dict<int>)
      ensures cocktail == AustauschRecipe(spirits, answers, alcohol)
    {
      cocktail := [];
      var total := 200 - alcohol;
      ghost var ingredients := Ingredients(Austausch, spirits, answers);
      ghost var share := if |answers| > 0 then EvenShare(alcohol, |answers|) else 0;
      var i := 0;
      while i < |answers|
        invariant 0 <= i <= |answers|
        invariant cocktail == EvenShares(ingredients[..i], share)
      {
        var answer := answers[i];
        EvenSharesStep(ingredients, i, share);
        assert ingredients[i] == Ingredient(Austausch, spirits, answer);
        if answer in AustauschClasses && AustauschClasses[answer] != "" {
          var profile := AustauschClasses[answer];
          if profile in spirits && spirits[profile] != "" {
            var volume := total / |answers|;
            cocktail := Put(cocktail, spirits[profile], volume);
          }
        }
        i := i + 1;
      }
      assert ingredients[..i] == ingredients;
      if alcohol > 0 {
        cocktail := Put(cocktail, AlcoholKey, alcohol);
      }
    }

    /** The second variant's `generiere_cocktail` over the current spirits table. */
    method GenerateTest1(answers: seq<string>, alcohol: int) returns (cocktail: Dict<int>)
      ensures cocktail == Test1Recipe(spirits, answers, alcohol)
    {
      cocktail := [];
      var total := 200 - alcohol;
      var used := answers;
      if used == [] {
        used := ["Vollmilch"];
      }
      ghost var ingredients := Ingredients(Test1, spirits, used);
      ghost var share := EvenShare(alcohol, |used|);
      var i := 0;
      while i < |used|
        invariant 0 <= i <= |used|
        invariant cocktail == EvenShares(ingredients[..i], share)
      {
        var answer := used[i];
        EvenSharesStep(ingredients, i, share);
        assert ingredients[i] == Ingredient(Test1, spirits, answer);
        if answer in Test1Classes && Test1Classes[answer] != "" {
          var profile := Test1Classes[answer];
          var ingredient := if profile in spirits then spirits[profile] else UnknownIngredient;
          var volume := total / |used|;
          cocktail := Put(cocktail, ingredient, volume);
        }
        i := i + 1;
      }
      assert ingredients[..i] == ingredients;
      if alcohol > 0 {
        cocktail := Put(cocktail, AlcoholKey, alcohol);
      }
    }
  }
}
