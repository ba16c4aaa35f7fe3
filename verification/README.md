# Cocktail mixer model

A Dafny model of the deterministic core of a small cocktail recommender.
The recommender has five variants. Four of them turn a questionnaire into
a recipe; the fifth (`Flo/mix.py`) turns a taste request into the name of
the nearest ingredient. The numeric black boxes (a least-squares
solver and a trained autoencoder) are parameters of the model. Everything
around them is modelled and its promises are proved:

- **Top-k mixer** (`code_final/cocktail_code.py`, `create_mix_profile`).
  - Clip the raw weights, then normalise them.
  - Keep the k largest weights and renormalise.
  - Scale by the total volume and drop volumes at or below 1e-6.
  - `Mixer` proves:
    - at most k entries, all above the threshold;
    - names in catalog order;
    - a total no larger than the volume;
    - the fallback at line 92 is unreachable.
- **Questionnaire and request** (same file).
  - Average the chosen option vectors over the valid answers.
  - Normalise the alcohol preference and clamp k.
  - Filter the catalog, in order, to one pool.
  - `Questionnaire` proves that the average stays within the options' bounds and that the orchestrator's recipe comes from the right pool.
- **Ratings store and spirits table** (`sammle_feedback`, `speichere_bewertung`, `erweitere_datenbank`).
  - `Generator.CocktailGenerator` is a class with a `ratings` map and a `spirits` map, updated in place.
  - It also holds the two even-share generators of the `Conrad/austausch.py` and `Conrad/Test1.py` variants. Their specifications are in `EvenRecipes`.
- **Proportional recipe** (`Conrad/cocktail_generator.py`).
  - Decode the answers and the alcohol choice.
  - Tally the answers per taste class in a dict that keeps insertion order.
  - Give each counted class `remaining * count / total` ml.
  - `ProportionalRecipe` proves:
    - the volumes sum to at most what remains after the alcohol, with equality exactly when every answer was "1" or "2";
    - the "no ingredient" stand-in never appears.
- **Taste request parser and nearest ingredient** (`Flo/mix.py`).
  - `parse_taste_input` fills a 5-slot profile in place, in `TasteLookup.ParseTasteInput` over an `array<real>`.
  - Malformed parts become `Err` values.
  - The last part naming a slot wins, and unnamed slots stay 0.0.
  - `generate_cocktail` returns the first arg-min of the squared distance.

Supporting modules:

- `Outcomes`: `Option` and `Result`.
- `Seqs`: sums and counts over sequences of reals.
- `Taste`: 5-slot vectors.
- `Dicts`: an insertion-ordered Python `dict` as a sequence of pairs.
- `Text`: `str.strip`, `str.split()` and `str.split(sep)` over `seq<char>`.

Design choices of the code that the model keeps as written:

- An alcoholic request filters the catalog to one pool (line 126 of `code_final/cocktail_code.py`). No 30%/70% split between two pools is modelled.
- `np.argsort` is not stable, so ties among equal weights are left open. The predicate `Mixer.IsTopK` admits every valid top-k choice, and no catalog-order tie-break is assumed.
- The fallback at line 92 builds `k` copies of `1/k`, not a uniform vector over the whole catalog. It is modelled as written and proved unreachable.

Opaque calls are parameters of the model:

| call | in the model |
|---|---|
| `np.linalg.lstsq` | the raw weights, or the `solve` function of `Questionnaire.Recommend` |
| the autoencoder | the reconstructed profile, or `reconstruct` |
| `float(...)` | `parseFloat` |
| `str.lower` | `lower` |
| `int(input())` | an `Option<int>` |

## Model

| member | source | states |
|---|---|---|
| Dicts.GetFound | Conrad/cocktail_generator.py:66-67 | a lookup (`Dicts.Get`) finds a value exactly when the key is present, and that value is stored under the key |
| Dicts.GetOrFound | Conrad/cocktail_generator.py:67 | a lookup with a default (`Dicts.GetOr`) gives the stored value for a present key and the default otherwise. The tally reads the current count with it; Python's `profile_counts[...]` has no default and would raise `KeyError` on a missing key, but `ProportionalRecipe.TallyCountOf` keeps every class a key, so the default is never used |
| Dicts.PutLength | Conrad/austausch.py:82 | an assignment adds at most one entry |
| Dicts.PutKeys | Conrad/austausch.py:82 | assigning a new key appends it to the key order, and overwriting an existing key keeps the order |
| Dicts.PutGet | Conrad/austausch.py:82 | after `d[k] = v` (`Dicts.Put`), `k` maps to `v` and every other key is unchanged |
| Dicts.PutDistinct | Conrad/austausch.py:82 | assignment keeps the keys distinct |
| Dicts.PutValueSum | Conrad/austausch.py:82 | overwriting replaces the old value in the sum of values, and a new key adds its value |
| Seqs.SumScale | code_final/cocktail_code.py:93 | scaling every weight by c scales their sum by c |
| Mixer.Clip | code_final/cocktail_code.py:83 | every clipped weight is non-negative, non-negative weights are kept, and negative ones become 0 |
| Mixer.NormaliseIsDistribution | code_final/cocktail_code.py:84-85 | normalised non-negative weights are non-negative and sum to 1, on both the divide and the uniform 1/n branch |
| Mixer.RetainedMassPositive | code_final/cocktail_code.py:86-92 | when the k largest of a distribution are kept, the retained mass is positive |
| Mixer.RenormaliseTopK | code_final/cocktail_code.py:86-92 | keep-top-k then renormalise gives non-negative weights that sum to 1 with at most k non-zero, and the uniform fallback at line 92 is never taken |
| Mixer.RenormalisedWeights | code_final/cocktail_code.py:91-92 | after renormalising, a selected weight is its share of the retained mass and every unselected weight is 0 |
| Mixer.RetainCountNonZero | code_final/cocktail_code.py:89-91 | zeroing the unselected weights leaves at most as many non-zero weights as were selected |
| Mixer.MixWeightsShape | code_final/cocktail_code.py:83-92 | the final weights keep the input length, are non-negative, sum to 1 and have at most k non-zero entries; with k at least n they are just the normalised weights. The steps are `Mixer.Normalise` (lines 83-85), `Mixer.Retain` (line 91), `Mixer.Renormalise` (line 92) and their composition `Mixer.MixWeights` |
| Mixer.ZeroUnselected | code_final/cocktail_code.py:91 | `w[~mask] = 0` in place: the array becomes the retained weights |
| Mixer.MaxUnselected | code_final/cocktail_code.py:87-88 | finds an unselected index whose weight is at least every other unselected weight |
| Mixer.SelectTopK | code_final/cocktail_code.py:86-90 | the mask selects exactly k positions, and every selected weight is at least every unselected one |
| Mixer.RecipeShape | code_final/cocktail_code.py:94 | every recipe volume exceeds 1e-6; the names are a subsequence of the ingredient names in input order; the length is at most the number of names and of volumes above the threshold; `Mixer.Recipe` is the dict comprehension of line 94 |
| Mixer.RecipeLookup | code_final/cocktail_code.py:93-94 | with distinct names, an ingredient appears with its volume exactly when that volume exceeds 1e-6 |
| Mixer.RecipeLookupAbsent | code_final/cocktail_code.py:94 | a name outside the ingredient names never appears |
| Mixer.RecipeTotalBounds | code_final/cocktail_code.py:93-94 | the recipe total is at most the volume sum and falls short by at most n times 1e-6 |
| Mixer.MixRecipeGuarantees | code_final/cocktail_code.py:76-94 | the recipe has at most min(k, n) entries, all above 1e-6, in catalog order, totalling at most `total_volume` and at least `total_volume - n*1e-6` |
| Mixer.CreateMixProfile | code_final/cocktail_code.py:76-94 | the method's recipe equals the specification over its top-k choice, and it carries the same guarantees |
| Questionnaire.Divisor | code_final/cocktail_code.py:114 | the divisor is always positive, so the division never fails, even with no valid answers |
| Questionnaire.AggregateProfile | code_final/cocktail_code.py:100-114 | the accumulating loop gives the average (`Questionnaire.Average`, the sum `Questionnaire.ChosenSum` divided by the divisor) of the chosen options over the valid answers |
| Questionnaire.NoValidAnswersGiveZero | code_final/cocktail_code.py:101-114 | without a "1" or "2" answer the profile is the zero vector |
| Questionnaire.ChosenSumBounds | code_final/cocktail_code.py:103-113 | the summed profile lies between v*lo and v*hi per component, for v valid answers |
| Questionnaire.AverageWithinBounds | code_final/cocktail_code.py:101-114 | when every option vector lies in [lo, hi], so does the averaged profile |
| Questionnaire.NormalisePreference | code_final/cocktail_code.py:116-117 | the preference is "a" or "n", and it is "a" exactly when the stripped, lower-cased input is "a" |
| Questionnaire.ClampK | code_final/cocktail_code.py:119-123 | k is at least 1: the parsed value when it is at least 1, 1 when it is smaller, and 3 when parsing failed |
| Questionnaire.FilterCatalog | code_final/cocktail_code.py:126 | the pool keeps catalog order and holds exactly the items whose alcoholic flag equals `pref == "a"` |
| Questionnaire.Recommend | code_final/cocktail_code.py:96-136 | the profile is the average; there is no recipe exactly when the pool is empty; otherwise the recipe is the mixer's result for the pool's names over `solve(pool tastes, reconstruct(pool tastes, profile))` with the clamped k and some valid top-k choice, so it has at most k entries, each above 1e-6 and named after a catalog item of the chosen kind, totalling at most 200 ml, and at least 200 - n·1e-6 ml when `solve` returns n > 0 weights and the pool has at least n items (as `np.linalg.lstsq` gives one weight per pool item) |
| Generator.ClampFeedback | code_final/cocktail_code.py:147-152 | a rating is in 1..5: the parsed value when it is in range, otherwise 3 |
| Generator.Appended | code_final/cocktail_code.py:155-159 | saving appends the rating under the key, creating the list if absent, and leaves every other key unchanged |
| Generator.AppendedKeepsValid | code_final/cocktail_code.py:147-159 | a store whose ratings are all in 1..5 stays so after a rating in 1..5 is saved |
| Generator.LastEntered | Conrad/austausch.py:136-141 | the last value entered for a profile is one of the entered pairs; none means the profile was never entered |
| Generator.LastEnteredIsLast | Conrad/austausch.py:136-141 | the value found was entered at a position after which the profile is never entered again |
| Generator.BeforeStop | Conrad/austausch.py:136-139 | the entries taken are a prefix of the input, none of them lower-cases to "beenden", and the entry after them, if any, does |
| Generator.StopWordNeverStored | Conrad/austausch.py:138-141 | a profile the session adds to the table never lower-cases to "beenden" |
| Generator.ExtendedLookup | Conrad/austausch.py:134-142 | after the entry loop (`Generator.Extended`) a profile maps to the last value entered for it; otherwise it keeps its old mapping or stays absent |
| Generator.CocktailGenerator.constructor | Conrad/austausch.py:6-15 | the generator starts with the loaded ratings and the initial spirits table |
| Generator.CocktailGenerator.SaveRating | Conrad/austausch.py:108-114 | `speichere_bewertung` appends in place under one key and leaves the spirits table alone |
| Generator.CocktailGenerator.CollectFeedback | Conrad/austausch.py:89-106 | the saved rating is the clamped feedback; optimisation is triggered exactly for ratings 1 and 2; valid stores stay valid |
| Generator.CocktailGenerator.ExtendSpirits | Conrad/austausch.py:134-142 | the pairs entered before the first "beenden" (in any case) insert or overwrite keys of the spirits table in order; ratings are unchanged |
| Generator.CocktailGenerator.GenerateAustausch | Conrad/austausch.py:59-87 | the dict-filling loop produces the even-share recipe of the first variant |
| Generator.CocktailGenerator.GenerateTest1 | Conrad/Test1.py:73-104 | the dict-filling loop produces the even-share recipe of the second variant, including the replacement of an empty answer list |
| EvenRecipes.SelectAnswer | Conrad/austausch.py:44-50 | "2" picks the second option and any other input the first |
| EvenRecipes.CollectAnswers | Conrad/Test1.py:45-56 | exactly one answer per question, each the first or the second option, as the input selects |
| EvenRecipes.AlcoholFromChoice | Conrad/austausch.py:53 | the alcohol volume is 0, 2 or 4: "2" gives 2, "4" gives 4 and anything else 0 |
| EvenRecipes.AlcoholFromParsed | Conrad/Test1.py:59-66 | the alcohol volume is the parsed integer when it is 0, 2 or 4, otherwise 0 (a parse failure included) |
| EvenRecipes.Ingredient | Conrad/Test1.py:94-97 | an answer contributes only through its taste class; what the first variant gives is a non-empty spirit of the table; what the second gives is a spirit of the table or "Unbekannte Zutat" |
| EvenRecipes.IngredientCases | Conrad/Test1.py:94-97 | in both directions: the second variant takes an answer exactly when it has a non-empty taste class, and gives that class's spirit, or "Unbekannte Zutat" when the table has none; the first variant (Conrad/austausch.py:76-80) takes an answer exactly when its non-empty class has a non-empty spirit, and gives that spirit |
| EvenRecipes.EvenShareFloor | Conrad/austausch.py:81 | `(200 - alcohol) // n` is the floor: n shares fit in what remains and n+1 do not |
| EvenRecipes.Test1Answers | Conrad/Test1.py:90-92 | the answer list used is never empty, and a non-empty list is kept as it is |
| EvenRecipes.EvenSharesKeys | Conrad/austausch.py:76-82 | an ingredient is a key of the cocktail exactly when some answer leads to it |
| EvenRecipes.EvenSharesShape | Conrad/austausch.py:76-82 | the dict of even shares (`EvenRecipes.EvenShares`): repeated ingredients overwrite, so keys are distinct, there are at most as many entries as answers, every value is the share, and the sum is entries × share |
| EvenRecipes.EvenSharesVolume | Conrad/austausch.py:74-82 | the non-alcohol entries are non-negative and sum to at most `200 - alcohol` |
| EvenRecipes.AlcoholEntry | Conrad/austausch.py:84-85 | adding the alcohol (`EvenRecipes.WithAlcohol`): a positive volume is stored under "Alkohol" and every other key is unchanged; otherwise the dict is untouched |
| EvenRecipes.WithAlcoholVolume | Conrad/austausch.py:84-85 | adding the alcohol entry keeps the total at most 200 ml |
| EvenRecipes.AustauschRecipeShape | Conrad/austausch.py:59-87 | the first variant's recipe (`EvenRecipes.AustauschRecipe`) has distinct keys, at most one entry per answer plus "Alkohol", "Alkohol" holding a positive alcohol volume, and at most 200 ml in total |
| EvenRecipes.Test1RecipeShape | Conrad/Test1.py:73-104 | the same four guarantees for the second variant's recipe (`EvenRecipes.Test1Recipe`), counted over the answers actually used |
| EvenRecipes.NoSpiritNamedAlcohol | Conrad/Test1.py:20-29 | no spirit of the initial tables is called "Alkohol" |
| EvenRecipes.AlcoholKeyIffPositive | Conrad/Test1.py:101-102 | with the initial tables "Alkohol" is a key exactly when the alcohol volume is positive, in both variants |
| EvenRecipes.Test1NeverUnknown | Conrad/Test1.py:74-99 | with the initial tables every taste class has a spirit, so "Unbekannte Zutat" never appears |
| EvenRecipes.Test1EmptyQuestionnaire | Conrad/Test1.py:90-99 | an empty answer list yields `200 - alcohol` ml of Amaretto, plus the alcohol entry |
| ProportionalRecipe.DecodeAnswer | Conrad/cocktail_generator.py:42-49 | a stripped "1" gives the first option, "2" the second, and anything else no answer |
| ProportionalRecipe.CollectAnswers | Conrad/cocktail_generator.py:39-49 | the question loop records one decoded answer per question (`ProportionalRecipe.Decoded`) |
| ProportionalRecipe.DecodeAlcohol | Conrad/cocktail_generator.py:53-62 | a stripped "2" gives 20 ml, "4" gives 40 ml, and anything else 0 |
| ProportionalRecipe.DedupShape | Conrad/cocktail_generator.py:35-36 | the distinct classes (`ProportionalRecipe.Dedup`) are distinct and are exactly the taste classes, as the dict comprehension's keys are |
| ProportionalRecipe.ZeroCountsKeys | Conrad/cocktail_generator.py:36 | the zero count dict (`ProportionalRecipe.ZeroCounts`) has the classes as keys in first-occurrence order |
| ProportionalRecipe.ZeroCountsZero | Conrad/cocktail_generator.py:36 | every count starts at 0 |
| ProportionalRecipe.ProfileOrderIsEight | Conrad/cocktail_generator.py:11-36 | the counts have the eight keys "süß" … "scharf" in this order, because "süß" and "cremig/süß" repeat |
| ProportionalRecipe.Counted | Conrad/cocktail_generator.py:66-67 | an answer is counted exactly when it is a non-empty translated answer, and it is counted under its translation |
| ProportionalRecipe.TallyKeys | Conrad/cocktail_generator.py:65-67 | counting never adds or reorders keys |
| ProportionalRecipe.TallyCounts | Conrad/cocktail_generator.py:65-67 | the tally (`ProportionalRecipe.Tally`) has non-negative counts that sum to the number of counted answers |
| ProportionalRecipe.ValidCountFull | Conrad/cocktail_generator.py:65-70 | at most every answer is counted, and all are exactly when each answer is translated |
| ProportionalRecipe.TallySnoc | Conrad/cocktail_generator.py:66-67 | one more counted answer raises its class's count by one and leaves every other class's count as it was; an answer that is not counted leaves the tally unchanged |
| ProportionalRecipe.ZeroCountsGet | Conrad/cocktail_generator.py:36 | before counting, every taste class has count 0 and no other name is a key |
| ProportionalRecipe.TallyCountOf | Conrad/cocktail_generator.py:65-67 | after counting, each taste class holds the number of answers counted toward it (`ProportionalRecipe.CountOf`), and no other name is a key |
| ProportionalRecipe.CountProfiles | Conrad/cocktail_generator.py:65-67 | the in-place counting loop computes the tally |
| ProportionalRecipe.FractionOfWhole | Conrad/cocktail_generator.py:78-79 | `remaining * count / total` is at most `remaining`, with equality exactly when count equals total |
| ProportionalRecipe.RecipeVolume | Conrad/cocktail_generator.py:75-81 | the volumes of the recipe (`ProportionalRecipe.RecipeOf`) sum to `remaining * (sum of positive counts) / total` |
| ProportionalRecipe.RecipePortions | Conrad/cocktail_generator.py:76-81 | every recipe line is a spirit of the table with a positive volume |
| ProportionalRecipe.OptionsInOrder | Conrad/cocktail_generator.py:3-21 | the options of question i are the translation keys 2i and 2i+1, and none is empty |
| ProportionalRecipe.OptionsTranslated | Conrad/cocktail_generator.py:3-21 | every option of every question has a translation |
| ProportionalRecipe.StandInIsNoSpirit | Conrad/cocktail_generator.py:24-33 | "Keine Zutat verfügbar" is not a spirit of the table |
| ProportionalRecipe.EveryClassHasSpirit | Conrad/cocktail_generator.py:24-36 | every counted class is a key of the spirits table, so the default at line 80 is never used |
| ProportionalRecipe.BuildRecipe | Conrad/cocktail_generator.py:75-81 | the recipe-building loop computes the specified recipe in dict order |
| ProportionalRecipe.TallyVolume | Conrad/cocktail_generator.py:65-81 | the volumes sum to at most `remaining`, with equality exactly when every answer is counted |
| ProportionalRecipe.AllCountedIffDigits | Conrad/cocktail_generator.py:40-67 | every decoded answer is counted exactly when every stripped input is "1" or "2" |
| ProportionalRecipe.CocktailVolume | Conrad/cocktail_generator.py:70-81 | the volumes sum to at most `200 - alcohol`, with equality exactly when every input was "1" or "2" |
| ProportionalRecipe.CocktailPortions | Conrad/cocktail_generator.py:76-81 | no recipe line is "Keine Zutat verfügbar", and every volume is positive |
| ProportionalRecipe.ProportionalCocktail | Conrad/cocktail_generator.py:38-81 | the whole run gives the decoded alcohol and the specified recipe, with the volume bound, the equality case and the positive real-spirit lines |
| TasteLookup.TasteSlot | Flo/mix.py:159 | a found slot is one of the five |
| TasteLookup.TasteSlotNames | Flo/mix.py:159 | each of the five German words names its own slot, and only that word does |
| TasteLookup.ParseValueAndWord | Flo/mix.py:164-166 | a part (`TasteLookup.ParsePart`) "value word" parses to (float(value), lower(word)), or fails on the value when it is not a number |
| TasteLookup.Assign | Flo/mix.py:168-169 | a known word sets its slot to the value and leaves the others; an unknown word changes nothing |
| TasteLookup.AssignPart | Flo/mix.py:163-169 | one loop iteration in place: a malformed part reports its error and leaves the profile, and a good one assigns |
| TasteLookup.ParseTasteInput | Flo/mix.py:158-171 | the in-place loop over the comma-separated parts gives the specified result |
| TasteLookup.ApplyFailsIff | Flo/mix.py:163-165 | processing the parts in order (`TasteLookup.Apply`) fails exactly when some part fails to parse |
| TasteLookup.ApplyUntouched | Flo/mix.py:160-169 | a slot that no part names keeps its starting value |
| TasteLookup.ApplyLastWins | Flo/mix.py:169 | a slot named by several parts holds the value of the last of them |
| TasteLookup.RequestFailsIff | Flo/mix.py:163-165 | a request (`TasteLookup.ParseRequest`) fails exactly when one of its comma-separated parts is malformed |
| TasteLookup.RequestUnnamedSlot | Flo/mix.py:160-169 | in an accepted request an unnamed slot is 0.0 |
| TasteLookup.RequestNamedSlot | Flo/mix.py:168-169 | in an accepted request a named slot holds the value of the last part naming it |
| TasteLookup.EmptyRequestFails | Flo/mix.py:163-164 | the empty request fails to unpack into two tokens |
| TasteLookup.BareWordFails | Flo/mix.py:163-164 | a bare "süß" fails to unpack into two tokens |
| TasteLookup.FirstArgMin | Flo/mix.py:175 | the index holds a minimum, and every earlier entry is strictly larger, as with `np.argmin` |
| TasteLookup.Distances | Flo/mix.py:175 | entry i is the squared Euclidean distance from ingredient i to the profile |
| TasteLookup.GenerateCocktail | Flo/mix.py:173-176 | the returned name is a catalog name at a first index of minimal squared distance |
| TasteLookup.ExactProfilePicksItself | Flo/mix.py:30-32 | a profile equal to Amaretto's picks Amaretto |
| Text.TrimStartShape | Conrad/cocktail_generator.py:42 | stripping the front removes a whitespace prefix and leaves no leading whitespace |
| Text.TrimEndShape | Conrad/cocktail_generator.py:53 | stripping the back removes a whitespace suffix and leaves no trailing whitespace |
| Text.StripEnds | Conrad/cocktail_generator.py:42 | a stripped string neither starts nor ends with whitespace |
| Text.StripShape | Conrad/cocktail_generator.py:53 | the input is whitespace, then the stripped string (`Text.Strip`), then whitespace |
| Text.StripUnchanged | Flo/mix.py:164 | a string without whitespace at its ends is its own strip |
| Text.WordsAreWords | Flo/mix.py:164 | every token of `split()` is non-empty and whitespace-free, and a string starting with a non-space starts its first token |
| Text.WordsJoin | Flo/mix.py:164 | the tokens of `split()` (`Text.Words`) together are exactly the non-whitespace characters |
| Text.WordsNoneIffAllSpace | Flo/mix.py:164 | `split()` yields no tokens exactly for an all-whitespace string |
| Text.WordsSkipSpace | Flo/mix.py:164 | whitespace before the first token is skipped: it never starts or joins a token |
| Text.WordsPrefix | Flo/mix.py:164 | a word followed by whitespace or nothing is the first token |
| Text.WordsOfTwo | Flo/mix.py:164 | "a b" for two words strips to itself and splits into [a, b] |
| Text.SplitOn | Flo/mix.py:163 | `split(",")` yields at least one part, none containing the separator |
| Text.JoinSplit | Flo/mix.py:163 | joining the parts with the separator gives back the input |
| Text.SplitWithoutSeparator | Flo/mix.py:163 | an input without the separator is its own single part |
| Text.SplitAtFirstSeparator | Flo/mix.py:163 | the split cuts at the first separator and goes on after it |
| Text.SplitJoin | Flo/mix.py:163 | splitting a join of separator-free parts gives back the parts |

## Left out

- `np.linalg.lstsq` (code_final/cocktail_code.py:82): an opaque numeric solver. The raw weights are an input, and least-squares optimality is not modelled.
- Building, training and calling the autoencoder (Flo/mix.py:138-155, 174; code_final/cocktail_code.py:63-74, 134-135): stochastic numeric training. The reconstructed profile is an input, or the `reconstruct` parameter.
- Floating point. Weights, tastes and volumes are exact reals.
  - `round(..., 2)` (code_final/cocktail_code.py:94; Conrad/cocktail_generator.py:81) is not applied, so the volume bounds hold for the unrounded values.
- `float(...)`, `int(...)` and `str.lower` are parameters (`parseFloat`, an `Option<int>`, `lower`).
- Mixer.CreateMixProfile requires `k >= 1`: the only caller clamps k first (code_final/cocktail_code.py:121). Python slicing with a non-positive k is not modelled.
- Text.IsSpace is a fixed list of the characters for which Python's `str.isspace` holds. Unicode categories are not consulted.
- JSON loading and saving (`load_data`, `save_data`, `load_cocktail_data`): the ratings store is an in-memory map, and `save_data` has no effect.
- The recipe key `str(tuple(cocktail.items()))`: the key is a string parameter of `SaveRating` and `CollectFeedback`, and its rendering is not modelled.
- `print`/`input` menus and `auswertung`: only the decision rules inside them are modelled. The inputs become parameters.
- Generator.CocktailGenerator.constructor takes the initial spirits table as a parameter: the variants start from different literal tables (Conrad/austausch.py:8-14, code_final/cocktail_code.py:35-41, and Conrad/Test1.py:7 filled at lines 20-29). The tables of the two even-share variants are the constants `EvenRecipes.AustauschSpirits` and `EvenRecipes.Test1Spirits`, which the lemmas about the initial tables use.
- `optimiere_rezept` (Conrad/austausch.py:116-127): it depends on `random.choice` and can loop forever. The model states only when it is triggered (`CollectFeedback`'s `optimise`).
- `analysiere_modifikationen` (Conrad/austausch.py:129-132): printing only.
- The `ingredients` table of Flo/mix.py:29-133: only three of its rows are used, as sample data.
- TasteLookup.ParseTasteInput stops at the first malformed part, as the raised exception does. Assignments made before the error are not observable, since the error replaces the result.
- Mixer.IsTopK does not fix how `np.argsort` orders equal weights. Every mask that selects k largest weights is admitted.
