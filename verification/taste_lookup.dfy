/**
 * The autoencoder front end's two deterministic steps: parsing a request
 * such as "0.4 süß, 0.8 sauer" into a five-slot taste vector, and picking
 * the catalog ingredient whose taste vector lies nearest to the
 * reconstructed one. The number parser `float()` and `str.lower()` are
 * parameters; the autoencoder's output is an input value.
 */
module TasteLookup {
  import opened Outcomes
  import opened Taste
  import opened Text

  /** Why a request is rejected. */
  datatype ParseError =
    | WrongTokenCount(part: string)  // a comma-separated part that is not exactly two tokens
    | NotANumber(token: string)      // a value token that the number parser rejects

  /** The slot of each of the five German taste words; any other word has none. */
  function TasteSlot(word: string): (slot: Option<nat>)
    ensures slot.Some? ==> slot.value < 5
  {
    if word == "süß" then Some(Sweet)
    else if word == "sauer" then Some(Sour)
    else if word == "bitter" then Some(Bitter)
    else if word == "fruchtig" then Some(Fruity)
    else if word == "würzig" then Some(Spicy)
    else None
  }

  /** Each slot is named by exactly its own taste word. */
  lemma TasteSlotNames(word: string)
    ensures word == "süß" <==> TasteSlot(word) == Some(Sweet)
    ensures word == "sauer" <==> TasteSlot(word) == Some(Sour)
    ensures word == "bitter" <==> TasteSlot(word) == Some(Bitter)
    ensures word == "fruchtig" <==> TasteSlot(word) == Some(Fruity)
    ensures word == "würzig" <==> TasteSlot(word) == Some(Spicy)
  {
  }

  /**
   * One comma-separated part: after stripping it must split into exactly a
   * value token and a taste word; the value goes through the number parser
   * and the word through lower-casing.
   */
  function ParsePart(part: string, parseFloat: string -> Option<real>, lower: string -> string): Result<(real, string), ParseError>
  {
    var tokens := Words(Strip(part));
    if |tokens| != 2 then Err(WrongTokenCount(part))
    else
      match parseFloat(tokens[0])
      case None => Err(NotANumber(tokens[0]))
      case Some(v) => Ok((v, lower(tokens[1])))
  }

  /**
   * A part written as a value token, one space and a word is parsed into
   * the parsed value and the lower-cased word, or rejected for its value.
   */
  lemma ParseValueAndWord(value: string, word: string, parseFloat: string -> Option<real>, lower: string -> string)
    requires IsWord(value) && IsWord(word)
    ensures parseFloat(value).Some? ==>
      ParsePart(value + " " + word, parseFloat, lower) == Ok((parseFloat(value).value, lower(word)))
    ensures parseFloat(value).None? ==>
      ParsePart(value + " " + word, parseFloat, lower) == Err(NotANumber(value))
  {
    WordsOfTwo(value, word);
  }

  /** A part as parsed: the value and the lower-cased word, or why it is rejected. */
  type Parsed = Result<(real, string), ParseError>

  /** Every part parsed, in order. */
  function ParseAll(parts: seq<string>, parseFloat: string -> Option<real>, lower: string -> string): seq<Parsed>
  {
    if parts == [] then [] else [ParsePart(parts[0], parseFloat, lower)] + ParseAll(parts[1..], parseFloat, lower)
  }

  /** `ParseAll` parses each part on its own. */
  lemma {:induction false} ParseAllAt(parts: seq<string>, parseFloat: string -> Option<real>, lower: string -> string)
    ensures |ParseAll(parts, parseFloat, lower)| == |parts|
    ensures forall i :: 0 <= i < |parts| ==> ParseAll(parts, parseFloat, lower)[i] == ParsePart(parts[i], parseFloat, lower)
  {
    if parts != [] {
      ParseAllAt(parts[1..], parseFloat, lower);
    }
  }

  /** The slot a well-formed part names, if any. */
  function SlotOf(p: Parsed): Option<nat>
  {
    match p
    case Ok((_, word)) => TasteSlot(word)
    case Err(_) => None
  }

  /** Writing `value` into the slot of `word`; an unknown word changes nothing. */
  function Assign(profile: TasteVector, word: string, value: real): (r: TasteVector)
    ensures TasteSlot(word).Some? ==> r[TasteSlot(word).value] == value
    ensures forall c :: 0 <= c < 5 && Some(c) != TasteSlot(word) ==> r[c] == profile[c]
  {
    match TasteSlot(word)
    case Some(slot) => profile[slot := value]
    case None => profile
  }

  /** Processing the parsed parts in order from `profile`; the first bad part ends it with its error. */
  function Apply(profile: TasteVector, parsed: seq<Parsed>): Result<TasteVector, ParseError>
    decreases |parsed|
  {
    if parsed == [] then Ok(profile)
    else
      match parsed[0]
      case Err(e) => Err(e)
      case Ok((value, word)) => Apply(Assign(profile, word, value), parsed[1..])
  }

  /** What `parse_taste_input` returns for a request: its comma-separated parts applied to a zero profile. */
  function ParseRequest(input: string, parseFloat: string -> Option<real>, lower: string -> string): Result<TasteVector, ParseError>
  {
    Apply(Zero, ParseAll(SplitOn(input, ','), parseFloat, lower))
  }

  /**
   * The body of the parsing loop for one part: a bad part is reported and
   * leaves the profile alone, a good one writes its value into the slot of
   * its word, if the word names one.
   */
  method AssignPart(profile: array<real>, part: string, parseFloat: string -> Option<real>, lower: string -> string)
    returns (error: Option<ParseError>)
    requires profile.Length == 5
    modifies profile
    ensures ParsePart(part, parseFloat, lower).Err? ==>
      error == Some(ParsePart(part, parseFloat, lower).error) && profile[..] == old(profile[..])
    ensures ParsePart(part, parseFloat, lower).Ok? ==>
      error == None
      && profile[..] == Assign(old(profile[..]), ParsePart(part, parseFloat, lower).value.1, ParsePart(part, parseFloat, lower).value.0)
  {
    var parsed := ParsePart(part, parseFloat, lower);
    if parsed.Err? {
      return Some(parsed.error);
    }
    var (value, taste) := parsed.value;
    var slot := TasteSlot(taste);
    if slot.Some? {
      profile[slot.value] := value;
    }
    error := None;
  }

  /** `parse_taste_input`: a zero profile filled in place, one part at a time. */
  method ParseTasteInput(input: string, parseFloat: string -> Option<real>, lower: string -> string)
    returns (result: Result<TasteVector, ParseError>)
    ensures result == ParseRequest(input, parseFloat, lower)
  {
    var profile := new real[5](c => 0.0);
    var parts := SplitOn(input, ',');
    assert profile[..] == Zero;
    var i := 0;
    while i < |parts|
      invariant 0 <= i <= |parts|
      invariant Apply(profile[..], ParseAll(parts[i..], parseFloat, lower)) == ParseRequest(input, parseFloat, lower)
    {
      assert parts[i..][1..] == parts[i + 1..];
      var error := AssignPart(profile, parts[i], parseFloat, lower);
      if error.Some? {
        return Err(error.value);
      }
      i := i + 1;
    }
    result := Ok(profile[..]);
  }

  /** A request is rejected exactly when one of its parts is. */
  lemma {:induction false} ApplyFailsIff(profile: TasteVector, parsed: seq<Parsed>)
    ensures Apply(profile, parsed).Err? <==> exists j :: 0 <= j < |parsed| && parsed[j].Err?
    decreases |parsed|
  {
    if parsed != [] {
      match parsed[0]
      case Err(_) =>
      case Ok((value, word)) =>
        ApplyFailsIff(Assign(profile, word, value), parsed[1..]);
        assert forall j :: 0 < j < |parsed| ==> parsed[j] == parsed[1..][j - 1];
    }
  }

  /** A slot that no part names keeps its starting value (0.0 for a request). */
  lemma {:induction false} ApplyUntouched(profile: TasteVector, parsed: seq<Parsed>, c: nat)
    requires c < 5
    requires Apply(profile, parsed).Ok?
    requires forall j :: 0 <= j < |parsed| ==> SlotOf(parsed[j]) != Some(c)
    ensures Apply(profile, parsed).value[c] == profile[c]
    decreases |parsed|
  {
    if parsed != [] {
      match parsed[0]
      case Ok((value, word)) =>
        assert SlotOf(parsed[0]) == TasteSlot(word);
        assert forall j :: 0 <= j < |parsed| - 1 ==> parsed[1..][j] == parsed[j + 1];
        ApplyUntouched(Assign(profile, word, value), parsed[1..], c);
    }
  }

  /** A slot named by some part ends up with the value of the last part naming it. */
  lemma {:induction false} ApplyLastWins(profile: TasteVector, parsed: seq<Parsed>, c: nat, j: nat)
    requires c < 5 && j < |parsed|
    requires Apply(profile, parsed).Ok?
    requires SlotOf(parsed[j]) == Some(c)
    requires forall l :: j < l < |parsed| ==> SlotOf(parsed[l]) != Some(c)
    ensures parsed[j].Ok? && Apply(profile, parsed).value[c] == parsed[j].value.0
    decreases |parsed|
  {
    var (value, word) := parsed[0].value;
    var next := Assign(profile, word, value);
    var rest := parsed[1..];
    assert forall l :: 0 <= l < |rest| ==> rest[l] == parsed[l + 1];
    if j == 0 {
      ApplyUntouched(next, rest, c);
    } else {
      ApplyLastWins(next, rest, c, j - 1);
    }
  }

  /** Some comma-separated part of the request is malformed. */
  predicate SomePartFails(parts: seq<string>, parseFloat: string -> Option<real>, lower: string -> string)
  {
    exists j :: 0 <= j < |parts| && ParsePart(parts[j], parseFloat, lower).Err?
  }

  /** A request is rejected exactly when one of its comma-separated parts is. */
  lemma RequestFailsIff(input: string, parseFloat: string -> Option<real>, lower: string -> string)
    ensures ParseRequest(input, parseFloat, lower).Err? <==> SomePartFails(SplitOn(input, ','), parseFloat, lower)
  {
    var parts := SplitOn(input, ',');
    var parsed := ParseAll(parts, parseFloat, lower);
    ApplyFailsIff(Zero, parsed);
    ParseAllAt(parts, parseFloat, lower);
    if ParseRequest(input, parseFloat, lower).Err? {
      var j :| 0 <= j < |parsed| && parsed[j].Err?;
      assert 0 <= j < |parts| && ParsePart(parts[j], parseFloat, lower).Err?;
    }
    if SomePartFails(parts, parseFloat, lower) {
      var j :| 0 <= j < |parts| && ParsePart(parts[j], parseFloat, lower).Err?;
      assert 0 <= j < |parsed| && parsed[j].Err?;
    }
  }

  /** In an accepted request a slot that no part names stays 0.0. */
  lemma RequestUnnamedSlot(input: string, parseFloat: string -> Option<real>, lower: string -> string, c: nat)
    requires c < 5
    requires ParseRequest(input, parseFloat, lower).Ok?
    requires forall j :: 0 <= j < |ParseAll(SplitOn(input, ','), parseFloat, lower)| ==>
      SlotOf(ParseAll(SplitOn(input, ','), parseFloat, lower)[j]) != Some(c)
    ensures ParseRequest(input, parseFloat, lower).value[c] == 0.0
  {
    ApplyUntouched(Zero, ParseAll(SplitOn(input, ','), parseFloat, lower), c);
  }

  /** In an accepted request a slot holds the value of the last part naming it. */
  lemma RequestNamedSlot(input: string, parseFloat: string -> Option<real>, lower: string -> string, c: nat, j: nat)
    requires c < 5
    requires ParseRequest(input, parseFloat, lower).Ok?
    requires j < |ParseAll(SplitOn(input, ','), parseFloat, lower)|
    requires SlotOf(ParseAll(SplitOn(input, ','), parseFloat, lower)[j]) == Some(c)
    requires forall l :: j < l < |ParseAll(SplitOn(input, ','), parseFloat, lower)| ==>
      SlotOf(ParseAll(SplitOn(input, ','), parseFloat, lower)[l]) != Some(c)
    ensures ParseRequest(input, parseFloat, lower).value[c] == ParseAll(SplitOn(input, ','), parseFloat, lower)[j].value.0
  {
    ApplyLastWins(Zero, ParseAll(SplitOn(input, ','), parseFloat, lower), c, j);
  }

  /** The empty request is rejected: its single empty part has no tokens. */
  lemma EmptyRequestFails(parseFloat: string -> Option<real>, lower: string -> string)
    ensures ParseRequest("", parseFloat, lower) == Err(WrongTokenCount(""))
  {
    assert Words(Strip("")) == [];
  }

  /** A bare taste word without a value is rejected. */
  lemma BareWordFails(parseFloat: string -> Option<real>, lower: string -> string)
    ensures ParseRequest("süß", parseFloat, lower) == Err(WrongTokenCount("süß"))
  {
    SplitWithoutSeparator("süß", ',');
    assert Strip("süß") == "süß";
    assert Words("süß") == ["süß"];
  }

  /**
   * The position `np.argmin` returns: a minimum, and the first one, since a
   * later entry replaces the current one only when strictly smaller.
   */
  function FirstArgMin(ds: seq<real>): (k: nat)
    requires |ds| > 0
    ensures k < |ds|
    ensures forall i :: 0 <= i < |ds| ==> ds[k] <= ds[i]
    ensures forall i :: 0 <= i < k ==> ds[i] > ds[k]
  {
    if |ds| == 1 then 0
    else
      var n := |ds| - 1;
      var k := FirstArgMin(ds[..n]);
      assert forall i :: 0 <= i < n ==> ds[..n][i] == ds[i];
      if ds[n] < ds[k] then n else k
  }

  /** The squared distance from every catalog profile to the target. */
  function Distances(profiles: seq<TasteVector>, target: TasteVector): (ds: seq<real>)
    ensures |ds| == |profiles|
    ensures forall i :: 0 <= i < |profiles| ==> ds[i] == SquaredDistance(profiles[i], target)
  {
    seq(|profiles|, i requires 0 <= i < |profiles| => SquaredDistance(profiles[i], target))
  }

  /**
   * `generate_cocktail`: the catalog name at the first position whose
   * profile is nearest to the reconstructed profile.
   */
  function GenerateCocktail(names: seq<string>, profiles: seq<TasteVector>, reconstructed: TasteVector): (name: string)
    requires |names| == |profiles| > 0
    ensures name in names
    ensures exists k :: (0 <= k < |names| && names[k] == name
      && (forall i :: 0 <= i < |profiles| ==>
        SquaredDistance(profiles[k], reconstructed) <= SquaredDistance(profiles[i], reconstructed))
      && (forall i :: 0 <= i < k ==>
        SquaredDistance(profiles[i], reconstructed) > SquaredDistance(profiles[k], reconstructed)))
  {
    names[FirstArgMin(Distances(profiles, reconstructed))]
  }

  /** Three catalog entries: pineapple juice, amaretto and anise liqueur. */
  const SampleNames: seq<string> := ["Ananassaft", "Amaretto", "Anislikör"]
  const SampleProfiles: seq<TasteVector> := [
    [0.7, 0.4, 0.1, 0.9, 0.1],
    [0.8, 0.1, 0.2, 0.6, 0.2],
    [0.6, 0.0, 0.2, 0.4, 0.9]
  ]

  /** A reconstruction equal to an entry's own profile picks that entry. */
  lemma ExactProfilePicksItself()
    ensures GenerateCocktail(SampleNames, SampleProfiles, [0.8, 0.1, 0.2, 0.6, 0.2]) == "Amaretto"
  {
    var ds := Distances(SampleProfiles, [0.8, 0.1, 0.2, 0.6, 0.2]);
    assert ds[1] == 0.0;
    assert ds[0] > 0.0 && ds[2] > 0.0;
  }
}
