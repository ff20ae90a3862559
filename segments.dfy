/** The segment records of the underlying alphabet and the factories that fill in
    their defaults (src/backend/conversion/alphabets/underlying.ts). Every factory
    takes a key-to-partial-record table and returns a key-to-segment table. */
module Segments {
  import opened Wrappers

  /** Consonant features. Articulator, location and manner are enumeration names
      and are copied unchanged from the table. */
  datatype ConsonantFeatures = ConsonantFeatures(
    articulator: string,
    location: string,
    manner: string,
    emphatic: bool,
    semivocalic: bool,
    voiced: bool,
    isNull: bool)

  datatype VowelFeatures = VowelFeatures(
    length: int,
    diphthongal: bool,
    nasalized: bool,
    rounded: bool)

  /** Person, gender and number: the three characters of a pronoun string. */
  datatype PronounFeatures = PronounFeatures(person: char, gender: char, number: char)

  /** A segment. The constructor is the record's `type` tag; `weak` is the
      consonant's `meta.weak`, `lengthOffset` and `stressed` the vowel's `meta`. */
  datatype Segment =
    | Consonant(value: string, symbol: string, weak: bool, consonantFeatures: ConsonantFeatures)
    | Vowel(value: string, symbol: string, lengthOffset: int, stressed: bool, vowelFeatures: VowelFeatures)
    | Suffix(value: string, symbol: string)
    | Modifier(value: string, symbol: string)
    | Delimiter(value: string, symbol: string)
    | Pronoun(value: string, pronounFeatures: PronounFeatures)

  /** A partial consonant entry: what a table row may leave out is optional. */
  datatype ConsonantEntry = ConsonantEntry(
    value: Option<string>,
    symbol: Option<string>,
    articulator: string,
    location: string,
    manner: string,
    emphatic: Option<bool>,
    semivocalic: Option<bool>,
    voiced: Option<bool>,
    isNull: Option<bool>)

  datatype VowelEntry = VowelEntry(
    value: Option<string>,
    symbol: Option<string>,
    length: Option<int>,
    diphthongal: Option<bool>,
    nasalized: Option<bool>,
    rounded: Option<bool>)

  /** A partial suffix, modifier or delimiter entry. */
  datatype PlainEntry = PlainEntry(value: Option<string>, symbol: Option<string>)

  predicate IsUpper(ch: char) {
    'A' <= ch <= 'Z'
  }

  function LowerChar(ch: char): char {
    if IsUpper(ch) then (ch as int + 32) as char else ch
  }

  /** `String.prototype.toLowerCase`, on the ASCII letters. */
  function ToLower(s: string): (r: string)
    ensures |r| == |s|
    ensures forall i :: 0 <= i < |r| ==> !IsUpper(r[i])
    ensures forall i :: 0 <= i < |s| && !IsUpper(s[i]) ==> r[i] == s[i]
    ensures forall i :: 0 <= i < |s| && IsUpper(s[i]) ==> r[i] as int == s[i] as int + 32
  {
    seq(|s|, i requires 0 <= i < |s| => LowerChar(s[i]))
  }

  /** Lower-casing a string that has no upper-case letter leaves it as it is. */
  lemma ToLowerFixes(s: string)
    requires forall i :: 0 <= i < |s| ==> !IsUpper(s[i])
    ensures ToLower(s) == s
  {
  }

  lemma {:induction false} ToLowerIdempotent(s: string)
    ensures ToLower(ToLower(s)) == ToLower(s)
  {
    ToLowerFixes(ToLower(s));
  }

  // ----- one record per table row -----

  function ConsonantOf(key: string, e: ConsonantEntry): Segment {
    Consonant(
      e.value.GetOr(key),
      e.symbol.GetOr(key),
      false,
      ConsonantFeatures(
        e.articulator, e.location, e.manner,
        e.emphatic.GetOr(false), e.semivocalic.GetOr(false),
        e.voiced.GetOr(false), e.isNull.GetOr(false)))
  }

  function VowelOf(key: string, e: VowelEntry): Segment {
    Vowel(
      e.value.GetOr(key),
      e.symbol.GetOr(key),
      0,
      false,
      VowelFeatures(
        e.length.GetOr(|key|),
        e.diphthongal.GetOr(false), e.nasalized.GetOr(false), e.rounded.GetOr(false)))
  }

  function SuffixOf(key: string, e: PlainEntry): Segment {
    Suffix(ToLower(e.value.GetOr(key)), e.symbol.GetOr(key))
  }

  function ModifierOf(key: string, e: PlainEntry): Segment {
    Modifier(ToLower(e.value.GetOr(key)), e.symbol.GetOr(key))
  }

  function DelimiterOf(key: string, e: PlainEntry): Segment {
    Delimiter(ToLower(e.value.GetOr(key)), e.symbol.GetOr(key))
  }

  // ----- the factories -----

  /** `consonants`: value and symbol default to the key, `meta.weak` is false,
      the four boolean features default to false, the place and manner features
      are copied. */
  function Consonants(o: map<string, ConsonantEntry>): (r: map<string, Segment>)
    ensures r.Keys == o.Keys
    ensures forall k :: k in r ==> r[k].Consonant? && !r[k].weak
    ensures forall k :: k in r ==>
      && r[k].value == (if o[k].value.Some? then o[k].value.value else k)
      && r[k].symbol == (if o[k].symbol.Some? then o[k].symbol.value else k)
    ensures forall k :: k in r ==>
      var f := r[k].consonantFeatures;
      && f.articulator == o[k].articulator
      && f.location == o[k].location
      && f.manner == o[k].manner
      && (f.emphatic <==> o[k].emphatic == Some(true))
      && (f.semivocalic <==> o[k].semivocalic == Some(true))
      && (f.voiced <==> o[k].voiced == Some(true))
      && (f.isNull <==> o[k].isNull == Some(true))
  {
    map k | k in o :: ConsonantOf(k, o[k])
  }

  /** `vowels`: value and symbol default to the key, `length` to the key's
      length, `lengthOffset` is 0, `stressed` false, the other features false. */
  function Vowels(o: map<string, VowelEntry>): (r: map<string, Segment>)
    ensures r.Keys == o.Keys
    ensures forall k :: k in r ==> r[k].Vowel? && r[k].lengthOffset == 0 && !r[k].stressed
    ensures forall k :: k in r ==>
      && r[k].value == (if o[k].value.Some? then o[k].value.value else k)
      && r[k].symbol == (if o[k].symbol.Some? then o[k].symbol.value else k)
    ensures forall k :: k in r ==>
      var f := r[k].vowelFeatures;
      && f.length == (if o[k].length.Some? then o[k].length.value else |k|)
      && (f.diphthongal <==> o[k].diphthongal == Some(true))
      && (f.nasalized <==> o[k].nasalized == Some(true))
      && (f.rounded <==> o[k].rounded == Some(true))
  {
    map k | k in o :: VowelOf(k, o[k])
  }

  /** `suffixes`: the value is the lower-cased `value ?? key`; the symbol is
      `symbol ?? key` and keeps its case. */
  function Suffixes(o: map<string, PlainEntry>): (r: map<string, Segment>)
    ensures r.Keys == o.Keys
    ensures forall k :: k in r ==> r[k].Suffix?
    ensures forall k :: k in r ==>
      && r[k].value == ToLower(if o[k].value.Some? then o[k].value.value else k)
      && r[k].symbol == (if o[k].symbol.Some? then o[k].symbol.value else k)
  {
    map k | k in o :: SuffixOf(k, o[k])
  }

  /** `modifiers`: as `suffixes`, with the modifier tag. */
  function Modifiers(o: map<string, PlainEntry>): (r: map<string, Segment>)
    ensures r.Keys == o.Keys
    ensures forall k :: k in r ==> r[k].Modifier?
    ensures forall k :: k in r ==>
      && r[k].value == ToLower(if o[k].value.Some? then o[k].value.value else k)
      && r[k].symbol == (if o[k].symbol.Some? then o[k].symbol.value else k)
  {
    map k | k in o :: ModifierOf(k, o[k])
  }

  /** `delimiters`: as `suffixes`, with the delimiter tag. */
  function Delimiters(o: map<string, PlainEntry>): (r: map<string, Segment>)
    ensures r.Keys == o.Keys
    ensures forall k :: k in r ==> r[k].Delimiter?
    ensures forall k :: k in r ==>
      && r[k].value == ToLower(if o[k].value.Some? then o[k].value.value else k)
      && r[k].symbol == (if o[k].symbol.Some? then o[k].symbol.value else k)
  {
    map k | k in o :: DelimiterOf(k, o[k])
  }

  /** `pronouns`: each three-character pronoun string becomes a pronoun record
      whose value is the string itself and whose person, gender and number are
      its characters 0, 1 and 2. No symbol is set. */
  function Pronouns(p: seq<string>): (r: map<string, Segment>)
    requires forall s :: s in p ==> |s| == 3
    ensures r.Keys == set s | s in p
    ensures forall s :: s in r ==> r[s].Pronoun? && r[s].value == s
    ensures forall s :: s in r ==>
      r[s].pronounFeatures == PronounFeatures(s[0], s[1], s[2])
  {
    map s | s in p :: Pronoun(s, PronounFeatures(s[0], s[1], s[2]))
  }

  // ----- round trips: a record written back as a complete entry rebuilds itself -----

  function ConsonantEntryOf(c: Segment): ConsonantEntry
    requires c.Consonant?
  {
    var f := c.consonantFeatures;
    ConsonantEntry(Some(c.value), Some(c.symbol), f.articulator, f.location, f.manner,
      Some(f.emphatic), Some(f.semivocalic), Some(f.voiced), Some(f.isNull))
  }

  function VowelEntryOf(v: Segment): VowelEntry
    requires v.Vowel?
  {
    var f := v.vowelFeatures;
    VowelEntry(Some(v.value), Some(v.symbol), Some(f.length),
      Some(f.diphthongal), Some(f.nasalized), Some(f.rounded))
  }

  /** Explicit fields always win over the defaults: re-running `consonants` on
      the complete entries of its own output rebuilds that output. */
  lemma ConsonantsRoundTrip(o: map<string, ConsonantEntry>)
    ensures var r := Consonants(o);
      Consonants(map k | k in r :: ConsonantEntryOf(r[k])) == r
  {
  }

  lemma VowelsRoundTrip(o: map<string, VowelEntry>)
    ensures var r := Vowels(o);
      Vowels(map k | k in r :: VowelEntryOf(r[k])) == r
  {
  }

  /** For suffixes the round trip needs lower-casing to be idempotent. */
  lemma {:induction false} SuffixesRoundTrip(o: map<string, PlainEntry>)
    ensures var r := Suffixes(o);
      Suffixes(map k | k in r :: PlainEntry(Some(r[k].value), Some(r[k].symbol))) == r
  {
    var r := Suffixes(o);
    var again := Suffixes(map k | k in r :: PlainEntry(Some(r[k].value), Some(r[k].symbol)));
    forall k | k in r
      ensures again[k] == r[k]
    {
      ToLowerIdempotent(if o[k].value.Some? then o[k].value.value else k);
    }
  }

  // ----- a few rows of the alphabet's own table, as sample data -----

  /** `gh`: symbol `9`, value defaulted to the key. */
  const GhEntry := ConsonantEntry(None, Some("9"), "tongue", "uvula", "fricative", None, None, Some(true), None)
  /** `y`: semivocalic and voiced. */
  const YEntry := ConsonantEntry(None, None, "tongue", "palate", "approximant", None, Some(true), Some(true), None)
  /** `aa`: symbol `A`, length defaulted from the key. */
  const AaEntry := VowelEntry(None, Some("A"), None, None, None, None)
  /** Suffix `c`: value `fem`, symbol defaulted to the key. */
  const FemEntry := PlainEntry(Some("fem"), None)
  /** Suffix `Dual`: symbol `=`, value the lower-cased key. */
  const DualEntry := PlainEntry(None, Some("="))

  /** Explicit fields override the defaults: `gh` keeps its key as value but
      shows symbol `9`. */
  lemma SampleConsonant()
    ensures var gh := Consonants(map["gh" := GhEntry])["gh"];
      gh.symbol == "9" && gh.value == "gh" && !gh.weak
  {
  }

  lemma SampleVowel()
    ensures Vowels(map["aa" := AaEntry])["aa"].vowelFeatures.length == 2
  {
  }

  /** Suffix `c` gets value `fem` and keeps symbol `c`. */
  lemma SampleFemSuffix()
    ensures var c := Suffixes(map["c" := FemEntry])["c"];
      c.value == "fem" && c.symbol == "c"
  {
    ToLowerFixes("fem");
  }

  /** Suffix `Dual` gets the lower-cased key as value and keeps symbol `=`. */
  lemma SampleDualSuffix()
    ensures var d := Suffixes(map["Dual" := DualEntry])["Dual"];
      d.value == "dual" && d.symbol == "="
  {
    var v := ToLower("Dual");
    assert v[0] == 'd' && v[1] == 'u' && v[2] == 'a' && v[3] == 'l';
  }
}
