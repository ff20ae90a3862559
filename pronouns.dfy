/** Pronoun feature lookup (src/backend/conversion/initializers/pronoun.js): the
    participle suffix, the past-tense suffix and the nonpast circumfix of each
    person/gender/number combination.

    A result the source obtains by parsing a short string is kept as that
    string's dot-separated tokens: `Schwa.t` is `["Schwa", "t"]`, the empty
    string is `[]`. The person, gender and number symbols are taken to be the
    characters `1 2 3`, `m f c` and `s d p` of the pronoun strings. */
module Pronouns {
  import opened Wrappers

  /** Tokens of a parsed string. */
  type Parsed = seq<string>

  const First := '1'
  const Second := '2'
  const Third := '3'
  const Masc := 'm'
  const Fem := 'f'
  const Common := 'c'
  const Singular := 's'
  const Dual := 'd'
  const Plural := 'p'

  /** A flag record: the character it was built from and the names of its flags
      that are true. A name that is absent reads as false, as an unset property
      does. */
  datatype Flags = Flags(value: char, on: set<string>)

  predicate Has(f: Flags, name: string) {
    name in f.on
  }

  /** The lax vowel `I` appended to every subjunctive consonant-initial prefix. */
  const LaxI: Parsed := ["I"]

  datatype Subjunctive = Subjunctive(cc: Parsed, cv: Parsed)
  datatype Prefix = Prefix(indicative: Parsed, subjunctive: Subjunctive)
  datatype Circumfix = Circumfix(prefix: Prefix, suffix: Parsed)

  /** `suffixPrefix`: the subjunctive consonant-initial prefix is `cc` followed by
      `I`; the vowel-initial one is `cv`, or `cc` itself when `cv` is not given;
      the indicative prefix defaults to `b`. */
  function SuffixPrefix(suffix: Parsed, cc: Parsed, cv: Option<Parsed>, indicative: Parsed := ["b"]): (r: Circumfix)
    ensures r.suffix == suffix && r.prefix.indicative == indicative
    ensures |r.prefix.subjunctive.cc| == |cc| + 1
    ensures r.prefix.subjunctive.cc[..|cc|] == cc && r.prefix.subjunctive.cc[|cc|..] == LaxI
    ensures cv.None? ==> r.prefix.subjunctive.cv == cc
    ensures cv.Some? ==> r.prefix.subjunctive.cv == cv.value
  {
    Circumfix(Prefix(indicative, Subjunctive(cc + LaxI, cv.GetOr(cc))), suffix)
  }

  /** `ppSuffix`: the participle suffix. Person is ignored; without a number
      flag there is no suffix. */
  function PpSuffix(person: Flags, gender: Flags, number: Flags): (r: Option<Parsed>)
    ensures r.None? <==> !(Has(number, "singular") || Has(number, "dual") || Has(number, "plural"))
    ensures Has(gender, "fem") && Has(number, "singular") ==> r == Some(["Fem"])
    ensures !Has(gender, "fem") && Has(number, "singular") ==> r == Some([])
  {
    if Has(gender, "fem") then
      if Has(number, "singular") then Some(["Fem"])
      else if Has(number, "dual") then Some(["Fem", "Dual"])
      else if Has(number, "plural") then Some(["FemPlural"])
      else None
    else
      if Has(number, "singular") then Some([])
      else if Has(number, "dual") then Some(["="])
      else if Has(number, "plural") then Some(["+"])
      else None
  }

  /** `verbSuffix`: the past-tense suffix; none without a person flag. */
  function VerbSuffix(person: Flags, gender: Flags, number: Flags): (r: Option<Parsed>)
    ensures r.None? <==> !(Has(person, "first") || Has(person, "second") || Has(person, "third"))
    ensures Has(person, "first") ==> r == if Has(number, "singular") then Some(["Schwa", "t"]) else Some(["n", "aa"])
  {
    if Has(person, "first") then
      if Has(number, "singular") then Some(["Schwa", "t"]) else Some(["n", "aa"])
    else if Has(person, "second") then
      if Has(number, "singular") then
        if Has(gender, "fem") then Some(["t", "ii"]) else Some(["Schwa", "t"])
      else Some(["t", "uu"])
    else if Has(person, "third") then
      if Has(number, "singular") then
        if Has(gender, "fem") then Some(["Fem"]) else Some([])
      else Some(["uu"])
    else None
  }

  /** The nonpast circumfix, with the gender flag it reads given as a parameter:
      the source reads `feminine`, which no flag record built by `pronoun` has. */
  function CircumfixReading(feminine: string, person: Flags, gender: Flags, number: Flags): Option<Circumfix> {
    if Has(person, "first") then
      if Has(number, "singular") then Some(SuffixPrefix([], ["2"], Some([])))
      else Some(SuffixPrefix([], ["n"], None))
    else if Has(person, "second") then
      if Has(number, "singular") then
        if Has(gender, feminine) then Some(SuffixPrefix(["ii"], ["t"], None))
        else Some(SuffixPrefix([], ["t"], None))
      else Some(SuffixPrefix(["uu"], ["t"], None))
    else if Has(person, "third") then
      if Has(number, "singular") then
        if Has(gender, feminine) then Some(SuffixPrefix([], ["t"], None))
        else Some(SuffixPrefix([], ["y"], None))
      else Some(SuffixPrefix(["uu"], ["y"], None))
    else None
  }

  /** `verbCircumfix` as written: it tests the gender flag `feminine`. */
  function VerbCircumfix(person: Flags, gender: Flags, number: Flags): (r: Option<Circumfix>)
    ensures r.None? <==> !(Has(person, "first") || Has(person, "second") || Has(person, "third"))
    ensures Has(person, "first") && Has(number, "singular") ==>
      r == Some(Circumfix(Prefix(["b"], Subjunctive(["2", "I"], [])), []))
    ensures Has(person, "first") && !Has(number, "singular") ==>
      r == Some(Circumfix(Prefix(["b"], Subjunctive(["n", "I"], ["n"])), []))
  {
    assert ["2"] + LaxI == ["2", "I"] && ["n"] + LaxI == ["n", "I"];
    CircumfixReading("feminine", person, gender, number)
  }

  /** The circumfix the comments of `verbCircumfix` describe (2fs, 3fs): the
      gender test reads `fem`, the flag `pronoun` sets. */
  function VerbCircumfixIntended(person: Flags, gender: Flags, number: Flags): (r: Option<Circumfix>)
    ensures r.None? <==> !(Has(person, "first") || Has(person, "second") || Has(person, "third"))
    ensures !Has(gender, "feminine") && !Has(gender, "fem") ==>
      r == VerbCircumfix(person, gender, number)
  {
    CircumfixReading("fem", person, gender, number)
  }

  /** The flags of one dimension: each name is true when the character equals
      its symbol. */
  function FlagsOf(ch: char, names: seq<string>, symbols: seq<char>): (f: Flags)
    requires |names| == |symbols|
    ensures f.value == ch
    ensures forall n :: n in f.on <==> exists i :: 0 <= i < |names| && names[i] == n && symbols[i] == ch
  {
    Flags(ch, set i | 0 <= i < |names| && symbols[i] == ch :: names[i])
  }

  function PersonFlags(ch: char): Flags {
    FlagsOf(ch, ["first", "second", "third"], [First, Second, Third])
  }

  function GenderFlags(ch: char): Flags {
    FlagsOf(ch, ["masc", "fem", "common"], [Masc, Fem, Common])
  }

  function NumberFlags(ch: char): Flags {
    FlagsOf(ch, ["singular", "dual", "plural"], [Singular, Dual, Plural])
  }

  datatype PronounInfo = PronounInfo(
    person: Flags,
    gender: Flags,
    number: Flags,
    participleSuffix: Option<Parsed>,
    past: Option<Parsed>,
    nonpast: Option<Circumfix>)

  /** `pronoun`: the flag records of a three-character pronoun string and the
      three lookups applied to them. Each record keeps its character and sets
      at most one flag, exactly one when the character is a known symbol; the
      `feminine` flag is never set; the nonpast circumfix is missing exactly
      when the person is not a known symbol. */
  function PronounOf(code: string): (info: PronounInfo)
    requires |code| == 3
    ensures info.person.value == code[0] && info.gender.value == code[1] && info.number.value == code[2]
    ensures |info.person.on| <= 1 && |info.gender.on| <= 1 && |info.number.on| <= 1
    ensures code[0] in [First, Second, Third] ==> |info.person.on| == 1
    ensures code[1] in [Masc, Fem, Common] ==> |info.gender.on| == 1
    ensures code[2] in [Singular, Dual, Plural] ==> |info.number.on| == 1
    ensures !Has(info.gender, "feminine")
    ensures info.nonpast.None? <==> code[0] !in [First, Second, Third]
  {
    var p := PersonFlags(code[0]);
    var g := GenderFlags(code[1]);
    var n := NumberFlags(code[2]);
    OneFlag(code[0], ["first", "second", "third"], [First, Second, Third]);
    OneFlag(code[1], ["masc", "fem", "common"], [Masc, Fem, Common]);
    OneFlag(code[2], ["singular", "dual", "plural"], [Singular, Dual, Plural]);
    FlagsAt(code[0], ["first", "second", "third"], [First, Second, Third]);
    PronounInfo(p, g, n, PpSuffix(p, g, n), VerbSuffix(p, g, n), VerbCircumfix(p, g, n))
  }

  /** With distinct symbols, a character sets at most one flag, and exactly one
      when it is among the symbols. */
  lemma {:induction false} OneFlag(ch: char, names: seq<string>, symbols: seq<char>)
    requires |names| == |symbols| == 3
    requires symbols[0] != symbols[1] && symbols[1] != symbols[2] && symbols[0] != symbols[2]
    ensures |FlagsOf(ch, names, symbols).on| <= 1
    ensures ch in symbols ==> |FlagsOf(ch, names, symbols).on| == 1
    ensures "feminine" !in names ==> "feminine" !in FlagsOf(ch, names, symbols).on
  {
    var on := FlagsOf(ch, names, symbols).on;
    if ch == symbols[0] {
      assert on == {names[0]};
    } else if ch == symbols[1] {
      assert on == {names[1]};
    } else if ch == symbols[2] {
      assert on == {names[2]};
    } else {
      assert on == {};
    }
  }

  /** The participle suffix ignores person and is never missing for a pronoun
      string of known symbols: feminine singular/dual/plural gives `Fem`,
      `Fem.Dual`, `FemPlural`; any other gender gives nothing, `=`, `+`. */
  lemma {:induction false} ParticipleSuffixTable(code: string)
    requires |code| == 3 && code[1] in [Masc, Fem, Common] && code[2] in [Singular, Dual, Plural]
    ensures var s := PronounOf(code).participleSuffix;
      && s.Some?
      && s.value == (if code[1] == Fem then
                       (if code[2] == Singular then ["Fem"] else if code[2] == Dual then ["Fem", "Dual"] else ["FemPlural"])
                     else
                       (if code[2] == Singular then [] else if code[2] == Dual then ["="] else ["+"]))
  {
    FlagsAt(code[1], ["masc", "fem", "common"], [Masc, Fem, Common]);
    FlagsAt(code[2], ["singular", "dual", "plural"], [Singular, Dual, Plural]);
  }

  /** The past suffix of every pronoun string of known symbols. */
  lemma {:induction false} PastSuffixTable(code: string)
    requires |code| == 3 && code[0] in [First, Second, Third] && code[2] in [Singular, Dual, Plural]
    ensures var s := PronounOf(code).past;
      && s.Some?
      && s.value == (if code[0] == First then
                       (if code[2] == Singular then ["Schwa", "t"] else ["n", "aa"])
                     else if code[0] == Second then
                       (if code[2] != Singular then ["t", "uu"] else if code[1] == Fem then ["t", "ii"] else ["Schwa", "t"])
                     else
                       (if code[2] != Singular then ["uu"] else if code[1] == Fem then ["Fem"] else []))
  {
    FlagsAt(code[0], ["first", "second", "third"], [First, Second, Third]);
    FlagsAt(code[1], ["masc", "fem", "common"], [Masc, Fem, Common]);
    FlagsAt(code[2], ["singular", "dual", "plural"], [Singular, Dual, Plural]);
  }

  /** Which flag a character sets, one symbol at a time. */
  lemma {:induction false} FlagsAt(ch: char, names: seq<string>, symbols: seq<char>)
    requires |names| == |symbols| == 3
    requires symbols[0] != symbols[1] && symbols[1] != symbols[2] && symbols[0] != symbols[2]
    ensures forall i :: 0 <= i < 3 && ch == symbols[i] ==> FlagsOf(ch, names, symbols).on == {names[i]}
    ensures ch !in symbols ==> FlagsOf(ch, names, symbols).on == {}
  {
    OneFlag(ch, names, symbols);
    var on := FlagsOf(ch, names, symbols).on;
    forall i | 0 <= i < 3 && ch == symbols[i]
      ensures on == {names[i]}
    {
      assert names[i] in on;
    }
  }

  /** As written, a feminine singular second or third person gets the masculine
      circumfix: 2fs has no `ii` suffix and 3fs takes the `y` prefix. */
  lemma {:induction false} FeminineCircumfixAsWritten()
    ensures PronounOf("2fs").nonpast == PronounOf("2ms").nonpast
    ensures PronounOf("3fs").nonpast == Some(SuffixPrefix([], ["y"], None))
  {
    FlagsAt('2', ["first", "second", "third"], [First, Second, Third]);
    FlagsAt('3', ["first", "second", "third"], [First, Second, Third]);
    FlagsAt('f', ["masc", "fem", "common"], [Masc, Fem, Common]);
    FlagsAt('m', ["masc", "fem", "common"], [Masc, Fem, Common]);
    FlagsAt('s', ["singular", "dual", "plural"], [Singular, Dual, Plural]);
  }

  /** With the gender test reading `fem`, 2fs gets the `ii` suffix after `t` and
      3fs the `t` prefix, as the source's comments describe. */
  lemma {:induction false} FeminineCircumfixIntended()
    ensures VerbCircumfixIntended(PersonFlags('2'), GenderFlags('f'), NumberFlags('s'))
      == Some(SuffixPrefix(["ii"], ["t"], None))
    ensures VerbCircumfixIntended(PersonFlags('3'), GenderFlags('f'), NumberFlags('s'))
      == Some(SuffixPrefix([], ["t"], None))
  {
    FlagsAt('2', ["first", "second", "third"], [First, Second, Third]);
    FlagsAt('3', ["first", "second", "third"], [First, Second, Third]);
    FlagsAt('f', ["masc", "fem", "common"], [Masc, Fem, Common]);
    FlagsAt('s', ["singular", "dual", "plural"], [Singular, Dual, Plural]);
  }

  /** The nonpast circumfix of every pronoun string of known symbols, as
      written: the indicative prefix is always `b`; the subjunctive prefix is
      the person consonant (`2` or `n` in the first person, `t` in the second,
      `y` in the third, whatever the gender) followed by `I`; the suffix is
      `uu` for second and third person non-singulars and empty otherwise. */
  lemma {:induction false} NonpastCircumfixTable(code: string)
    requires |code| == 3 && code[0] in [First, Second, Third]
    requires code[1] in [Masc, Fem, Common] && code[2] in [Singular, Dual, Plural]
    ensures var n := PronounOf(code).nonpast;
      && n.Some?
      && n.value.prefix.indicative == ["b"]
      && n.value.prefix.subjunctive.cc ==
           [if code[0] == First then (if code[2] == Singular then "2" else "n")
            else if code[0] == Second then "t" else "y"] + LaxI
      && n.value.suffix == (if code[0] != First && code[2] != Singular then ["uu"] else [])
  {
    FlagsAt(code[0], ["first", "second", "third"], [First, Second, Third]);
    FlagsAt(code[1], ["masc", "fem", "common"], [Masc, Fem, Common]);
    FlagsAt(code[2], ["singular", "dual", "plural"], [Singular, Dual, Plural]);
  }
}
