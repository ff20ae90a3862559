/** Participle formation (src/backend/conversion/initializers/pp.js): the
    strategies applied before a suffix is pushed, the pre-transform pipelines
    of the two word parsers, and the `pp` case table that picks, per form and
    voice, the templates those parsers are applied to.

    The word parser (`parseWord`) is not part of this model. A template is kept
    as its text with each interpolated radical written `$`, together with the
    list of radicals that fill those places from left to right; a parser call
    is that template and the parser applied to it. Turning calls into words
    is left to a parse function given as a parameter. */
module Participle {
  import opened Wrappers
  import opened Segments
  import opened Syllables

  /** What `pp` reads of the conjugation: `number.plural()`, `gender.fem()` and
      `participle.suffix`, which is missing (`null`) when no number flag is
      set. `plural` and `fem` are what those two calls return: the caller is
      taken to supply them as methods, although the records `pronoun` builds
      hold plain booleans there. */
  datatype Conjugation = Conjugation(plural: bool, fem: bool, suffix: Option<seq<Segment>>)

  // ----- strategies -----

  /** `strategize`: bump the last consonant before a plural or feminine
      suffix, do nothing otherwise. */
  function Strategize(c: Conjugation): (r: Option<Step>)
    ensures r.Some? <==> c.plural || c.fem
    ensures r.Some? ==> r.value == BumpStep
  {
    if c.plural || c.fem then Some(BumpStep) else None
  }

  /** `iyStrategize`: the alternative edits for a participle ending in weak
      `-iy`. There are alternatives exactly when `strategize` would bump, the
      first alternative is that bump, and every list ends with the added
      glide; plural takes precedence over feminine. */
  function IyStrategize(c: Conjugation): (r: seq<Step>)
    ensures |r| > 0 <==> Strategize(c).Some?
    ensures |r| > 0 ==> r[0] == Strategize(c).value && r[|r| - 1] == GlideStep
    ensures |r| == (if c.plural then 3 else if c.fem then 2 else 0)
    ensures c.plural ==> r[1] == DropStep
  {
    if c.plural then [BumpStep, DropStep, GlideStep]
    else if c.fem then [BumpStep, GlideStep]
    else []
  }

  // ----- pipelines -----

  /** `ayFixer`: `fixAy` when there is no suffix and the last radical is weak,
      otherwise a falsy entry. */
  function AyFixer(suffix: seq<Segment>, lastWeak: bool): (r: Option<Step>)
    ensures r.Some? <==> |suffix| == 0 && lastWeak
    ensures r.Some? ==> r.value == FixAyStep
  {
    if |suffix| == 0 && lastWeak then Some(FixAyStep) else None
  }

  /** The pre-transforms of the plain parser `$`: one pipeline of `ayFixer`,
      the strategy and the suffix push. What running it does to a word is
      stated by `PlainPipelineFixesAy`; that the iy parser falls back on it
      for a strong last radical, by `StrongRootIgnoresParser`. */
  function PlainPipelines(c: Conjugation, suffix: seq<Segment>, lastWeak: bool): (r: seq<Pipeline>)
    ensures |r| == 1 && |r[0]| == 3
    ensures r[0][0] == AyFixer(suffix, lastWeak) && r[0][1] == Strategize(c)
    ensures r[0][2] == Some(PushStep(suffix))
  {
    [[AyFixer(suffix, lastWeak), Strategize(c), Some(PushStep(suffix))]]
  }

  /** The pre-transforms of the iy parser `$iy`: the plain parser's own when
      the last radical is not weak; otherwise one pipeline per iy strategy,
      each one `ayFixer`, that strategy and the suffix push, and none at all
      when there is no strategy. */
  function IyPipelines(c: Conjugation, suffix: seq<Segment>, lastWeak: bool): (r: seq<Pipeline>)
    ensures !lastWeak ==> r == PlainPipelines(c, suffix, lastWeak)
    ensures lastWeak ==> |r| == |IyStrategize(c)|
    ensures lastWeak ==> forall i :: 0 <= i < |r| ==>
      r[i] == [AyFixer(suffix, lastWeak), Some(IyStrategize(c)[i]), Some(PushStep(suffix))]
  {
    if !lastWeak then PlainPipelines(c, suffix, lastWeak)
    else
      var strategies := IyStrategize(c);
      seq(|strategies|, i requires 0 <= i < |strategies| =>
        [AyFixer(suffix, lastWeak), Some(strategies[i]), Some(PushStep(suffix))])
  }

  /** With a weak final radical, a plural participle has three iy
      pipelines, in the source's order: bump, drop `-I.y`, add a glide. */
  lemma {:induction false} IyPluralPipelines(c: Conjugation, suffix: seq<Segment>)
    requires c.plural
    ensures var r := IyPipelines(c, suffix, true);
      && |r| == 3
      && r[0][1] == Some(BumpStep) && r[1][1] == Some(DropStep) && r[2][1] == Some(GlideStep)
      && forall i :: 0 <= i < 3 ==> r[i][0] == AyFixer(suffix, true) && r[i][2] == Some(PushStep(suffix))
  {
    var r := IyPipelines(c, suffix, true);
    assert r[0][1] == Some(IyStrategize(c)[0]);
    assert r[1][1] == Some(IyStrategize(c)[1]);
    assert r[2][1] == Some(IyStrategize(c)[2]);
  }

  /** Without a suffix, on a word whose last syllable ends in `-ay` and with
      neither plural nor feminine, the plain pipeline is `fixAy` followed by
      an empty push: the word comes out with `aa` in place of `-ay`. */
  lemma {:induction false} PlainPipelineFixesAy(c: Conjugation, w: seq<Syllable>)
    requires !c.plural && !c.fem
    requires FixAyDefined(w) && EndsInAy(LastOf(w))
    ensures AfterPipeline(w, PlainPipelines(c, [], true)[0]) == Some(AyFixed(w))
  {
    var p := PlainPipelines(c, [], true)[0];
    var v := AyFixed(w);
    assert p == [Some(FixAyStep), None, Some(PushStep([]))];
    assert AfterStep(w, FixAyStep) == Some(v);
    assert PushedSuffix(v, []) == v;
    assert AfterStep(v, PushStep([])) == Some(v);
    assert AfterPipeline(v, p[2..]) == Some(v) by {
      assert p[2..][1..] == [];
    }
    assert AfterPipeline(v, p[1..]) == AfterPipeline(v, p[2..]) by {
      assert p[1..][1..] == p[2..];
    }
  }

  // ----- the case table -----

  datatype Voice = Active | Passive

  /** The radicals a template interpolates: `$F`, `$3`, `$L`, `$Q`. */
  datatype Hole = F | Ain | L | Q

  /** A template: its text with `$` for each interpolated radical, and the
      radicals that fill those places in order. */
  datatype Pattern = Pat(shape: string, holes: seq<Hole>)

  datatype Parser = PlainParser | IyParser

  /** A parser call in a result list: spread into it (`...$\`…\``), or, once,
      placed in it as a single element. */
  datatype Entry =
    | Spread(parser: Parser, pattern: Pattern)
    | Nested(parser: Parser, pattern: Pattern)

  /** What `pp` does: throw, return `null`, or return its parser calls. */
  datatype Outcome = Fatal(message: string) | NoForm | Forms(entries: seq<Entry>)

  function Words(shape: string, holes: seq<Hole>): Entry {
    Spread(PlainParser, Pat(shape, holes))
  }

  function IyWords(shape: string, holes: seq<Hole>): Entry {
    Spread(IyParser, Pat(shape, holes))
  }

  const FAL := [F, Ain, L]
  const FAAL := [F, Ain, Ain, L]
  const FALQ := [F, Ain, L, Q]

  /** The forms the case table lists. */
  const TriliteralForms := ["1/both", "1/fe3il", "1/fa3len", "fa33al", "tfa33al", "stfa33al",
                            "fe3al", "tfe3al", "stfe3al", "2af3al", "nfa3al", "nfi3il",
                            "fta3al", "fti3il", "staf3al", "f3all"]
  const QuadriliteralForms := ["fa3la2", "tfa3la2", "stfa3la2"]

  predicate EndsWith2(form: string) {
    |form| > 0 && form[|form| - 1] == '2'
  }

  /** Every call interpolates the fourth radical exactly when `quad` holds. */
  predicate FourthRadicalIff(entries: seq<Entry>, quad: bool) {
    forall i :: 0 <= i < |entries| ==> (Q in entries[i].pattern.holes <==> quad)
  }

  /** Every call uses the plain parser. */
  predicate AllPlain(entries: seq<Entry>) {
    forall i :: 0 <= i < |entries| ==> entries[i].parser == PlainParser
  }

  /** Every call is spread into the result. */
  predicate AllSpread(entries: seq<Entry>) {
    forall i :: 0 <= i < |entries| ==> entries[i].Spread?
  }

  /** A root as the root schema admits it: three or four consonants. */
  predicate IsRoot(root: seq<Segment>) {
    (|root| == 3 || |root| == 4) && forall i :: 0 <= i < |root| ==> root[i].Consonant?
  }

  /** `$Q || $L` */
  function LastRadical(root: seq<Segment>): Segment
    requires IsRoot(root)
  {
    if |root| == 4 then root[3] else root[2]
  }

  /** The ten first-form and derived-form cases whose template choice depends
      on the radicals (lines 120-174). */
  function FirstForms(form: string, active: bool, root: seq<Segment>): (r: Outcome)
    requires IsRoot(root) && form in ["1/both", "1/fe3il", "1/fa3len"]
    ensures r.Fatal? <==> VoiceForbidden(form, active)
    ensures r.Forms? ==> |r.entries| > 0
    ensures !r.NoForm?
    ensures r.Forms? ==> FourthRadicalIff(r.entries, false) && AllSpread(r.entries)
    ensures r.Forms? && !active ==> form == "1/both"
  {
    var f, ain, l := root[0], root[1], root[2];
    if form == "1/both" then
      if active then Fatal("Active voice is currently unsupported with 1/both")
      else if IsWeak(ain) then
        Forms((if f.value == "n" then
                 if IsWeak(l) then
                   [IyWords("-m.i.$ +t.i -$.I.y", [F, Ain]),
                    IyWords("m.i.$ t.i $.I.y", [F, Ain]),
                    IyWords("m.i.$ $.I.y", [F, Ain])]
                 else [Words("m.i.$ t.aa.$", [F, L])]
               else [])
              + [Words("m.i.n $.aa.$", [F, L]), Words("m.a.$ y.uu.$", [F, L])])
      else if IsWeak(l) then Forms([IyWords("m.i.$ $.I.y", [F, Ain])])
      else Forms([Words("m.a.$ $.uu.$", FAL)])
    else if form == "1/fe3il" then
      if !active then Fatal("Can't use passive voice with 1/fe3il")
      else
        Forms((if IsWeak(f) then
                 if IsWeak(ain) then [IyWords("m.aa y.I.$", [L])] else [IyWords("m.aa $.I.$", [Ain, L])]
               else [])
              + (if ain.value == l.value then [Words("$.aa.$.$", FAL)] else [])
              + (if IsWeak(ain) then [IyWords("$.aa y.I.$", [F, L])] else [IyWords("$.aa $.I.$", FAL)]))
    else if !active then Fatal("Can't use passive voice with 1/fa3len")
    else Forms([Words("$.a/i.$ $.aa.n", FAL)])
  }

  /** The doubled-middle and long-vowel forms (lines 175-262), which depend on
      the voice and, for the `st` forms, on a weak first radical. */
  function MeasureForms(form: string, active: bool, root: seq<Segment>): (r: Outcome)
    requires IsRoot(root)
    ensures r.Forms? && |r.entries| > 0
    ensures FourthRadicalIff(r.entries, false) && AllSpread(r.entries)
    ensures !active ==> AllPlain(r.entries)
  {
    var fWeak := IsWeak(root[0]);
    if form == "fa33al" then
      Forms(if active then [IyWords("m.$.a.$ $.I.$", FAAL), Words("m.$.a.$ $.a.$", FAAL)]
            else [Words("m.$.a.$ $.a.$", FAAL)])
    else if form == "tfa33al" then
      Forms(if active then
              [Words("m.$.a.$ $.a.$", FAAL), Words("m.i.t $.a.$ $.a.$", FAAL),
               IyWords("m.i.t $.a.$ $.I.$", FAAL), IyWords("m.i.t $.i.$ $.I.$", FAAL)]
            else [Words("m.i.t $.a.$ $.a.$", FAAL)])
    else if form == "stfa33al" then
      if fWeak then
        Forms(if active then [IyWords("m.i.s t.a.$ $.I.$", [Ain, Ain, L]), Words("m.i.s t.a.$ $.a.$", [Ain, Ain, L])]
              else [Words("m.i.s t.a.$ $.a.$", [Ain, Ain, L])])
      else
        Forms(if active then
                [IyWords("m.i.s._.t $.a.$ $.I.$", FAAL), IyWords("m.i.s._.t $.i.$ $.I.$", FAAL),
                 Words("m.i.s._.t $.a.$ $.a.$", FAAL)]
              else [Words("m.i.s._.t $.a.$ $.a.$", FAAL)])
    else if form == "fe3al" then
      Forms(if active then [IyWords("m.$.aa $.I.$", FAL), Words("m.$.aa $.a.$", FAL)]
            else [Words("m.$.aa $.a.$", FAL)])
    else if form == "tfe3al" then
      Forms(if active then
              [Words("m.$.aa $.a.$", FAL), IyWords("m.i.t $.aa $.I.$", FAL), Words("m.i.t $.aa $.a.$", FAL)]
            else [Words("m.i.t $.aa $.a.$", FAL)])
    else if form == "stfe3al" then
      if fWeak then
        Forms(if active then [IyWords("m.i.s t.aa $.I.$", [Ain, L]), Words("m.i.s t.aa $.a.$", [Ain, L])]
              else [Words("m.i.s t.aa $.a.$", [Ain, L])])
      else
        Forms(if active then [IyWords("m.i.s._.t $.aa $.I.$", FAL), Words("m.i.s._.t $.aa $.a.$", FAL)]
              else [Words("m.i.s._.t $.aa $.a.$", FAL)])
    else
      Forms(if active then
              [IyWords("m.i.$ $.I.$", FAL), IyWords("m.2.a.$ $.I.$", FAL), Words("m.2.a.$ $.a.$", FAL)]
            else [Words("m.u.$ $.a.$", FAL), Words("m.2.a.$ $.a.$", FAL)])
  }

  /** The `n` and `t` forms (lines 263-348): a weak middle radical, a
      geminate root, or the regular case. The `i` variants never produce the
      `a` pattern in the active voice. */
  function InfixForms(form: string, active: bool, root: seq<Segment>): (r: Outcome)
    requires IsRoot(root)
    ensures r.Forms? && |r.entries| > 0
    ensures FourthRadicalIff(r.entries, false)
    ensures !AllSpread(r.entries) ==> form == "nfa3al" && active
    ensures !active ==> AllPlain(r.entries)
  {
    var ain, l := root[1], root[2];
    var iVariant := form == "nfi3il" || form == "fti3il";
    if form == "nfa3al" || form == "nfi3il" then
      if IsWeak(ain) then Forms([Words("m.i.n $.aa.$", [F, L])])
      else if ain.value == l.value then
        Forms(if active then [Words("m.a.$ $.uu.$", FAL), Words("m.i.n $.a.$.$", FAL)]
              else [Words("m.i.n $.a.$.$", FAL)])
      else
        Forms(if active then
                [Words("m.a.$ $.uu.$", FAL), IyWords("-m.i.n +$.i -$.I.$", FAL), IyWords("m.i.n $.i $.I.$", FAL)]
                + (if iVariant then [] else [Nested(PlainParser, Pat("-m.i.n +$.a -$.a.$", FAL))])
              else [Words("-m.i.n +$.a -$.a.$", FAL), Words("m.i.n $.a $.a.$", FAL)])
    else
      if IsWeak(ain) then Forms([Words("m.i.$ t.aa.$", [F, L])])
      else if ain.value == l.value then Forms([Words("m.i.$ t.a.$.$", FAL)])
      else
        Forms(if active then
                [IyWords("-m.i.$ +t.i -$.I.$", FAL), IyWords("m.i.$ t.i $.I.$", FAL)]
                + (if iVariant then [] else [Words("m.i.$ t.a $.a.$", FAL)])
              else [Words("-m.i.$ +t.a -$.a.$", FAL), Words("m.i.$ t.a $.a.$", FAL)])
  }

  /** `staf3al` and `f3all` (lines 349-375). */
  function LongForms(form: string, active: bool, root: seq<Segment>): (r: Outcome)
    requires IsRoot(root) && form in ["staf3al", "f3all"]
    ensures r.Fatal? <==> VoiceForbidden(form, active)
    ensures r.Forms? ==> |r.entries| > 0
    ensures !r.NoForm?
    ensures r.Forms? ==> FourthRadicalIff(r.entries, false) && AllSpread(r.entries)
    ensures r.Forms? && !active ==> AllPlain(r.entries)
  {
    var ain, l := root[1], root[2];
    if form == "staf3al" then
      if IsWeak(ain) then
        Forms(if active then [Words("m.i.s._.t $.ii.$", [F, L]), Words("m.i.s t.a $.ii.$", [F, L])]
              else [Words("m.i.s._.t $.aa.$", [F, L]), Words("m.i.s t.a $.aa.$", [F, L])])
      else if ain.value == l.value then
        Forms(if active then [Words("m.i.s._.t $.i.$.$", FAL), Words("m.i.s t.a $.i.$.$", FAL)]
              else [Words("m.i.s._.t $.a.$.$", FAL), Words("m.i.s t.a $.a.$.$", FAL)])
      else
        Forms(if active then [IyWords("m.i.s t.a.$ $.I.$", FAL)] else [Words("m.i.s t.a.$ $.a.$", FAL)])
    else if active then Forms([Words("m.i.$ $.a.$.$", [F, Ain, L, L])])
    else Fatal("Can't use passive voice with f3all")
  }

  /** The quadriliteral forms (lines 376-415). */
  function QuadForms(form: string, active: bool, root: seq<Segment>): (r: Outcome)
    requires IsRoot(root)
    ensures r.Forms? && |r.entries| > 0
    ensures FourthRadicalIff(r.entries, true) && AllSpread(r.entries)
    ensures !active ==> AllPlain(r.entries)
  {
    if form == "fa3la2" then
      Forms(if active then [IyWords("m.$.a.$ $.I.$", FALQ), Words("m.$.a.$ $.a.$", FALQ)]
            else [Words("m.$.a.$ $.a.$", FALQ)])
    else if form == "tfa3la2" then
      Forms(if active then
              [Words("m.$.a.$ $.a.$", FALQ), IyWords("m.i.t $.a.$ $.I.$", FALQ), IyWords("m.i.t $.i.$ $.I.$", FALQ)]
            else [Words("m.i.t $.a.$ $.a.$", FALQ)])
    else if IsWeak(root[0]) then
      Forms(if active then
              [IyWords("m.i.s t.a.$ $.I.$", [Ain, L, Q]), IyWords("m.i.s t.i.$ $.I.$", [Ain, L, Q]),
               Words("m.i.s t.a.$ $.a.$", [Ain, L, Q])]
            else [Words("m.i.s t.a.$ $.a.$", [Ain, L, Q])])
    else
      Forms(if active then
              [IyWords("m.i.s._.t $.a.$ $.I.$", FALQ), IyWords("m.i.s._.t $.i.$ $.I.$", FALQ),
               Words("m.i.s._.t $.a.$ $.a.$", FALQ)]
            else [Words("m.i.s._.t $.a.$ $.a.$", FALQ)])
  }

  /** The `switch (form)` of `pp`. */
  function CaseTable(form: string, active: bool, root: seq<Segment>): (r: Outcome)
    requires IsRoot(root)
    ensures r.Fatal? <==> VoiceForbidden(form, active)
    ensures r.NoForm? <==> form !in TriliteralForms + QuadriliteralForms
    ensures r.Forms? ==> |r.entries| > 0
    ensures r.Forms? ==> FourthRadicalIff(r.entries, EndsWith2(form))
    ensures r.Forms? && !AllSpread(r.entries) ==> form == "nfa3al" && active
    ensures r.Forms? && !active && form != "1/both" ==> AllPlain(r.entries)
  {
    if form in ["1/both", "1/fe3il", "1/fa3len"] then FirstForms(form, active, root)
    else if form in ["fa33al", "tfa33al", "stfa33al", "fe3al", "tfe3al", "stfe3al", "2af3al"] then
      MeasureForms(form, active, root)
    else if form in ["nfa3al", "nfi3il", "fta3al", "fti3il"] then InfixForms(form, active, root)
    else if form in ["staf3al", "f3all"] then LongForms(form, active, root)
    else if form in QuadriliteralForms then QuadForms(form, active, root)
    else NoForm
  }

  /** A radical count that disagrees with the form's name. */
  predicate CountMismatch(form: string, root: seq<Segment>) {
    (|root| == 4) != EndsWith2(form)
  }

  /** A voice the form does not allow. */
  predicate VoiceForbidden(form: string, active: bool) {
    || (form == "1/both" && active)
    || (form in ["1/fe3il", "1/fa3len", "f3all"] && !active)
  }

  /** `pp`: the radical count must match the form's name, the suffix must be
      present, and then the case table decides. */
  function Pp(form: string, voice: Voice, root: seq<Segment>, c: Conjugation): (r: Outcome)
    requires IsRoot(root)
    ensures r.Fatal? <==> CountMismatch(form, root) || c.suffix.None? || VoiceForbidden(form, voice == Active)
    ensures r.NoForm? <==>
      !CountMismatch(form, root) && c.suffix.Some? && form !in TriliteralForms + QuadriliteralForms
    ensures r.Forms? ==> |r.entries| > 0
    ensures r.Forms? ==> FourthRadicalIff(r.entries, |root| == 4)
    ensures r.Forms? && !AllSpread(r.entries) ==> form == "nfa3al" && voice == Active
    ensures r.Forms? && voice == Passive && form != "1/both" ==> AllPlain(r.entries)
  {
    if CountMismatch(form, root) then Fatal("Didn't expect fourth radical with this form")
    else if c.suffix.None? then Fatal("TypeError: the conjugation has no participle suffix")
    else CaseTable(form, voice == Active, root)
  }

  // ----- from calls to words -----

  /** A word as the parser returns it. */
  type Word = seq<Syllable>

  /** A parser call made with the pipelines of its parser: `parse` stands for
      `parseWord({preTransform, augmentation})` applied to a filled-in
      template. */
  function ParserCall(parse: (seq<Pipeline>, Pattern) -> seq<Word>, c: Conjugation,
                      suffix: seq<Segment>, lastWeak: bool): (Parser, Pattern) -> seq<Word>
  {
    (p: Parser, pat: Pattern) =>
      parse(if p == PlainParser then PlainPipelines(c, suffix, lastWeak) else IyPipelines(c, suffix, lastWeak), pat)
  }

  /** The result list with every call spread: the words of each call, in
      order. A word is in it exactly when some call returns it. */
  function Realize(entries: seq<Entry>, call: (Parser, Pattern) -> seq<Word>): (r: seq<Word>)
    ensures forall w :: w in r <==>
      exists i :: 0 <= i < |entries| && w in call(entries[i].parser, entries[i].pattern)
    decreases |entries|
  {
    if entries == [] then [] else call(entries[0].parser, entries[0].pattern) + Realize(entries[1..], call)
  }

  /** An element of a result list as written: a word, or the whole list a
      call returned when that call is not spread. */
  datatype Item = One(word: Word) | Many(words: seq<Word>)

  function Ones(ws: seq<Word>): (r: seq<Item>)
    ensures |r| == |ws| && forall i :: 0 <= i < |ws| ==> r[i] == One(ws[i])
  {
    seq(|ws|, i requires 0 <= i < |ws| => One(ws[i]))
  }

  /** The result list as the source builds it: a spread call contributes its
      words, a call that is not spread a single element holding its list. */
  function RealizeAsWritten(entries: seq<Entry>, call: (Parser, Pattern) -> seq<Word>): (r: seq<Item>)
    ensures forall it :: it in r && it.One? ==>
      exists i :: 0 <= i < |entries| && entries[i].Spread? && it.word in call(entries[i].parser, entries[i].pattern)
    ensures forall it :: it in r && it.Many? ==>
      exists i :: 0 <= i < |entries| && entries[i].Nested? && it.words == call(entries[i].parser, entries[i].pattern)
    decreases |entries|
  {
    if entries == [] then []
    else
      var ws := call(entries[0].parser, entries[0].pattern);
      (if entries[0].Spread? then Ones(ws) else [Many(ws)]) + RealizeAsWritten(entries[1..], call)
  }

  /** Realizing a concatenation realizes each part in turn. */
  lemma {:induction false} RealizeAppend(a: seq<Entry>, b: seq<Entry>, call: (Parser, Pattern) -> seq<Word>)
    ensures Realize(a + b, call) == Realize(a, call) + Realize(b, call)
    decreases |a|
  {
    if a == [] {
      assert a + b == b;
    } else {
      assert (a + b)[1..] == a[1..] + b;
      RealizeAppend(a[1..], b, call);
    }
  }

  /** When every call is spread, the list as written is the flat list of
      words. */
  lemma {:induction false} SpreadIsFlat(entries: seq<Entry>, call: (Parser, Pattern) -> seq<Word>)
    requires AllSpread(entries)
    ensures RealizeAsWritten(entries, call) == Ones(Realize(entries, call))
    decreases |entries|
  {
    if entries != [] {
      var ws := call(entries[0].parser, entries[0].pattern);
      SpreadIsFlat(entries[1..], call);
      assert Ones(ws + Realize(entries[1..], call)) == Ones(ws) + Ones(Realize(entries[1..], call));
    }
  }

  /** A call that is not spread, placed last, leaves the list as written
      ending in a list rather than a word. */
  lemma {:induction false} NestedLastIsList(entries: seq<Entry>, call: (Parser, Pattern) -> seq<Word>)
    requires |entries| > 0 && LastOf(entries).Nested?
    ensures |RealizeAsWritten(entries, call)| > 0
    ensures LastOf(RealizeAsWritten(entries, call)) == Many(call(LastOf(entries).parser, LastOf(entries).pattern))
    decreases |entries|
  {
    if |entries| > 1 {
      assert LastOf(entries[1..]) == LastOf(entries);
      NestedLastIsList(entries[1..], call);
    }
  }

  /** The same calls, every one made with the plain parser. */
  function AsPlain(entries: seq<Entry>): (r: seq<Entry>)
    ensures |r| == |entries| && AllPlain(r)
    ensures forall i :: 0 <= i < |r| ==> r[i].pattern == entries[i].pattern && r[i].Spread? == entries[i].Spread?
  {
    seq(|entries|, i requires 0 <= i < |entries| =>
      if entries[i].Spread? then Spread(PlainParser, entries[i].pattern) else Nested(PlainParser, entries[i].pattern))
  }

  /** With a final radical that is not weak, the iy parser is the plain one:
      every call yields the same words whichever parser the table names. */
  lemma {:induction false} StrongRootIgnoresParser(entries: seq<Entry>, parse: (seq<Pipeline>, Pattern) -> seq<Word>,
                                                   c: Conjugation, suffix: seq<Segment>)
    ensures Realize(entries, ParserCall(parse, c, suffix, false))
         == Realize(AsPlain(entries), ParserCall(parse, c, suffix, false))
    decreases |entries|
  {
    if entries != [] {
      var call := ParserCall(parse, c, suffix, false);
      assert IyPipelines(c, suffix, false) == PlainPipelines(c, suffix, false);
      assert call(entries[0].parser, entries[0].pattern) == call(PlainParser, entries[0].pattern);
      assert AsPlain(entries)[1..] == AsPlain(entries[1..]);
      StrongRootIgnoresParser(entries[1..], parse, c, suffix);
    }
  }

  /** The active `nfa3al` participle of a sound, non-geminate root: the last
      of its four calls is not spread, so the list `pp` returns ends with a
      list of words instead of a word. */
  lemma {:induction false} Nfa3alNestedAsWritten(root: seq<Segment>, c: Conjugation, call: (Parser, Pattern) -> seq<Word>)
    requires IsRoot(root) && |root| == 3 && c.suffix.Some?
    requires !IsWeak(root[1]) && root[1].value != root[2].value
    ensures Pp("nfa3al", Active, root, c).Forms?
    ensures var r := RealizeAsWritten(Pp("nfa3al", Active, root, c).entries, call);
      |r| > 0 && LastOf(r) == Many(call(PlainParser, Pat("-m.i.n +$.a -$.a.$", FAL)))
  {
    var e := Pp("nfa3al", Active, root, c).entries;
    assert LastOf(e) == Nested(PlainParser, Pat("-m.i.n +$.a -$.a.$", FAL));
    NestedLastIsList(e, call);
  }

  /** The same participle with that call spread like its neighbours: the
      words of `-m.i.n +$F.a -$3.a.$L` come last, after those of the three
      other calls. */
  lemma {:induction false} Nfa3alSpreadIntended(root: seq<Segment>, c: Conjugation, call: (Parser, Pattern) -> seq<Word>)
    requires IsRoot(root) && |root| == 3 && c.suffix.Some?
    requires !IsWeak(root[1]) && root[1].value != root[2].value
    ensures Pp("nfa3al", Active, root, c).Forms?
    ensures var e := Pp("nfa3al", Active, root, c).entries;
      && |e| == 4
      && Realize(e, call) == Realize(e[..3], call) + call(PlainParser, Pat("-m.i.n +$.a -$.a.$", FAL))
  {
    var e := Pp("nfa3al", Active, root, c).entries;
    assert e == e[..3] + [e[3]];
    RealizeAppend(e[..3], [e[3]], call);
    assert Realize([e[3]], call) == call(PlainParser, Pat("-m.i.n +$.a -$.a.$", FAL)) + Realize([], call);
  }

  /** The active `fa33al` participle makes two calls, the iy template first;
      with a final radical that is not weak both calls run the same single
      pipeline, so the result is the words of both templates, in that order. */
  lemma {:induction false} Fa33alActiveTwoCalls(root: seq<Segment>, c: Conjugation, parse: (seq<Pipeline>, Pattern) -> seq<Word>)
    requires IsRoot(root) && |root| == 3 && c.suffix.Some? && !IsWeak(root[2])
    ensures Pp("fa33al", Active, root, c) ==
      Forms([IyWords("m.$.a.$ $.I.$", FAAL), Words("m.$.a.$ $.a.$", FAAL)])
    ensures var call := ParserCall(parse, c, c.suffix.value, IsWeak(LastRadical(root)));
      var p := PlainPipelines(c, c.suffix.value, false);
      Realize(Pp("fa33al", Active, root, c).entries, call)
        == parse(p, Pat("m.$.a.$ $.I.$", FAAL)) + parse(p, Pat("m.$.a.$ $.a.$", FAAL))
  {
    var e := Pp("fa33al", Active, root, c).entries;
    var call := ParserCall(parse, c, c.suffix.value, false);
    var p := PlainPipelines(c, c.suffix.value, false);
    assert IyPipelines(c, c.suffix.value, false) == p;
    assert e[1..][1..] == [];
    assert Realize(e[1..], call) == parse(p, Pat("m.$.a.$ $.a.$", FAAL)) + Realize([], call);
    assert Realize(e, call) == parse(p, Pat("m.$.a.$ $.I.$", FAAL)) + Realize(e[1..], call);
  }
}
