# Levantine Arabic word forms: a verified model of the generator's core

This project models the core of a generator of Levantine Arabic word forms in
Dafny. It covers six pieces:

- **Segments** (`segments.dfy`). The underlying alphabet's segment factories
  take a key-to-partial-record table and return fully defaulted consonant,
  vowel, suffix, modifier, delimiter and pronoun records.
- **Templates** (`templates.dfy`). The category alphabet's `withFlags`, its
  root schema (three or four flagged consonants) and the verb `nonpast`
  constraint. It also covers the root trait table: geminate, triliteral,
  quadriliteral, assimilated, hollow and defective.
- **Pronouns** (`pronouns.dfy`). For each person/gender/number, the lookup
  gives the participle suffix, the past-tense suffix and the nonpast
  circumfix.
- **Syllables** and **Participle** (`syllables.dfy`, `participle.dfy`). These
  model the participle builder:
  - the edits it makes to a word (a list of syllables, each a list of
    segments) before the suffix goes on;
  - the strategy lists and pre-transform pipelines of its two parsers;
  - the `pp` case table, which throws, returns `null`, or picks the templates
    and parsers for a form and voice.

  The edits are methods of the class `Syllables.Base`. Each method is proved
  against a function of the old word.
- **VerbTemplates** (`verb.dfy`). The verb library's long-vowel maps, affixes
  and consonant/vowel skeleton templates.
- **Rules** (`rules.dfy`). The rule-composition helpers:
  - the operation tags;
  - the walks that replace spec and env callbacks by their results;
  - `intoToFunc`;
  - `processPack` with its `is` and `when` records;
  - the env `before`/`after` builders.

  Specs are a JSON-like datatype. A callback inside a spec is kept as
  `Fn(id)`, and what a callback returns is a parameter.

The word parser (`parseWord`) is not part of this model. A template is kept as
its text, with `$` for each interpolated radical, plus the list of radicals
that fill those places. Turning parser calls into words goes through a parse
function that is given as a parameter.

Active `fa33al` makes two parser calls, the iy template first, not one; the
model does the same (`Participle.Fa33alActiveTwoCalls`).

## Model

| member | source | states |
|---|---|---|
| Segments.ToLower | src/backend/conversion/alphabets/underlying.ts:233 | Lower-casing keeps the length, leaves no upper-case letter, keeps every other character, and maps each upper-case letter to its lower-case form |
| Segments.ToLowerFixes | src/backend/conversion/alphabets/underlying.ts:233 | A string with no upper-case letter is unchanged by lower-casing |
| Segments.ToLowerIdempotent | src/backend/conversion/alphabets/underlying.ts:233 | Lower-casing twice is lower-casing once |
| Segments.Consonants | src/backend/conversion/alphabets/underlying.ts:174-199 | Same key set; every record is a consonant with `weak` false; value and symbol default to the key; emphatic, semivocalic, voiced and isNull are true only when given as true; articulator, location and manner are copied |
| Segments.Vowels | src/backend/conversion/alphabets/underlying.ts:201-224 | Same key set; every record is a vowel with lengthOffset 0 and not stressed; value and symbol default to the key; length defaults to the key's length; the three flags are true only when given as true |
| Segments.Suffixes | src/backend/conversion/alphabets/underlying.ts:226-237 | Same key set; suffix records whose value is the lower-cased `value ?? key` and whose symbol is `symbol ?? key`, not lower-cased |
| Segments.Modifiers | src/backend/conversion/alphabets/underlying.ts:239-250 | As for suffixes, with the modifier tag |
| Segments.Delimiters | src/backend/conversion/alphabets/underlying.ts:252-263 | As for suffixes, with the delimiter tag |
| Segments.Pronouns | src/backend/conversion/alphabets/underlying.ts:273-286 | One record per distinct pronoun string; its value is the string, and person, gender and number are its characters 0, 1 and 2 |
| Segments.ConsonantsRoundTrip | src/backend/conversion/alphabets/underlying.ts:179-198 | Explicit fields win over defaults: rebuilding from the complete entries of an output reproduces that output |
| Segments.VowelsRoundTrip | src/backend/conversion/alphabets/underlying.ts:206-223 | The same round trip for vowels |
| Segments.SuffixesRoundTrip | src/backend/conversion/alphabets/underlying.ts:229-236 | The same round trip for suffixes, which relies on lower-casing being idempotent |
| Segments.SampleConsonant | src/backend/conversion/alphabets/underlying.ts:322-328 | Table row `gh` gets symbol `9`, value `gh`, and is not weak |
| Segments.SampleVowel | src/backend/conversion/alphabets/underlying.ts:475 | Table row `aa` gets length 2 from its key |
| Segments.SampleFemSuffix | src/backend/conversion/alphabets/underlying.ts:508 | Suffix `c` gets value `fem` and keeps symbol `c` |
| Segments.SampleDualSuffix | src/backend/conversion/alphabets/underlying.ts:517 | Suffix `Dual` gets value `dual` and keeps symbol `=` |
| Templates.WithFlags | src/languages/levantine/alphabets/templates/templates.ts:6-14 | The keys are the original ones plus the flag names; every flag maps to the boolean type and overrides a same-named field; every other original field is kept |
| Templates.RootSchema | src/languages/levantine/alphabets/templates/templates.ts:16-19 | An array schema of length 3 or 4 whose elements are the consonant's fields plus boolean `weak` and `affected` |
| Templates.NonpastIsNotPast | src/languages/levantine/alphabets/templates/templates.ts:136-143 | Every tam is one the verb lists, and `nonpast` admits exactly those other than `past` |
| Templates.Classify | src/languages/levantine/alphabets/templates/templates.ts:145-182 | A root has a trait exactly when it satisfies that trait's schema |
| Templates.LengthTraitsExclusive | src/languages/levantine/alphabets/templates/templates.ts:164-169 | Every admissible root is exactly one of triliteral and quadriliteral |
| Templates.GeminateTriliteral | src/languages/levantine/alphabets/templates/templates.ts:148-166 | A length-3 root with equal last two radicals is both geminate and triliteral, and never quadriliteral |
| Templates.FirstAndMiddleIgnoreLength | src/languages/levantine/alphabets/templates/templates.ts:170-175 | Assimilated and hollow do not change when a fourth radical is added |
| Templates.DefectiveReadsLastRadical | src/languages/levantine/alphabets/templates/templates.ts:176-181 | A four-radical root whose only weak radical among the last two is the third is not defective, but its first three radicals are |
| Templates.GeminateDefectiveIsHollow | src/languages/levantine/alphabets/templates/templates.ts:148-181 | A geminate, defective triliteral root is also hollow |
| Pronouns.SuffixPrefix | src/backend/conversion/initializers/pronoun.js:7-16 | The suffix and the indicative prefix are kept; the subjunctive `cc` is `cc` followed by `I`; `cv` defaults to `cc` |
| Pronouns.PpSuffix | src/backend/conversion/initializers/pronoun.js:18-31 | No suffix exactly when no number flag is set; feminine singular gives `Fem`; any other singular gives the empty suffix |
| Pronouns.VerbSuffix | src/backend/conversion/initializers/pronoun.js:34-54 | No suffix exactly when no person flag is set; first person gives `Schwa.t` in the singular and `n.aa` otherwise |
| Pronouns.VerbCircumfix | src/backend/conversion/initializers/pronoun.js:57-91 | As written: no circumfix exactly when no person flag is set; the two first-person circumfixes, with `cv` empty in the singular and equal to `cc` otherwise |
| Pronouns.VerbCircumfixIntended | src/backend/conversion/initializers/pronoun.js:57-91 | The corrected circumfix is missing under the same condition, and agrees with the as-written one whenever neither gender flag it could test is set |
| Pronouns.FlagsOf | src/backend/conversion/initializers/pronoun.js:95-112 | A flag is set exactly when the character equals that flag's symbol; the record keeps the character |
| Pronouns.PronounOf | src/backend/conversion/initializers/pronoun.js:94-124 | Each flag record keeps its character and sets at most one flag, exactly one for a known symbol; the `feminine` flag is never set; the nonpast circumfix is missing exactly when the person is not a known symbol |
| Pronouns.OneFlag | src/backend/conversion/initializers/pronoun.js:95-112 | With three distinct symbols, a character sets at most one flag, and exactly one when it is a symbol |
| Pronouns.FlagsAt | src/backend/conversion/initializers/pronoun.js:95-112 | Which single flag each symbol sets, and that an unknown character sets none |
| Pronouns.ParticipleSuffixTable | src/backend/conversion/initializers/pronoun.js:18-31 | The full participle-suffix table for every pronoun string with known gender and number, whatever the person |
| Pronouns.PastSuffixTable | src/backend/conversion/initializers/pronoun.js:34-54 | The full past-suffix table for every pronoun string with known person and number |
| Pronouns.NonpastCircumfixTable | src/backend/conversion/initializers/pronoun.js:57-91 | The as-written nonpast table: indicative `b`; subjunctive prefix `2`/`n`, `t` or `y` by person followed by `I`, whatever the gender; suffix `uu` for second and third person non-singulars |
| Pronouns.FeminineCircumfixAsWritten | src/backend/conversion/initializers/pronoun.js:66-85 | As written, 2fs gets the 2ms circumfix and 3fs gets the `y` prefix |
| Pronouns.FeminineCircumfixIntended | src/backend/conversion/initializers/pronoun.js:66-85 | Corrected, 2fs gets suffix `ii` with prefix `t`, and 3fs gets prefix `t` |
| Syllables.PushedSuffix | src/backend/conversion/initializers/pp.js:14 | Same syllable count; every syllable but the last is unchanged; the last gains the suffix at its end |
| Syllables.PushSuffixCounts | src/backend/conversion/initializers/pp.js:14 | Pushing adds exactly the suffix's segments and no syllable |
| Syllables.Bumped | src/backend/conversion/initializers/pp.js:18-25 | One more syllable. A final consonant moves into a new last syllable of its own, with earlier syllables unchanged; otherwise the word is kept and an empty syllable is appended |
| Syllables.BumpKeepsSegments | src/backend/conversion/initializers/pp.js:18-25 | Bumping adds one syllable and keeps the total segment count |
| Syllables.AyFixed | src/backend/conversion/initializers/pp.js:37-42 | Earlier syllables are unchanged. A last syllable ending in `a` plus a weak segment has those two replaced by `aa`; otherwise nothing changes |
| Syllables.FixAyCounts | src/backend/conversion/initializers/pp.js:37-42 | `fixAy` removes one segment when it fires and none otherwise |
| Syllables.FixAyIdempotent | src/backend/conversion/initializers/pp.js:37-42 | A second `fixAy` changes nothing when the first left at least two segments in the last syllable |
| Syllables.FixAyTwiceOnShortSyllable | src/backend/conversion/initializers/pp.js:37-42 | On a last syllable of exactly `a` and a weak segment, `fixAy` leaves `[aa]`, and a second `fixAy` would read a missing segment |
| Syllables.Dropped | src/backend/conversion/initializers/pp.js:51-56 | The last two segments of the last syllable are removed (all of them if fewer), earlier syllables are kept, and an empty syllable is appended |
| Syllables.DropCounts | src/backend/conversion/initializers/pp.js:51-56 | Dropping removes two segments, or all of a shorter last syllable |
| Syllables.Glided | src/backend/conversion/initializers/pp.js:57-61 | The word is kept and a syllable holding `y` is appended |
| Syllables.AfterStep | src/backend/conversion/initializers/pp.js:44-79 | An edit fails, as the source's TypeError, exactly when it would read a missing element |
| Syllables.Base.PushSuffix | src/backend/conversion/initializers/pp.js:14 | Succeeds exactly on a non-empty word; then the word becomes `PushedSuffix` of the old word, otherwise it is unchanged |
| Syllables.Base.BumpLastConsonant | src/backend/conversion/initializers/pp.js:18-25 | Succeeds exactly when the last syllable is not empty; then the word becomes `Bumped` of the old word, otherwise it is unchanged |
| Syllables.Base.FixAy | src/backend/conversion/initializers/pp.js:37-42 | Succeeds exactly when `fixAy` reads only what is there; then the word becomes `AyFixed` of the old word, otherwise it is unchanged |
| Syllables.Base.DropWeakFinal | src/backend/conversion/initializers/pp.js:51-56 | Succeeds exactly on a non-empty word; then the word becomes `Dropped` of the old word |
| Syllables.Base.PushGlide | src/backend/conversion/initializers/pp.js:57-61 | The word becomes `Glided` of the old word |
| Syllables.Base.Apply | src/backend/conversion/initializers/pp.js:100-116 | Applies one pipeline entry: succeeds exactly when `AfterStep` does, and the word becomes its result |
| Syllables.AfterPipeline | src/backend/conversion/initializers/pp.js:100-116 | A pre-transform list of missing entries only leaves the word unchanged |
| Syllables.AfterPipelineAppend | src/backend/conversion/initializers/pp.js:100-116 | Running two pre-transform lists in turn is running their concatenation; a failure in the first fails the whole |
| Syllables.Base.Run | src/backend/conversion/initializers/pp.js:100-116 | Runs a pre-transform list in order, skipping missing entries: succeeds exactly when `AfterPipeline` does, and the word becomes its result |
| Participle.Strategize | src/backend/conversion/initializers/pp.js:28-33 | A bump exactly when the participle is plural or feminine, nothing otherwise |
| Participle.IyStrategize | src/backend/conversion/initializers/pp.js:45-79 | Non-empty exactly when `strategize` bumps; starts with that bump and ends with the glide; three strategies for plural (the second drops), two for feminine, none otherwise |
| Participle.AyFixer | src/backend/conversion/initializers/pp.js:98 | `fixAy` is armed exactly when the suffix is empty and the last radical is weak |
| Participle.PlainPipelines | src/backend/conversion/initializers/pp.js:100-107 | One pipeline: the ay fixer, the strategy, then the suffix push |
| Participle.IyPipelines | src/backend/conversion/initializers/pp.js:109-116 | The plain pipelines when the last radical is not weak; otherwise one pipeline per iy strategy, each wrapped in the ay fixer and the suffix push |
| Participle.IyPluralPipelines | src/backend/conversion/initializers/pp.js:46-62 | A plural participle with a weak last radical has three iy pipelines: bump, drop, glide |
| Participle.PlainPipelineFixesAy | src/backend/conversion/initializers/pp.js:98-107 | With no suffix and neither plural nor feminine, the plain pipeline turns a final `-ay` into `aa` and does nothing else |
| Participle.FirstForms | src/backend/conversion/initializers/pp.js:120-174 | Form I throws exactly for a forbidden voice; otherwise it gives a non-empty list of spread calls that never read a fourth radical, and passive occurs only for `1/both` |
| Participle.MeasureForms | src/backend/conversion/initializers/pp.js:175-262 | A non-empty list of spread triliteral calls; passive uses the plain parser only |
| Participle.InfixForms | src/backend/conversion/initializers/pp.js:263-348 | A non-empty list of triliteral calls; a call that is not spread occurs only for active `nfa3al`; passive uses the plain parser only |
| Participle.LongForms | src/backend/conversion/initializers/pp.js:349-375 | Throws exactly for passive `f3all`; otherwise a non-empty list of spread triliteral calls |
| Participle.QuadForms | src/backend/conversion/initializers/pp.js:376-415 | A non-empty list of spread calls, each reading the fourth radical; passive uses the plain parser only |
| Participle.CaseTable | src/backend/conversion/initializers/pp.js:120-418 | Throws exactly for a forbidden voice; `null` exactly for an unlisted form; otherwise non-empty calls that read the fourth radical exactly when the form ends in `2` |
| Participle.Pp | src/backend/conversion/initializers/pp.js:81-419 | Throws exactly on a count/form mismatch, a missing suffix or a forbidden voice; `null` exactly for an unlisted form; calls read the fourth radical exactly for a four-radical root; only active `nfa3al` leaves a call unspread; passive forms other than `1/both` use the plain parser |
| Participle.Realize | src/backend/conversion/initializers/pp.js:120-418 | With every call spread, a word is in the result exactly when some call returns it |
| Participle.RealizeAsWritten | src/backend/conversion/initializers/pp.js:120-418 | Each word element comes from a spread call, and each list element is the whole result of a call that is not spread |
| Participle.RealizeAppend | src/backend/conversion/initializers/pp.js:120-418 | Realizing a concatenation of calls realizes each part in turn |
| Participle.SpreadIsFlat | src/backend/conversion/initializers/pp.js:120-418 | When every call is spread, the list as written is the flat list of words |
| Participle.NestedLastIsList | src/backend/conversion/initializers/pp.js:276-282 | An unspread last call leaves the list ending in a list of words |
| Participle.StrongRootIgnoresParser | src/backend/conversion/initializers/pp.js:109 | With a last radical that is not weak, the iy parser produces the same words as the plain one |
| Participle.Nfa3alNestedAsWritten | src/backend/conversion/initializers/pp.js:276-282 | As written, the active `nfa3al` participle of a sound root ends with a nested list |
| Participle.Nfa3alSpreadIntended | src/backend/conversion/initializers/pp.js:276-282 | With that call spread, the result is the words of the first three calls followed by those of the fourth |
| Participle.Fa33alActiveTwoCalls | src/backend/conversion/initializers/pp.js:175-182 | Active `fa33al` makes two calls, the iy template first; with a strong last radical both run the same pipeline, and their words come out in that order |
| VerbTemplates.TenseLongVowel | src/languages/levantine/layers/category/libraries/promote/verb.ts:20-29 | The result is long, and shortening it gives the input back |
| VerbTemplates.LaxLongVowel | src/languages/levantine/layers/category/libraries/promote/verb.ts:7-18 | The result is one of `aa`, `ee`, `oo`: the lengthened lax counterpart of the input |
| VerbTemplates.TenseAndLax | src/languages/levantine/layers/category/libraries/promote/verb.ts:7-29 | Tense lengthening is plain lengthening, and the two maps agree only on `a` |
| VerbTemplates.TenseInjectiveLaxMerges | src/languages/levantine/layers/category/libraries/promote/verb.ts:7-29 | Tense lengthening is injective; lax lengthening merges `i` with `e` and `u` with `o` |
| VerbTemplates.V_ | src/languages/levantine/layers/category/libraries/promote/verb.ts:49-56 | The `v_` affix is consonant then vowel, carries the given vowel and no radical |
| VerbTemplates.AffixShapes | src/languages/levantine/layers/category/libraries/promote/verb.ts:33-48 | `sta_` is `st_` followed by `a`; `n_` is one consonant; no affix holds a radical |
| VerbTemplates.Build | src/languages/levantine/layers/category/libraries/promote/verb.ts:58-218 | Every template starts with the first radical |
| VerbTemplates.RadicalsOfTwo | src/languages/levantine/layers/category/libraries/promote/verb.ts:92-113 | The non-doubling two-radical templates (including `ftv3vl`) read the first two radicals in order |
| VerbTemplates.RadicalsOfThree | src/languages/levantine/layers/category/libraries/promote/verb.ts:67-91 | The three-radical templates read the first three radicals in order |
| VerbTemplates.RadicalsOfDoubling | src/languages/levantine/layers/category/libraries/promote/verb.ts:59-66 | The doubling templates read `f c c`, plus `l` for `fa33vl` |
| VerbTemplates.OutlineOfBuild | src/languages/levantine/layers/category/libraries/promote/verb.ts:58-218 | The consonant/vowel outline of each template |
| VerbTemplates.MiddleDoubled | src/languages/levantine/layers/category/libraries/promote/verb.ts:121-130 | The doubling templates place the middle radical at two adjacent slots |
| VerbTemplates.InfixT | src/languages/levantine/layers/category/libraries/promote/verb.ts:157-191 | Every `ft` template has `t` right after the first radical |
| VerbTemplates.FvvlHollow | src/languages/levantine/layers/category/libraries/promote/verb.ts:114-120 | For theme `a`, `i` or `u`, `fvvl` skips the middle radical and carries the tense long theme vowel |
| VerbTemplates.FtvvlHollow | src/languages/levantine/layers/category/libraries/promote/verb.ts:184-191 | For theme `a` or `i`, `ftvvl` skips the middle radical and carries the tense long theme vowel after the infix `t` |
| VerbTemplates.Ftv3vlIsFtv3v | src/languages/levantine/layers/category/libraries/promote/verb.ts:166-183 | `ftv3vl` builds exactly what `ftv3v` builds, from the first two radicals |
| VerbTemplates.F3allShape | src/languages/levantine/layers/category/libraries/promote/verb.ts:192-198 | For any root of three or more radicals, `f3all` is `f c a l l` whatever theme vowels it is given, its radicals f, c, l, l |
| VerbTemplates.Fa3lv2Radicals | src/languages/levantine/layers/category/libraries/promote/verb.ts:199-208 | For theme `a` or `i` and a root of four or more radicals, `fa3lv2` reads the first four radicals in order |
| Rules.MatchNode | src/lib/rules/funcs.ts:43-47 | A `{match, value}` node carries its tag and operands and has no other key |
| Rules.CallFunc | src/lib/rules/funcs.ts:42-66 | A match node keeps its tag and operand count; a function gives its callback's result; anything else gives `{}` |
| Rules.CallFuncAt | src/lib/rules/funcs.ts:43-47 | Along any path through match nodes, the result holds the walk of the input's node: order and nesting are kept |
| Rules.UnfuncSpec | src/lib/rules/funcs.ts:68-82 | A non-object is returned unchanged; a match node keeps its tag and operand count; any other object or array becomes the merge of its spec and env results, with env winning on shared keys |
| Rules.UnfuncAt | src/lib/rules/funcs.ts:72-77 | Along any path through match nodes, the result holds the walk of the input's node |
| Rules.IntoToFunc | src/lib/rules/funcs.ts:151-161 | The converted target has the target's shape (lists kept, record keys kept), and every leaf pairs its list with the walked spec |
| Rules.Untag | src/lib/rules/funcs.ts:98-112 | A tag read back rebuilds the same tag |
| Rules.Mock | src/lib/rules/funcs.ts:99 | `mock` reads back as the `mock` operation with its argument list, in order |
| Rules.Preject | src/lib/rules/funcs.ts:109 | `preject` reads back as the `preject` operation with its argument list, in order |
| Rules.Postject | src/lib/rules/funcs.ts:110 | `postject` reads back as the `postject` operation with its argument list, in order |
| Rules.Coalesce | src/lib/rules/funcs.ts:111 | `coalesce` reads back as the `coalesce` operation with its argument list, in order |
| Rules.OperationsDistinct | src/lib/rules/funcs.ts:98-112 | Different operations never give the same tag, whatever their arguments |
| Rules.Was | src/lib/rules/funcs.ts:101-106 | One entry per dependency name, each returning its argument list unchanged |
| Rules.Before | src/lib/rules/funcs.ts:144 | `before` (also `generateSpecFuncs`, line 12) keeps its arguments, in order, as the only entry `prev` of `env` |
| Rules.After | src/lib/rules/funcs.ts:145 | `after` (also `generateSpecFuncs`, line 13) keeps its arguments, in order, as the only entry `next` of `env` |
| Rules.BeforeIsNotAfter | src/lib/rules/funcs.ts:12-13 | A `before` constraint never equals an `after` one |
| Rules.AllOf | src/lib/rules/funcs.ts:185 | A match node tagged `all` over the two operands, in order |
| Rules.AllOfWalk | src/lib/rules/funcs.ts:185 | The walk of `all[a, b]` is `all` over the walks of `a` and `b`, in order |
| Rules.When | src/lib/rules/funcs.ts:190-199 | As many pairs as arguments, in order; each `for` is `all[arg.for, constraint]` and each `into` is kept |
| Rules.WhenRoundTrip | src/lib/rules/funcs.ts:193-199 | Taking the first operand of each `for` gives back the arguments |
| Rules.IsOf | src/lib/rules/funcs.ts:181-188 | The `is` record has exactly the rule names as keys |
| Rules.ProcessPack | src/lib/rules/funcs.ts:163-207 | Child keys are kept; a rule set gives `is` with the rule names and `when` with the constraints; a nested pack is processed as a pack of its own, with its own specs and `source` |
| Rules.RuleLeaves | src/lib/rules/funcs.ts:181-188 | Each rule's `is` entry has the shape of its target, and every leaf pairs it with the walk, under the pack's own `source`, of `all[rule.for, pack.specs]`, whose operands are the walks of the rule's `for` and of the pack's specs |
| Rules.NestedPackLeaves | src/lib/rules/funcs.ts:203-205 | A nested pack's rule entries are those it gives on its own, and their leaves carry the walk under the nested pack's own `source` and specs, not the parent's |

## Left out

- The word parser `parseWord`, `parseLetter` and `parseString` live in the utilities, which are not part of this model. Templates and short strings are kept as text or dot-separated tokens, and turning calls into words is a function parameter.
- `lastOf`, `newSyllable` and `backup` are also not part of this model. `lastOf(x, 1)` is taken to be the element before the last. `backup(list).map(f).or([])` is taken to be `list.map(f)`, and an empty list gives no pipelines.
- Reading a field of a missing element throws a TypeError in the source. The syllable edits return `ok == false` with the word unchanged (each edit reads before it writes). The pipeline functions return `None`. `pp` with a missing participle suffix gives a `Fatal` outcome.
- Syllables are values, not shared objects: aliasing between a syllable and other references to it is not modelled.
- `Participle.Pp`: does not model the error message's interpolation of the fourth radical and the form name. The message is a fixed string.
- `Participle.Pp`: reads the voice as a flag (`active` or not). Any string other than `active` counts as passive, as in the source.
- `Participle.Strategize`, `Participle.IyStrategize`: `strategize` and `iyStrategize` call `conjugation.number.plural()` and `conjugation.gender.fem()` as methods (src/backend/conversion/initializers/pp.js:29, 46, 65), while `pronoun()` stores `plural` and `fem` as booleans (src/backend/conversion/initializers/pronoun.js:101-112). The model assumes the caller wraps each flag as a method returning it, and takes the two booleans as given. It does not model the TypeError that handing `pronoun()`'s record to `pp` unchanged would raise.
- `Syllables.FixAyIdempotent`: excludes a last syllable of exactly two segments. On `[a, weak]`, the first `fixAy` leaves `[aa]`, and a second reads a missing segment and throws (src/backend/conversion/initializers/pp.js:39). `Syllables.FixAyTwiceOnShortSyllable` proves that case.
- The person, gender and number symbols are defined in a file that is not part of this model. They are taken to be `1 2 3`, `m f c` and `s d p`.
- `Segments.ToLower`: lower-cases the ASCII letters only. The Unicode case mapping of `toLowerCase` is not modelled.
- The literal letter and segment tables are used only for a few sample rows.
- The alphabet builders (`newAlphabet`, `alphabet`, `cheat`), the library constructors (`lib`, `promote`) and the match-schema evaluator are not part of this model. Schemas are kept as data, and the traits are stated as the predicates their schemas express.
- `Templates.Geminate`: compares radical fields by value. The source's `===` on shared segment records is identity, but those records are immutable.
- The verb templates build slot lists. The letter table they index, and the library constructor `x` that turns slots into segments, are not part of this model.
- In funcs.ts, the type helpers (`typesFuncs`, the `types` part of `generateSpecFuncs`) call `qualifiedPathsOf` and user feature callbacks, which are not part of this model. What a spec or env callback returns when given these helpers is a parameter.
- The unused `odds` parameter of `intoToFunc` is not modelled; the produced function is represented by its result.
- `Rules.UnfuncSpec`: spreading an array result contributes no keys in the model, although JavaScript would add its index keys. Callbacks are expected to return records.
- `Rules.ProcessPack`: a constraint is represented by the value its call returns, so constraints are taken to be pure.
- The type-level TypeScript machinery has no run-time behaviour.
- `Syllables.Base.Run`: this loop belongs to the word parser. The model includes it to tie the edit methods to the pipelines.

## Findings

| source | as written | input that shows it | evidently intended | confidence | as-written member | corrected member |
|---|---|---|---|---|---|---|
| src/backend/conversion/initializers/pronoun.js:68 | `verbCircumfix` tests `gender.feminine`, a flag `pronoun()` never sets (it sets `fem`) | pronoun `2fs`: circumfix equals that of `2ms` (no `ii` suffix); `3fs` gets prefix `y` | test `gender.fem`, giving 2fs the suffix `ii` and 3fs the prefix `t`, as the comments `// 2fs`, `// 3fs` say | high, not executed | Pronouns.FeminineCircumfixAsWritten | Pronouns.FeminineCircumfixIntended |
| src/backend/conversion/initializers/pp.js:281 | the last call of active `nfa3al` is not spread into the list | active `nfa3al` of a sound, non-geminate triliteral root: the list ends with a list of words | spread that call like its neighbours, so the result is a flat list of words | medium, not executed | Participle.Nfa3alNestedAsWritten | Participle.Nfa3alSpreadIntended |
