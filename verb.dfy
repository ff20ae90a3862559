/** The verb library's long-vowel maps, affixes and consonant/vowel skeleton
    templates (src/languages/levantine/layers/category/libraries/promote/verb.ts).

    A skeleton is the list of slots a template passes to the library's
    constructor: a radical of the root, a named consonant letter, or a named
    vowel. The constructor itself and the letter table are not part of this
    model; letters are kept by name. */
module VerbTemplates {
  import opened Segments

  /** The vowel letters the templates use. */
  datatype Vowel = A | I | U | E | O | AA | II | UU | EE | OO

  predicate IsShort(v: Vowel) {
    v in {A, I, U, E, O}
  }

  /** The theme vowels a feed accepts: `a | i | u` ... */
  predicate IsAIU(v: Vowel) {
    v in {A, I, U}
  }

  /** ... or `a | i`. */
  predicate IsAI(v: Vowel) {
    v in {A, I}
  }

  /** A short vowel made long. */
  function Lengthen(v: Vowel): (r: Vowel)
    requires IsShort(v)
  {
    match v
    case A => AA
    case I => II
    case U => UU
    case E => EE
    case O => OO
  }

  /** The long vowel's short counterpart; the inverse of `Lengthen`. */
  function Shorten(v: Vowel): Vowel
    requires !IsShort(v)
  {
    match v
    case AA => A
    case II => I
    case UU => U
    case EE => E
    case OO => O
  }

  /** The lax vowel of the same front/back class: `i` lowers to `e`, `u` to `o`. */
  function Lower(v: Vowel): (r: Vowel)
    requires IsShort(v)
    ensures IsShort(r) && r != I && r != U
  {
    match v
    case I => E
    case U => O
    case _ => v
  }

  /** `tenseLongVowel`: a -> aa, i -> ii, u -> uu. */
  function TenseLongVowel(v: Vowel): (r: Vowel)
    requires IsAIU(v)
    ensures !IsShort(r) && Shorten(r) == v
  {
    match v
    case A => AA
    case I => II
    case U => UU
  }

  /** `laxLongVowel`: a -> aa, i and e -> ee, u and o -> oo. */
  function LaxLongVowel(v: Vowel): (r: Vowel)
    requires IsShort(v)
    ensures r in {AA, EE, OO}
    ensures r == Lengthen(Lower(v))
  {
    match v
    case A => AA
    case I => EE
    case E => EE
    case U => OO
    case O => OO
  }

  /** The tense long vowel lengthens the vowel itself, and the two maps agree
      on `a` alone. */
  lemma {:induction false} TenseAndLax(v: Vowel)
    requires IsAIU(v)
    ensures TenseLongVowel(v) == Lengthen(v)
    ensures TenseLongVowel(v) == LaxLongVowel(v) <==> v == A
  {
    match v
    case A =>
    case I => assert LaxLongVowel(I) == EE;
    case U => assert LaxLongVowel(U) == OO;
  }

  /** Tense lengthening loses nothing: distinct vowels stay distinct. Lax
      lengthening merges `i` with `e` and `u` with `o`. */
  lemma {:induction false} TenseInjectiveLaxMerges(v: Vowel, w: Vowel)
    requires IsAIU(v) && IsAIU(w)
    ensures TenseLongVowel(v) == TenseLongVowel(w) ==> v == w
    ensures LaxLongVowel(I) == LaxLongVowel(E) && LaxLongVowel(U) == LaxLongVowel(O)
  {
    assert Shorten(TenseLongVowel(v)) == v && Shorten(TenseLongVowel(w)) == w;
  }

  // ----- skeletons -----

  datatype Slot = Rad(c: Segment) | Letter(name: string) | Vow(v: Vowel)

  type Skeleton = seq<Slot>

  /** The radical of one slot, if it holds one. */
  function RadicalOf(x: Slot): seq<Segment> {
    if x.Rad? then [x.c] else []
  }

  /** The radicals a skeleton interpolates, in order. */
  function Radicals(s: Skeleton): (r: seq<Segment>)
    ensures |r| <= |s|
  {
    if s == [] then [] else RadicalOf(s[0]) + Radicals(s[1..])
  }

  /** The consonant/vowel outline of a skeleton: `C` for a radical or a
      consonant letter, `V` for a vowel. */
  function Outline(s: Skeleton): (r: string)
    ensures |r| == |s|
    ensures forall i :: 0 <= i < |s| ==> (r[i] == 'V' <==> s[i].Vow?)
  {
    seq(|s|, i requires 0 <= i < |s| => if s[i].Vow? then 'V' else 'C')
  }

  // ----- affixes -----

  const N_ : Skeleton := [Letter("n")]
  const St_ : Skeleton := [Letter("s"), Letter("t")]
  const Sta_ : Skeleton := [Letter("s"), Letter("t"), Vow(A)]

  /** `v_.feed(vowel)`: the consonant `$` and the vowel. */
  function V_(v: Vowel): (r: Skeleton)
    requires IsAI(v)
    ensures Outline(r) == "CV" && r[1] == Vow(v) && Radicals(r) == []
  {
    [Letter("$"), Vow(v)]
  }

  /** `sta_` is `st_` followed by the vowel `a`; `n_` is the single `n`. */
  lemma AffixShapes()
    ensures Sta_ == St_ + [Vow(A)]
    ensures Outline(N_) == "C" && Outline(St_) == "CC" && Outline(Sta_) == "CCV"
    ensures Radicals(N_) == [] && Radicals(St_) == [] && Radicals(Sta_) == []
  {
    assert Outline(Sta_)[2] == 'V';
  }

  // ----- templates -----

  datatype Template =
    | Fv33 | Fv3vl | F3vl | F3vvl | Fv3v | F3vv | F3v | Fvvl | Fa33vl | Fa33v
    | Fe3vl | Fe3v | Ftv33 | Ftv3vl | Ftv3v | Ftvvl | F3all | Fa3lv2 | Fa3lv

  /** How many radicals a template destructures from the root. */
  function RootArity(t: Template): nat {
    match t
    case Fv33 | Fv3v | F3vv | F3v | Fa33v | Fe3v | Ftv33 | Ftv3vl | Ftv3v => 2
    case Fa3lv2 => 4
    case _ => 3
  }

  /** The theme vowels each feed accepts, by its parameter types; `v2` is read
      only by the two-vowel feeds and `f3all` takes none. */
  predicate ThemeOk(t: Template, v1: Vowel, v2: Vowel) {
    match t
    case Fv33 | F3vl | F3vv | F3v | Fvvl | Ftv33 => IsAIU(v1)
    case Fv3vl => IsAIU(v1) && IsAIU(v2)
    case F3vvl => IsShort(v1)
    case Fv3v | Fa33vl | Fa33v | Fe3vl | Fe3v | Ftvvl | Fa3lv2 | Fa3lv => IsAI(v1)
    case Ftv3vl | Ftv3v => IsAI(v1) && IsAI(v2)
    case F3all => true
  }

  /** The skeleton a template builds from its theme vowels and a root. */
  function Build(t: Template, v1: Vowel, v2: Vowel, root: seq<Segment>): (s: Skeleton)
    requires ThemeOk(t, v1, v2) && |root| >= RootArity(t)
    ensures |s| > 0 && s[0] == Rad(root[0])
  {
    var f, c := Rad(root[0]), Rad(root[1]);
    match t
    case Fv33 => [f, Vow(v1), c, c]
    case Fv3vl => [f, Vow(v1), c, Vow(v2), Rad(root[2])]
    case F3vl => [f, c, Vow(v1), Rad(root[2])]
    case F3vvl => [f, c, Vow(LaxLongVowel(v1)), Rad(root[2])]
    case Fv3v => [f, Vow(v1), c, Vow(v1)]
    case F3vv => [f, c, Vow(TenseLongVowel(v1))]
    case F3v => [f, c, Vow(v1)]
    case Fvvl => [f, Vow(TenseLongVowel(v1)), Rad(root[2])]
    case Fa33vl => [f, Vow(A), c, c, Vow(v1), Rad(root[2])]
    case Fa33v => [f, Vow(A), c, c, Vow(v1)]
    case Fe3vl => [f, Vow(AA), c, Vow(v1), Rad(root[2])]
    case Fe3v => [f, Vow(AA), c, Vow(v1)]
    case Ftv33 => [f, Letter("t"), Vow(v1), c, c]
    case Ftv3vl => [f, Letter("t"), Vow(v1), c, Vow(v2)]
    case Ftv3v => [f, Letter("t"), Vow(v1), c, Vow(v2)]
    case Ftvvl => [f, Letter("t"), Vow(TenseLongVowel(v1)), Rad(root[2])]
    case F3all => [f, c, Vow(A), Rad(root[2]), Rad(root[2])]
    case Fa3lv2 => [f, Vow(A), c, Rad(root[2]), Vow(v1), Rad(root[3])]
    case Fa3lv => [f, Vow(A), c, Rad(root[2]), Vow(v1)]
  }

  /** The templates whose name doubles the middle radical. */
  predicate Doubles(t: Template) {
    t in {Fv33, Fa33vl, Fa33v, Ftv33}
  }

  /** The templates with the infix `t`. */
  predicate IsFt(t: Template) {
    t in {Ftv33, Ftv3vl, Ftv3v, Ftvvl}
  }

  /** The templates that destructure two radicals read the first two, in
      order (the doubling ones aside). */
  lemma {:induction false} RadicalsOfTwo(t: Template, v1: Vowel, v2: Vowel, root: seq<Segment>)
    requires t in {F3vv, F3v, Fv3v, Fe3v, Ftv3vl, Ftv3v} && ThemeOk(t, v1, v2) && |root| >= 2
    ensures Radicals(Build(t, v1, v2, root)) == [root[0], root[1]]
  {
    var s := Build(t, v1, v2, root);
    if |s| == 3 {
      Radicals3(s[0], s[1], s[2]);
      assert s == [s[0], s[1], s[2]];
    } else if |s| == 4 {
      Radicals4(s[0], s[1], s[2], s[3]);
      assert s == [s[0], s[1], s[2], s[3]];
    } else {
      Radicals5(s[0], s[1], s[2], s[3], s[4]);
      assert s == [s[0], s[1], s[2], s[3], s[4]];
    }
  }

  /** The templates that destructure three radicals and use each once read
      the root in order. */
  lemma {:induction false} RadicalsOfThree(t: Template, v1: Vowel, v2: Vowel, root: seq<Segment>)
    requires t in {F3vl, F3vvl, Fv3vl, Fe3vl, Fa3lv} && ThemeOk(t, v1, v2) && |root| >= 3
    ensures Radicals(Build(t, v1, v2, root)) == [root[0], root[1], root[2]]
  {
    var s := Build(t, v1, v2, root);
    if |s| == 4 {
      Radicals4(s[0], s[1], s[2], s[3]);
      assert s == [s[0], s[1], s[2], s[3]];
    } else {
      Radicals5(s[0], s[1], s[2], s[3], s[4]);
      assert s == [s[0], s[1], s[2], s[3], s[4]];
    }
  }

  /** The doubling templates read the middle radical twice in a row. */
  lemma {:induction false} RadicalsOfDoubling(t: Template, v1: Vowel, v2: Vowel, root: seq<Segment>)
    requires Doubles(t) && ThemeOk(t, v1, v2) && |root| >= RootArity(t)
    ensures Radicals(Build(t, v1, v2, root))
         == [root[0], root[1], root[1]] + (if t == Fa33vl then [root[2]] else [])
  {
    var s := Build(t, v1, v2, root);
    if |s| == 4 {
      Radicals4(s[0], s[1], s[2], s[3]);
      assert s == [s[0], s[1], s[2], s[3]];
    } else if |s| == 5 {
      Radicals5(s[0], s[1], s[2], s[3], s[4]);
      assert s == [s[0], s[1], s[2], s[3], s[4]];
    } else {
      Radicals6(s[0], s[1], s[2], s[3], s[4], s[5]);
      assert s == [s[0], s[1], s[2], s[3], s[4], s[5]];
    }
  }

  lemma {:induction false} RadicalsCons(x: Slot, s: Skeleton)
    ensures Radicals([x] + s) == RadicalOf(x) + Radicals(s)
  {
    assert ([x] + s)[1..] == s;
  }

  // `Radicals` read slot by slot, for skeletons of three to six slots.

  lemma {:induction false} Radicals3(a: Slot, b: Slot, c: Slot)
    ensures Radicals([a, b, c]) == RadicalOf(a) + (RadicalOf(b) + RadicalOf(c))
  {
    RadicalsCons(c, []);
    assert [c] == [c] + [];
    assert RadicalOf(c) + [] == RadicalOf(c);
    RadicalsCons(b, [c]);
    assert [b, c] == [b] + [c];
    RadicalsCons(a, [b, c]);
    assert [a, b, c] == [a] + [b, c];
  }

  lemma {:induction false} Radicals4(a: Slot, b: Slot, c: Slot, d: Slot)
    ensures Radicals([a, b, c, d]) == RadicalOf(a) + (RadicalOf(b) + (RadicalOf(c) + RadicalOf(d)))
  {
    Radicals3(b, c, d);
    RadicalsCons(a, [b, c, d]);
    assert [a, b, c, d] == [a] + [b, c, d];
  }

  lemma {:induction false} Radicals5(a: Slot, b: Slot, c: Slot, d: Slot, e: Slot)
    ensures Radicals([a, b, c, d, e]) == RadicalOf(a) + (RadicalOf(b) + (RadicalOf(c) + (RadicalOf(d) + RadicalOf(e))))
  {
    Radicals4(b, c, d, e);
    RadicalsCons(a, [b, c, d, e]);
    assert [a, b, c, d, e] == [a] + [b, c, d, e];
  }

  lemma {:induction false} Radicals6(a: Slot, b: Slot, c: Slot, d: Slot, e: Slot, f: Slot)
    ensures Radicals([a, b, c, d, e, f])
         == RadicalOf(a) + (RadicalOf(b) + (RadicalOf(c) + (RadicalOf(d) + (RadicalOf(e) + RadicalOf(f)))))
  {
    Radicals5(b, c, d, e, f);
    RadicalsCons(a, [b, c, d, e, f]);
    assert [a, b, c, d, e, f] == [a] + [b, c, d, e, f];
  }

  /** The outline of every template. */
  lemma {:induction false} OutlineOfBuild(t: Template, v1: Vowel, v2: Vowel, root: seq<Segment>)
    requires ThemeOk(t, v1, v2) && |root| >= RootArity(t)
    ensures Outline(Build(t, v1, v2, root)) ==
      match t
      case Fv33 => "CVCC"
      case Fv3vl => "CVCVC"
      case F3vl | F3vvl => "CCVC"
      case Fv3v => "CVCV"
      case F3vv | F3v => "CCV"
      case Fvvl => "CVC"
      case Fa33vl => "CVCCVC"
      case Fa33v => "CVCCV"
      case Fe3vl => "CVCVC"
      case Fe3v => "CVCV"
      case Ftv33 => "CCVCC"
      case Ftv3vl | Ftv3v => "CCVCV"
      case Ftvvl => "CCVC"
      case F3all => "CCVCC"
      case Fa3lv2 => "CVCCVC"
      case Fa3lv => "CVCCV"
  {
  }

  /** The doubling templates put the middle radical at two adjacent slots. */
  lemma {:induction false} MiddleDoubled(t: Template, v1: Vowel, v2: Vowel, root: seq<Segment>)
    requires Doubles(t) && ThemeOk(t, v1, v2) && |root| >= RootArity(t)
    ensures exists k :: (0 < k < |Build(t, v1, v2, root)| - 1
      && Build(t, v1, v2, root)[k] == Build(t, v1, v2, root)[k + 1] == Rad(root[1]))
  {
    var s := Build(t, v1, v2, root);
    var k := if t == Ftv33 then 3 else 2;
    assert s[k] == s[k + 1] == Rad(root[1]);
  }

  /** Every `ft` template has the consonant `t` right after the first radical. */
  lemma {:induction false} InfixT(t: Template, v1: Vowel, v2: Vowel, root: seq<Segment>)
    requires IsFt(t) && ThemeOk(t, v1, v2) && |root| >= RootArity(t)
    ensures |Build(t, v1, v2, root)| > 1
    ensures Build(t, v1, v2, root)[..2] == [Rad(root[0]), Letter("t")]
  {
  }

  /** `fvvl` (theme `a`, `i` or `u`) skips the middle radical and puts the
      tense long theme vowel in its place. */
  lemma {:induction false} FvvlHollow(v: Vowel, root: seq<Segment>)
    requires IsAIU(v) && |root| >= 3
    ensures Vow(TenseLongVowel(v)) in Build(Fvvl, v, v, root)
    ensures Radicals(Build(Fvvl, v, v, root)) == [root[0], root[2]]
  {
    var s := Build(Fvvl, v, v, root);
    assert s[1] == Vow(TenseLongVowel(v));
    Radicals3(s[0], s[1], s[2]);
    assert s == [s[0], s[1], s[2]];
  }

  /** `ftvvl` (theme `a` or `i`) does the same after the infix `t`. */
  lemma {:induction false} FtvvlHollow(v: Vowel, root: seq<Segment>)
    requires IsAI(v) && |root| >= 3
    ensures Vow(TenseLongVowel(v)) in Build(Ftvvl, v, v, root)
    ensures Radicals(Build(Ftvvl, v, v, root)) == [root[0], root[2]]
  {
    var u := Build(Ftvvl, v, v, root);
    assert u[2] == Vow(TenseLongVowel(v));
    Radicals4(u[0], u[1], u[2], u[3]);
    assert u == [u[0], u[1], u[2], u[3]];
  }

  /** `ftv3vl` destructures two radicals only, so it builds exactly what
      `ftv3v` builds. */
  lemma {:induction false} Ftv3vlIsFtv3v(v1: Vowel, v2: Vowel, root: seq<Segment>)
    requires IsAI(v1) && IsAI(v2) && |root| >= 2
    ensures Build(Ftv3vl, v1, v2, root) == Build(Ftv3v, v1, v2, root)
    ensures Radicals(Build(Ftv3vl, v1, v2, root)) == root[..2]
  {
    RadicalsOfTwo(Ftv3vl, v1, v2, root);
    assert root[..2] == [root[0], root[1]];
  }

  /** `f3all` takes no theme vowel: whatever vowels it is given, it is
      f, c, a, l, l, the last radical doubled. */
  lemma {:induction false} F3allShape(v1: Vowel, v2: Vowel, root: seq<Segment>)
    requires |root| >= 3
    ensures Build(F3all, v1, v2, root) == Build(F3all, A, A, root)
    ensures Build(F3all, v1, v2, root) == [Rad(root[0]), Rad(root[1]), Vow(A), Rad(root[2]), Rad(root[2])]
    ensures Radicals(Build(F3all, v1, v2, root)) == [root[0], root[1], root[2], root[2]]
  {
    var s := Build(F3all, v1, v2, root);
    Radicals5(s[0], s[1], s[2], s[3], s[4]);
    assert s == [s[0], s[1], s[2], s[3], s[4]];
  }

  /** `fa3lv2` reads four radicals, in order, and ignores any further ones. */
  lemma {:induction false} Fa3lv2Radicals(v: Vowel, root: seq<Segment>)
    requires IsAI(v) && |root| >= 4
    ensures Radicals(Build(Fa3lv2, v, v, root)) == root[..4]
  {
    var s := Build(Fa3lv2, v, v, root);
    Radicals6(s[0], s[1], s[2], s[3], s[4], s[5]);
    assert s == [s[0], s[1], s[2], s[3], s[4], s[5]];
    assert root[..4] == [root[0], root[1], root[2], root[3]];
  }
}
