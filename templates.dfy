/** The category alphabet's root schema, its verb constraint and its root trait
    table (src/languages/levantine/alphabets/templates/templates.ts). Schemas are
    kept as data; the traits, whose schema evaluator lies outside this model, are
    stated as the predicates those schemas express. */
module Templates {

  /** A field value of a radical record. Records compare by value. */
  datatype Val = B(b: bool) | N(n: int) | S(s: string) | Rec(fields: map<string, Val>)

  /** Match-schema nodes, as far as this alphabet writes them. */
  datatype Schema =
    | MatchType(typeName: string)
    | MatchAny(options: seq<Schema>)
    | MatchArray(length: Schema, fill: Schema)
    | Literal(v: Val)
    | Fields(fields: map<string, Schema>)

  /** The schema every named flag receives. */
  const BooleanType := MatchType("boolean")

  /** `withFlags`: the original field schemas, overridden and extended by one
      boolean-typed field per name. */
  function WithFlags(original: map<string, Schema>, names: seq<string>): (r: map<string, Schema>)
    ensures r.Keys == original.Keys + (set n | n in names)
    ensures forall n :: n in names ==> r[n] == BooleanType
    ensures forall k :: k in original && k !in names ==> r[k] == original[k]
  {
    original + map n | n in names :: BooleanType
  }

  /** The `root` schema: an array of length 3 or 4 whose elements are consonants
      carrying the `weak` and `affected` flags. */
  function RootSchema(consonant: map<string, Schema>): (r: Schema)
    ensures r.MatchArray? && r.fill.Fields?
    ensures r.length == MatchAny([Literal(N(3)), Literal(N(4))])
    ensures r.fill.fields.Keys == consonant.Keys + {"weak", "affected"}
    ensures r.fill.fields["weak"] == BooleanType && r.fill.fields["affected"] == BooleanType
  {
    MatchArray(MatchAny([Literal(N(3)), Literal(N(4))]), Fields(WithFlags(consonant, ["weak", "affected"])))
  }

  /** A radical: a record of named fields. */
  type Radical = map<string, Val>

  /** What the root schema's `fill` demands of every element beyond the
      consonant's own fields: boolean `weak` and `affected` flags. */
  predicate HasFlags(x: Radical) {
    && "weak" in x && x["weak"].B?
    && "affected" in x && x["affected"].B?
  }

  /** The sequences the root schema admits. */
  predicate IsRoot(r: seq<Radical>) {
    (|r| == 3 || |r| == 4) && forall i :: 0 <= i < |r| ==> HasFlags(r[i])
  }

  // ----- the verb's nonpast constraint -----

  datatype Tam = Past | Subjunctive | Indicative | Imperative

  /** The tam values the verb schema lists. */
  const VerbTams := [Past, Subjunctive, Indicative, Imperative]

  /** The `nonpast` constraint: `tam` is one of imperative, indicative, subjunctive. */
  predicate Nonpast(t: Tam) {
    t in [Imperative, Indicative, Subjunctive]
  }

  /** Nonpast admits every tam the verb schema lists except `past`. */
  lemma NonpastIsNotPast(t: Tam)
    ensures t in VerbTams
    ensures Nonpast(t) <==> t != Past
  {
  }

  // ----- traits -----

  /** The field schema `{i: {weak: true}}`: radical `i` exists and is weak. */
  predicate WeakAt(r: seq<Radical>, i: nat) {
    i < |r| && "weak" in r[i] && r[i]["weak"] == B(true)
  }

  /** The custom check of `geminate`: every field of `a` holds the same value in `b`. */
  predicate FieldsAgree(a: Radical, b: Radical) {
    forall k :: k in a ==> k in b && b[k] == a[k]
  }

  predicate Geminate(r: seq<Radical>) {
    || (|r| == 3 && FieldsAgree(r[1], r[2]))
    || (|r| == 4 && FieldsAgree(r[2], r[3]))
  }

  predicate Triliteral(r: seq<Radical>) {
    |r| == 3
  }

  predicate Quadriliteral(r: seq<Radical>) {
    |r| == 4
  }

  predicate Assimilated(r: seq<Radical>) {
    WeakAt(r, 0)
  }

  predicate Hollow(r: seq<Radical>) {
    WeakAt(r, 1)
  }

  predicate Defective(r: seq<Radical>) {
    || (|r| == 3 && WeakAt(r, 2))
    || (|r| == 4 && WeakAt(r, 3))
  }

  datatype Trait = GeminateTrait | TriliteralTrait | QuadriliteralTrait
                 | AssimilatedTrait | HollowTrait | DefectiveTrait

  function Holds(t: Trait, r: seq<Radical>): bool {
    match t
    case GeminateTrait => Geminate(r)
    case TriliteralTrait => Triliteral(r)
    case QuadriliteralTrait => Quadriliteral(r)
    case AssimilatedTrait => Assimilated(r)
    case HollowTrait => Hollow(r)
    case DefectiveTrait => Defective(r)
  }

  /** The traits of a root: those whose schema it matches. */
  function Classify(r: seq<Radical>): (ts: set<Trait>)
    ensures forall t :: t in ts <==> Holds(t, r)
  {
    set t | t in {GeminateTrait, TriliteralTrait, QuadriliteralTrait,
                  AssimilatedTrait, HollowTrait, DefectiveTrait} && Holds(t, r)
  }

  /** Every root is exactly one of triliteral and quadriliteral. */
  lemma LengthTraitsExclusive(r: seq<Radical>)
    requires IsRoot(r)
    ensures TriliteralTrait in Classify(r) <==> QuadriliteralTrait !in Classify(r)
  {
  }

  /** Traits are not exclusive: a geminate root of length 3 is geminate and
      triliteral at once, and never quadriliteral. */
  lemma GeminateTriliteral(r: seq<Radical>)
    requires |r| == 3 && r[1] == r[2]
    ensures {GeminateTrait, TriliteralTrait} <= Classify(r)
    ensures QuadriliteralTrait !in Classify(r)
  {
  }

  /** Assimilated and hollow read fixed positions, whatever the length. */
  lemma FirstAndMiddleIgnoreLength(r: seq<Radical>, x: Radical)
    requires IsRoot(r) && |r| == 3
    ensures Assimilated(r + [x]) <==> Assimilated(r)
    ensures Hollow(r + [x]) <==> Hollow(r)
  {
  }

  /** Defective reads the last radical, so a quadriliteral root whose third
      radical alone is weak is not defective, while the same three radicals as a
      triliteral root are. */
  lemma DefectiveReadsLastRadical(r: seq<Radical>)
    requires |r| == 4 && WeakAt(r, 2) && !WeakAt(r, 3)
    ensures !Defective(r)
    ensures Defective(r[..3])
  {
  }

  /** A geminate triliteral root that is defective is hollow too: its middle
      radical has the weak final radical's fields. */
  lemma {:induction false} GeminateDefectiveIsHollow(r: seq<Radical>)
    requires IsRoot(r) && |r| == 3
    requires Geminate(r) && Defective(r)
    ensures Hollow(r)
  {
    assert HasFlags(r[1]);
    assert "weak" in r[1] && r[2]["weak"] == r[1]["weak"];
  }
}
