/** The rule-composition helpers of the rules library (src/lib/rules/funcs.ts):
    the operation tags, the walk that replaces spec and env callbacks by what
    they return, the conversion of `into` trees, and the packing of rule sets.

    Specs are JSON-like values. A JavaScript function inside a spec is kept
    as `Fn(id)`; what the user's callback with that id returns, when called
    with the library's helper functions, is given as a parameter
    (`Callbacks`). */
module Rules {
  import opened Wrappers

  datatype Json =
    | Undefined
    | Null
    | Bool(b: bool)
    | Num(n: int)
    | Str(s: string)
    | Arr(items: seq<Json>)
    | Obj(fields: map<string, Json>)
    | Fn(id: nat)

  /** What each callback returns: a spec callback called with the type
      helpers, an env callback called with the env and type helpers. */
  datatype Callbacks = Callbacks(spec: nat -> Json, env: nat -> Json)

  /** A `{match, value: [...]}` node. */
  predicate IsMatchNode(j: Json) {
    j.Obj? && "match" in j.fields && "value" in j.fields && j.fields["value"].Arr?
  }

  function Items(j: Json): seq<Json>
    requires IsMatchNode(j)
  {
    j.fields["value"].items
  }

  /** A match node with the given tag and operands. */
  function MatchNode(tag: Json, items: seq<Json>): (r: Json)
    ensures IsMatchNode(r) && r.fields["match"] == tag && Items(r) == items
    ensures r.fields.Keys == {"match", "value"}
  {
    Obj(map["match" := tag, "value" := Arr(items)])
  }

  /** What the `in` operator accepts without a TypeError: an object, an
      array or a function. */
  predicate IsObjectLike(j: Json) {
    j.Obj? || j.Arr? || j.Fn?
  }

  /** What `callSpecFunc` and `callEnvFunc` are given: an object whose match
      operands, all the way down, are objects too. */
  predicate CallableTree(j: Json)
    decreases j
  {
    && IsObjectLike(j)
    && (IsMatchNode(j) ==> forall i :: 0 <= i < |Items(j)| ==> CallableTree(Items(j)[i]))
  }

  /** `callSpecFunc` and `callEnvFunc`, which differ only in how a callback
      is called: match nodes are walked operand by operand, a function is
      called, and anything else gives `{}`. */
  function CallFunc(j: Json, call: nat -> Json): (r: Json)
    requires CallableTree(j)
    ensures IsMatchNode(j) ==>
      IsMatchNode(r) && r.fields.Keys == {"match", "value"} && r.fields["match"] == j.fields["match"]
      && |Items(r)| == |Items(j)|
    ensures !IsMatchNode(j) && j.Fn? ==> r == call(j.id)
    ensures !IsMatchNode(j) && !j.Fn? ==> r == Obj(map[])
    decreases j
  {
    if IsMatchNode(j) then
      var items := Items(j);
      MatchNode(j.fields["match"], seq(|items|, i requires 0 <= i < |items| => CallFunc(items[i], call)))
    else if j.Fn? then call(j.id)
    else Obj(map[])
  }

  /** The node reached from `j` by following `path` through the operands of
      match nodes. */
  function At(j: Json, path: seq<nat>): Option<Json>
    decreases |path|
  {
    if path == [] then Some(j)
    else if IsMatchNode(j) && path[0] < |Items(j)| then At(Items(j)[path[0]], path[1..])
    else None
  }

  /** The walk keeps every match node in place, with its tag, and calls the
      callbacks where the operands end: whatever path leads to a node of the
      input leads, in the output, to the walk of that node. */
  lemma {:induction false} CallFuncAt(j: Json, call: nat -> Json, path: seq<nat>)
    requires CallableTree(j) && At(j, path).Some?
    ensures CallableTree(At(j, path).value)
    ensures At(CallFunc(j, call), path) == Some(CallFunc(At(j, path).value, call))
    decreases |path|
  {
    if path != [] {
      var k := path[0];
      var r := CallFunc(j, call);
      assert Items(r)[k] == CallFunc(Items(j)[k], call);
      CallFuncAt(Items(j)[k], call, path[1..]);
    }
  }

  // ----- _unfuncSpec -----

  /** The keys an object spread contributes: those of a record, none for
      anything else. */
  function Spread(j: Json): map<string, Json> {
    if j.Obj? then j.fields else map[]
  }

  /** What `_unfuncSpec` reads without a TypeError: match operands all the
      way down, and for any other object, `spec` and `env` entries the call
      walks accept. */
  predicate UnfuncOk(j: Json)
    decreases j
  {
    if IsMatchNode(j) then forall i :: 0 <= i < |Items(j)| ==> UnfuncOk(Items(j)[i])
    else j.Obj? ==>
      && ("spec" in j.fields ==> CallableTree(j.fields["spec"]))
      && ("env" in j.fields ==> CallableTree(j.fields["env"]))
  }

  /** The fields the `spec` entry contributes. */
  function SpecPart(j: Json, cb: Callbacks): map<string, Json>
    requires UnfuncOk(j) && !IsMatchNode(j)
  {
    if j.Obj? && "spec" in j.fields then Spread(CallFunc(j.fields["spec"], cb.spec)) else map[]
  }

  /** The fields the `env` entry contributes. */
  function EnvPart(j: Json, cb: Callbacks): map<string, Json>
    requires UnfuncOk(j) && !IsMatchNode(j)
  {
    if j.Obj? && "env" in j.fields then Spread(CallFunc(j.fields["env"], cb.env)) else map[]
  }

  /** `_unfuncSpec`: anything that is not an object (`undefined`, `null`, a
      primitive, a function) comes back as it is; a match node keeps its tag
      and has its operands walked; any other object becomes the merge of
      what its `spec` and `env` callbacks return, `env` winning on a shared
      key. */
  function UnfuncSpec(j: Json, cb: Callbacks): (r: Json)
    requires UnfuncOk(j)
    ensures !(j.Obj? || j.Arr?) ==> r == j
    ensures IsMatchNode(j) ==>
      IsMatchNode(r) && r.fields["match"] == j.fields["match"] && |Items(r)| == |Items(j)|
    ensures !IsMatchNode(j) && (j.Obj? || j.Arr?) ==>
      && r.Obj?
      && r.fields.Keys == SpecPart(j, cb).Keys + EnvPart(j, cb).Keys
      && (forall k :: k in EnvPart(j, cb) ==> r.fields[k] == EnvPart(j, cb)[k])
      && (forall k :: k in SpecPart(j, cb) && k !in EnvPart(j, cb) ==> r.fields[k] == SpecPart(j, cb)[k])
    decreases j
  {
    if !(j.Obj? || j.Arr?) then j
    else if IsMatchNode(j) then
      var items := Items(j);
      MatchNode(j.fields["match"], seq(|items|, i requires 0 <= i < |items| => UnfuncSpec(items[i], cb)))
    else Obj(SpecPart(j, cb) + EnvPart(j, cb))
  }

  /** As for the call walks, the unfunc walk commutes with following a path
      through match nodes. */
  lemma {:induction false} UnfuncAt(j: Json, cb: Callbacks, path: seq<nat>)
    requires UnfuncOk(j) && At(j, path).Some?
    ensures UnfuncOk(At(j, path).value)
    ensures At(UnfuncSpec(j, cb), path) == Some(UnfuncSpec(At(j, path).value, cb))
    decreases |path|
  {
    if path != [] {
      var k := path[0];
      var r := UnfuncSpec(j, cb);
      assert Items(r)[k] == UnfuncSpec(Items(j)[k], cb);
      UnfuncAt(Items(j)[k], cb, path[1..]);
    }
  }

  // ----- intoToFunc -----

  /** An `into` target: a list, or a record of nested targets. */
  datatype Into = IntoList(items: seq<Json>) | IntoRecord(entries: map<string, Into>)

  /** The converted target: at each list, what the produced function returns
      (`{for, into}`); records keep their keys. */
  datatype IntoTree = Leaf(forSpec: Json, into: seq<Json>) | Branch(children: map<string, IntoTree>)

  /** The tree has the target's shape: a leaf for each list, holding that
      list, and a branch with the same keys for each record. */
  predicate SameShape(into: Into, t: IntoTree)
    decreases into
  {
    match into
    case IntoList(items) => t.Leaf? && t.into == items
    case IntoRecord(entries) =>
      t.Branch? && t.children.Keys == entries.Keys
      && forall k :: k in entries ==> SameShape(entries[k], t.children[k])
  }

  /** Every leaf carries the same `for`. */
  predicate LeavesFor(t: IntoTree, f: Json)
    decreases t
  {
    match t
    case Leaf(forSpec, _) => forSpec == f
    case Branch(children) => forall k :: k in children ==> LeavesFor(children[k], f)
  }

  /** `intoToFunc`: a list becomes a leaf pairing the unfunc'd spec with the
      list; a record is converted key by key. The result has the target's
      shape, and every leaf carries the same walked spec. */
  function IntoToFunc(into: Into, spec: Json, cb: Callbacks): (t: IntoTree)
    requires UnfuncOk(spec)
    ensures SameShape(into, t)
    ensures LeavesFor(t, UnfuncSpec(spec, cb))
    decreases into
  {
    match into
    case IntoList(items) => Leaf(UnfuncSpec(spec, cb), items)
    case IntoRecord(entries) => Branch(map k | k in entries :: IntoToFunc(entries[k], spec, cb))
  }

  // ----- operations -----

  /** An operation tag: `{operation: name, argument: specs}`. */
  function Tag(name: string, specs: seq<Json>): Json {
    Obj(map["operation" := Str(name), "argument" := Arr(specs)])
  }

  /** Reads an operation tag back: its name and argument list. */
  function Untag(j: Json): (r: Option<(string, seq<Json>)>)
    ensures r.Some? ==> j == Tag(r.value.0, r.value.1)
  {
    if j.Obj? && j.fields.Keys == {"operation", "argument"}
       && j.fields["operation"].Str? && j.fields["argument"].Arr?
    then Some((j.fields["operation"].s, j.fields["argument"].items))
    else None
  }

  /** `mock(...specs)`: reads back as `mock` with the same argument list. */
  function Mock(specs: seq<Json>): (r: Json)
    ensures Untag(r) == Some(("mock", specs))
  {
    Tag("mock", specs)
  }

  /** `preject(...specs)` */
  function Preject(specs: seq<Json>): (r: Json)
    ensures Untag(r) == Some(("preject", specs))
  {
    Tag("preject", specs)
  }

  /** `postject(...specs)` */
  function Postject(specs: seq<Json>): (r: Json)
    ensures Untag(r) == Some(("postject", specs))
  {
    Tag("postject", specs)
  }

  /** `coalesce(...specs)` */
  function Coalesce(specs: seq<Json>): (r: Json)
    ensures Untag(r) == Some(("coalesce", specs))
  {
    Tag("coalesce", specs)
  }

  /** No two operations produce the same tag, whatever their arguments. */
  lemma {:induction false} OperationsDistinct(specs: seq<Json>, other: seq<Json>)
    ensures Mock(specs) != Preject(other) && Mock(specs) != Postject(other) && Mock(specs) != Coalesce(other)
    ensures Preject(specs) != Postject(other) && Preject(specs) != Coalesce(other)
    ensures Postject(specs) != Coalesce(other)
  {
    assert Untag(Mock(specs)).value.0 == "mock";
    assert Untag(Preject(specs)).value.0 == "preject";
    assert Untag(Postject(specs)).value.0 == "postject";
  }

  /** `mock.was`: one entry per dependency name, each returning its argument
      list as it is. */
  function Was(dependencies: seq<string>): (r: map<string, seq<Json> -> seq<Json>>)
    ensures r.Keys == set n | n in dependencies
    ensures forall n, specs :: n in r ==> r[n](specs) == specs
  {
    map n | n in dependencies :: (specs: seq<Json>) => specs
  }

  // ----- env helpers -----

  /** `env.before(...prev)`: the arguments, in order, under `env.prev`. */
  function Before(args: seq<Json>): (r: Json)
    ensures EnvArgs(r) == Some(("prev", args))
  {
    var e := map["prev" := Arr(args)];
    assert e.Keys == {"prev"};
    Obj(map["env" := Obj(e)])
  }

  /** `env.after(...next)`: the arguments, in order, under `env.next`. */
  function After(args: seq<Json>): (r: Json)
    ensures EnvArgs(r) == Some(("next", args))
  {
    var e := map["next" := Arr(args)];
    assert e.Keys == {"next"};
    Obj(map["env" := Obj(e)])
  }

  /** Reads the neighbour constraint back: which side, and its arguments. */
  function EnvArgs(j: Json): Option<(string, seq<Json>)> {
    if j.Obj? && "env" in j.fields && j.fields["env"].Obj? then
      var e := j.fields["env"].fields;
      if e.Keys == {"prev"} && e["prev"].Arr? then Some(("prev", e["prev"].items))
      else if e.Keys == {"next"} && e["next"].Arr? then Some(("next", e["next"].items))
      else None
    else None
  }

  /** A `before` constraint is never an `after` one. */
  lemma {:induction false} BeforeIsNotAfter(prev: seq<Json>, next: seq<Json>)
    ensures Before(prev) != After(next)
  {
    assert EnvArgs(Before(prev)).value.0 != EnvArgs(After(next)).value.0;
  }

  // ----- processPack -----

  datatype Rule = Rule(forSpec: Json, into: Into)

  /** A child of a pack: a rule set with its named constraints (each given by
      what calling it returns), or a nested pack. */
  datatype Child =
    | Ruleset(rules: map<string, Rule>, constraints: map<string, Json>)
    | SubPack(pack: Pack)

  /** A pack: its children, its specs, and its `source` alphabet, given by
      what that alphabet's helpers make each spec and env callback return. */
  datatype Pack = Pack(children: map<string, Child>, specs: Json, source: Callbacks)

  /** A `{for, into}` pair given to a constraint. */
  datatype ForInto = ForInto(forSpec: Json, into: Json)

  /** A processed child: what a rule set passes to the user's function (`is`
      and `when`), or a processed nested pack. */
  datatype Processed =
    | Rules(isEntries: map<string, IntoTree>, whenEntries: map<string, Json>)
    | Packed(children: map<string, Processed>)

  /** `{match: 'all', value: [a, b]}` */
  function AllOf(a: Json, b: Json): (r: Json)
    ensures IsMatchNode(r) && Items(r) == [a, b] && r.fields["match"] == Str("all")
  {
    MatchNode(Str("all"), [a, b])
  }

  /** A `when` entry applied to its arguments: each argument's `for` is
      joined with the constraint under `all`, its `into` kept. */
  function When(constraint: Json, args: seq<ForInto>): (r: seq<ForInto>)
    ensures |r| == |args|
    ensures forall i :: 0 <= i < |args| ==>
      r[i].into == args[i].into && r[i].forSpec == AllOf(args[i].forSpec, constraint)
  {
    seq(|args|, i requires 0 <= i < |args| => ForInto(AllOf(args[i].forSpec, constraint), args[i].into))
  }

  /** The first operand of each `for`: undoes `When`. */
  function Unwhen(r: seq<ForInto>): seq<ForInto> {
    seq(|r|, i requires 0 <= i < |r| =>
      ForInto(if IsMatchNode(r[i].forSpec) && |Items(r[i].forSpec)| > 0 then Items(r[i].forSpec)[0] else Undefined,
              r[i].into))
  }

  lemma {:induction false} WhenRoundTrip(constraint: Json, args: seq<ForInto>)
    ensures Unwhen(When(constraint, args)) == args
  {
    var r := When(constraint, args);
    forall i | 0 <= i < |args|
      ensures Unwhen(r)[i] == args[i]
    {
      assert Items(r[i].forSpec)[0] == args[i].forSpec;
    }
  }

  /** What a pack's spec walk needs: its own specs and every rule's `for`. */
  predicate PackOk(p: Pack)
    decreases p
  {
    && UnfuncOk(p.specs)
    && forall k :: k in p.children ==>
      match p.children[k]
      case Ruleset(rules, _) => forall n :: n in rules ==> UnfuncOk(rules[n].forSpec)
      case SubPack(q) => PackOk(q)
  }

  /** The `is` record of a rule set: each rule's target converted with its
      `for` joined to the pack's specs. */
  function IsOf(rules: map<string, Rule>, specs: Json, cb: Callbacks): (r: map<string, IntoTree>)
    requires UnfuncOk(specs) && forall n :: n in rules ==> UnfuncOk(rules[n].forSpec)
    ensures r.Keys == rules.Keys
  {
    map n | n in rules :: IntoToFunc(rules[n].into, AllOf(rules[n].forSpec, specs), cb)
  }

  /** `processPack`: every child keeps its key; a rule set becomes its `is`
      and `when` records, built with this pack's specs and source; a nested
      pack is processed as a pack of its own, with its own specs and source. */
  function ProcessPack(p: Pack): (r: map<string, Processed>)
    requires PackOk(p)
    ensures r.Keys == p.children.Keys
    ensures forall k :: k in p.children && p.children[k].Ruleset? ==>
      r[k].Rules? && r[k].isEntries.Keys == p.children[k].rules.Keys && r[k].whenEntries == p.children[k].constraints
    ensures forall k :: k in p.children && p.children[k].SubPack? ==>
      r[k].Packed? && r[k].children.Keys == p.children[k].pack.children.Keys
    decreases p
  {
    map k | k in p.children ::
      match p.children[k]
      case Ruleset(rules, constraints) => Rules(IsOf(rules, p.specs, p.source), constraints)
      case SubPack(q) => Packed(ProcessPack(q))
  }

  /** The walk of `all[a, b]` is `all` over the walks of `a` and of `b`. */
  lemma {:induction false} AllOfWalk(a: Json, b: Json, cb: Callbacks)
    requires UnfuncOk(a) && UnfuncOk(b)
    ensures UnfuncOk(AllOf(a, b))
    ensures Items(UnfuncSpec(AllOf(a, b), cb)) == [UnfuncSpec(a, cb), UnfuncSpec(b, cb)]
  {
    var u := UnfuncSpec(AllOf(a, b), cb);
    assert Items(u)[0] == UnfuncSpec(a, cb);
    assert Items(u)[1] == UnfuncSpec(b, cb);
  }

  /** The `is` entry of rule `n` in the rule set at key `k`. */
  lemma RulesetEntry(p: Pack, k: string, n: string)
    requires PackOk(p) && k in p.children && p.children[k].Ruleset? && n in p.children[k].rules
    ensures var rule := p.children[k].rules[n];
      UnfuncOk(AllOf(rule.forSpec, p.specs))
      && ProcessPack(p)[k].isEntries[n] == IntoToFunc(rule.into, AllOf(rule.forSpec, p.specs), p.source)
  {
  }

  /** Every leaf of a rule's `is` entry pairs the target list with the walk,
      under the pack's own source, of `all[rule.for, pack.specs]`: a match
      node tagged `all` whose two operands are the walks of the rule's `for`
      and of the pack's specs. */
  lemma {:induction false} RuleLeaves(p: Pack, k: string, n: string)
    requires PackOk(p) && k in p.children && p.children[k].Ruleset? && n in p.children[k].rules
    ensures var rule := p.children[k].rules[n];
      var t := ProcessPack(p)[k].isEntries[n];
      && SameShape(rule.into, t)
      && LeavesFor(t, UnfuncSpec(AllOf(rule.forSpec, p.specs), p.source))
      && Items(UnfuncSpec(AllOf(rule.forSpec, p.specs), p.source))
         == [UnfuncSpec(rule.forSpec, p.source), UnfuncSpec(p.specs, p.source)]
  {
    var rule := p.children[k].rules[n];
    RulesetEntry(p, k, n);
    AllOfWalk(rule.forSpec, p.specs, p.source);
  }

  /** A nested pack is processed with its own specs and its own `source`,
      not its parent's: each rule's `is` entry inside it is the one the
      nested pack gives on its own, and its leaves carry the walk, under the
      nested pack's `source`, of `all[rule.for, nested.specs]`. */
  lemma {:induction false} NestedPackLeaves(p: Pack, k: string, k2: string, n: string)
    requires PackOk(p) && k in p.children && p.children[k].SubPack?
    requires var q := p.children[k].pack;
      k2 in q.children && q.children[k2].Ruleset? && n in q.children[k2].rules
    ensures var q := p.children[k].pack;
      var rule := q.children[k2].rules[n];
      var t := ProcessPack(p)[k].children[k2].isEntries[n];
      && t == ProcessPack(q)[k2].isEntries[n]
      && SameShape(rule.into, t)
      && LeavesFor(t, UnfuncSpec(AllOf(rule.forSpec, q.specs), q.source))
  {
    var q := p.children[k].pack;
    assert ProcessPack(p)[k] == Packed(ProcessPack(q));
    RuleLeaves(q, k2, n);
  }
}
