/** The in-place edits the participle builder makes to a word before its suffix
    is attached (src/backend/conversion/initializers/pp.js, lines 10-79).

    A word under construction (`base`) is a list of syllables and a syllable a
    list of segments. `lastOf(x)` is the last element of `x`, and
    `lastOf(x, 1)` is taken to be the one before it. Reading a field of an
    element that is not there is a TypeError in the source; every edit below
    states exactly when that happens, and in that case the edit changes
    nothing, since each of them reads before it writes. */
module Syllables {
  import opened Wrappers
  import opened Segments

  type Syllable = seq<Segment>

  function LastOf<T>(s: seq<T>): T
    requires |s| > 0
  {
    s[|s| - 1]
  }

  /** The segment `aa` that `fixAy` puts in place of `-ay`. */
  const AA := VowelOf("aa", AaEntry)

  /** The glide `y` that one iy strategy adds in a syllable of its own. */
  const Y := ConsonantOf("y", YEntry)

  /** `x.meta.weak`: only a consonant can be weak; a vowel's `meta` has no
      `weak` field, which reads as false. */
  predicate IsWeak(x: Segment) {
    x.Consonant? && x.weak
  }

  /** Consonants and vowels carry a `meta` record; the other segment kinds do
      not, so reading `meta.weak` from them is a TypeError. */
  predicate HasMeta(x: Segment) {
    x.Consonant? || x.Vowel?
  }

  /** The number of segments in a word, over all its syllables. */
  function Total(w: seq<Syllable>): nat
  {
    if w == [] then 0 else Total(w[..|w| - 1]) + |LastOf(w)|
  }

  lemma {:induction false} TotalAppend(a: seq<Syllable>, b: seq<Syllable>)
    ensures Total(a + b) == Total(a) + Total(b)
    decreases |b|
  {
    if b == [] {
      assert a + b == a;
    } else {
      var front := b[..|b| - 1];
      assert (a + b)[..|a + b| - 1] == a + front;
      assert LastOf(a + b) == LastOf(b);
      TotalAppend(a, front);
    }
  }

  // ----- pushSuffix -----

  /** `pushSuffix(suffix)(base)`: the suffix's segments go at the end of the
      last syllable. */
  function PushedSuffix(w: seq<Syllable>, suffix: seq<Segment>): (r: seq<Syllable>)
    requires |w| > 0
    ensures |r| == |w|
    ensures forall i :: 0 <= i < |w| - 1 ==> r[i] == w[i]
    ensures LastOf(r) == LastOf(w) + suffix
  {
    w[..|w| - 1] + [LastOf(w) + suffix]
  }

  /** Pushing a suffix adds exactly its segments and no syllable. */
  lemma {:induction false} PushSuffixCounts(w: seq<Syllable>, suffix: seq<Segment>)
    requires |w| > 0
    ensures |PushedSuffix(w, suffix)| == |w|
    ensures Total(PushedSuffix(w, suffix)) == Total(w) + |suffix|
  {
    var r := PushedSuffix(w, suffix);
    assert r[..|r| - 1] == w[..|w| - 1];
  }

  // ----- bumpLastConsonant -----

  /** Whether `bumpLastConsonant` moves a segment: the last segment of the last
      syllable is a consonant. */
  predicate EndsInConsonant(w: seq<Syllable>)
    requires |w| > 0 && |LastOf(w)| > 0
  {
    LastOf(LastOf(w)).Consonant?
  }

  /** `bumpLastConsonant`: the last consonant of the last syllable is popped
      into a new final syllable of its own; when the last segment is not a
      consonant an empty syllable is appended instead. */
  function Bumped(w: seq<Syllable>): (r: seq<Syllable>)
    requires |w| > 0 && |LastOf(w)| > 0
    ensures |r| == |w| + 1
    ensures EndsInConsonant(w) ==>
      && r[..|w| - 1] == w[..|w| - 1]
      && r[|w| - 1] == LastOf(w)[..|LastOf(w)| - 1]
      && LastOf(r) == [LastOf(LastOf(w))]
    ensures !EndsInConsonant(w) ==> r[..|w|] == w && LastOf(r) == []
  {
    var last := LastOf(w);
    if EndsInConsonant(w) then
      w[..|w| - 1] + [last[..|last| - 1]] + [[LastOf(last)]]
    else
      w + [[]]
  }

  /** Bumping adds one syllable and keeps every segment: the total segment
      count is unchanged. */
  lemma {:induction false} BumpKeepsSegments(w: seq<Syllable>)
    requires |w| > 0 && |LastOf(w)| > 0
    ensures |Bumped(w)| == |w| + 1
    ensures Total(Bumped(w)) == Total(w)
  {
    var r := Bumped(w);
    var front := w[..|w| - 1];
    var last := LastOf(w);
    assert w == front + [last];
    if EndsInConsonant(w) {
      assert r == front + [last[..|last| - 1]] + [[LastOf(last)]];
      TotalAppend(front + [last[..|last| - 1]], [[LastOf(last)]]);
      TotalAppend(front, [last[..|last| - 1]]);
      TotalAppend(front, [last]);
    } else {
      TotalAppend(w, [[]]);
    }
  }

  // ----- fixAy -----

  /** When `fixAy` can run: there is a last syllable with a segment before its
      last one, and when that segment is `a` the last segment has a `meta`. */
  predicate FixAyDefined(w: seq<Syllable>) {
    && |w| > 0
    && |LastOf(w)| >= 2
    && (LastOf(w)[|LastOf(w)| - 2].value == "a" ==> HasMeta(LastOf(LastOf(w))))
  }

  /** The syllable ends in `a` followed by a weak segment. */
  predicate EndsInAy(s: Syllable)
    requires |s| >= 2
  {
    s[|s| - 2].value == "a" && IsWeak(s[|s| - 1])
  }

  /** `fixAy`: a last syllable ending in `-ay` has those two segments replaced
      by the single vowel `aa`; otherwise nothing changes. */
  function AyFixed(w: seq<Syllable>): (r: seq<Syllable>)
    requires FixAyDefined(w)
    ensures |r| == |w| && r[..|w| - 1] == w[..|w| - 1]
    ensures EndsInAy(LastOf(w)) ==>
      && |LastOf(r)| == |LastOf(w)| - 1
      && LastOf(r)[..|LastOf(r)| - 1] == LastOf(w)[..|LastOf(w)| - 2]
      && LastOf(LastOf(r)) == AA
    ensures !EndsInAy(LastOf(w)) ==> r == w
  {
    var last := LastOf(w);
    if EndsInAy(last) then w[..|w| - 1] + [last[..|last| - 2] + [AA]] else w
  }

  /** `fixAy` removes one segment when it fires and none otherwise. */
  lemma {:induction false} FixAyCounts(w: seq<Syllable>)
    requires FixAyDefined(w)
    ensures Total(AyFixed(w)) == Total(w) - (if EndsInAy(LastOf(w)) then 1 else 0)
  {
    var front := w[..|w| - 1];
    var r := AyFixed(w);
    assert w == front + [LastOf(w)];
    assert r == front + [LastOf(r)];
    TotalAppend(front, [LastOf(w)]);
    TotalAppend(front, [LastOf(r)]);
  }

  /** A second `fixAy` changes nothing, as long as the first left at least two
      segments in the last syllable (the vowel `aa` is never weak). */
  lemma {:induction false} FixAyIdempotent(w: seq<Syllable>)
    requires FixAyDefined(w)
    requires EndsInAy(LastOf(w)) ==> |LastOf(w)| >= 3
    ensures FixAyDefined(AyFixed(w))
    ensures AyFixed(AyFixed(w)) == AyFixed(w)
  {
    var r := AyFixed(w);
    if EndsInAy(LastOf(w)) {
      assert LastOf(LastOf(r)) == AA;
      assert !IsWeak(AA) && HasMeta(AA);
    }
  }

  /** When the last syllable is exactly `a` and a weak consonant, `fixAy`
      leaves it as the single segment `aa`, and a second `fixAy` would read a
      segment that is not there. */
  lemma {:induction false} FixAyTwiceOnShortSyllable(w: seq<Syllable>)
    requires |w| > 0 && |LastOf(w)| == 2 && FixAyDefined(w) && EndsInAy(LastOf(w))
    ensures LastOf(AyFixed(w)) == [AA]
    ensures !FixAyDefined(AyFixed(w))
  {
    var r := AyFixed(w);
    assert LastOf(r)[..0] == [];
  }

  // ----- the two iy-specific strategies -----

  /** `lastOf(base).value.splice(-2)` then an empty syllable: the last two
      segments of the last syllable (all of them if it has fewer) are removed
      and an empty syllable is appended. */
  function Dropped(w: seq<Syllable>): (r: seq<Syllable>)
    requires |w| > 0
    ensures |r| == |w| + 1 && r[..|w| - 1] == w[..|w| - 1] && LastOf(r) == []
    ensures r[|w| - 1] == LastOf(w)[..if |LastOf(w)| >= 2 then |LastOf(w)| - 2 else 0]
  {
    var last := LastOf(w);
    w[..|w| - 1] + [last[..if |last| >= 2 then |last| - 2 else 0]] + [[]]
  }

  /** Dropping removes two segments, or every segment of a shorter last
      syllable. */
  lemma {:induction false} DropCounts(w: seq<Syllable>)
    requires |w| > 0
    ensures Total(Dropped(w)) == Total(w) - (if |LastOf(w)| >= 2 then 2 else |LastOf(w)|)
  {
    var front := w[..|w| - 1];
    var last := LastOf(w);
    var kept := last[..if |last| >= 2 then |last| - 2 else 0];
    assert w == front + [last];
    assert Dropped(w) == front + [kept] + [[]];
    TotalAppend(front + [kept], [[]]);
    TotalAppend(front, [kept]);
    TotalAppend(front, [last]);
  }

  /** `base.push(newSyllable([Y]))`: a new final syllable holding `y`. */
  function Glided(w: seq<Syllable>): (r: seq<Syllable>)
    ensures |r| == |w| + 1 && r[..|w|] == w && LastOf(r) == [Y]
  {
    w + [[Y]]
  }

  // ----- the edits as data -----

  /** One edit a pre-transform list may hold. */
  datatype Step =
    | FixAyStep
    | BumpStep
    | DropStep
    | GlideStep
    | PushStep(suffix: seq<Segment>)

  /** When an edit reads only what is there. */
  predicate StepDefined(w: seq<Syllable>, s: Step) {
    match s
    case FixAyStep => FixAyDefined(w)
    case BumpStep => |w| > 0 && |LastOf(w)| > 0
    case DropStep => |w| > 0
    case GlideStep => true
    case PushStep(_) => |w| > 0
  }

  /** The word after one edit, or `None` for the TypeError. */
  function AfterStep(w: seq<Syllable>, s: Step): (r: Option<seq<Syllable>>)
    ensures r.None? <==> !StepDefined(w, s)
  {
    if !StepDefined(w, s) then None
    else match s
      case FixAyStep => Some(AyFixed(w))
      case BumpStep => Some(Bumped(w))
      case DropStep => Some(Dropped(w))
      case GlideStep => Some(Glided(w))
      case PushStep(suffix) => Some(PushedSuffix(w, suffix))
  }

  /** A pre-transform list: a missing entry (`null`, `false`) is skipped. */
  type Pipeline = seq<Option<Step>>

  /** The word after every entry of a pipeline, in order; `None` once an edit
      fails. A pipeline of missing entries only leaves the word as it is. */
  function AfterPipeline(w: seq<Syllable>, p: Pipeline): (r: Option<seq<Syllable>>)
    ensures (forall i :: 0 <= i < |p| ==> p[i].None?) ==> r == Some(w)
    decreases |p|
  {
    if p == [] then Some(w)
    else if p[0].None? then AfterPipeline(w, p[1..])
    else
      match AfterStep(w, p[0].value)
      case None => None
      case Some(w') => AfterPipeline(w', p[1..])
  }

  /** Running two pipelines one after the other is running their
      concatenation: the second starts from what the first leaves, and a
      failure in the first is a failure of the whole. */
  lemma {:induction false} AfterPipelineAppend(w: seq<Syllable>, a: Pipeline, b: Pipeline)
    ensures AfterPipeline(w, a + b) ==
      match AfterPipeline(w, a)
      case None => None
      case Some(v) => AfterPipeline(v, b)
    decreases |a|
  {
    if a == [] {
      assert a + b == b;
    } else {
      assert (a + b)[1..] == a[1..] + b;
      if a[0].None? {
        AfterPipelineAppend(w, a[1..], b);
      } else if AfterStep(w, a[0].value).Some? {
        AfterPipelineAppend(AfterStep(w, a[0].value).value, a[1..], b);
      }
    }
  }

  /** A word being built, edited in place. */
  class Base {
    var syllables: seq<Syllable>

    constructor (s: seq<Syllable>)
      ensures syllables == s
    {
      syllables := s;
    }

    /** `pushSuffix(suffix)(base)` */
    method PushSuffix(suffix: seq<Segment>) returns (ok: bool)
      modifies this
      ensures ok <==> |old(syllables)| > 0
      ensures syllables == if ok then PushedSuffix(old(syllables), suffix) else old(syllables)
    {
      if |syllables| == 0 {
        return false;
      }
      var last := LastOf(syllables);
      syllables := syllables[..|syllables| - 1] + [last + suffix];
      ok := true;
    }

    /** `bumpLastConsonant(base)`: pop, then push. */
    method BumpLastConsonant() returns (ok: bool)
      modifies this
      ensures ok <==> |old(syllables)| > 0 && |LastOf(old(syllables))| > 0
      ensures syllables == if ok then Bumped(old(syllables)) else old(syllables)
    {
      if |syllables| == 0 || |LastOf(syllables)| == 0 {
        return false;
      }
      var last := LastOf(syllables);
      if LastOf(last).Consonant? {
        var popped := LastOf(last);
        syllables := syllables[..|syllables| - 1] + [last[..|last| - 1]];
        syllables := syllables + [[popped]];
      } else {
        syllables := syllables + [[]];
      }
      ok := true;
    }

    /** `fixAy(base)`: `splice(-2, 2, AA)` on the last syllable. */
    method FixAy() returns (ok: bool)
      modifies this
      ensures ok <==> FixAyDefined(old(syllables))
      ensures syllables == if ok then AyFixed(old(syllables)) else old(syllables)
    {
      if |syllables| == 0 || |LastOf(syllables)| < 2 {
        return false;
      }
      var last := LastOf(syllables);
      if last[|last| - 2].value == "a" {
        if !HasMeta(LastOf(last)) {
          return false;
        }
        if IsWeak(LastOf(last)) {
          syllables := syllables[..|syllables| - 1] + [last[..|last| - 2] + [AA]];
        }
      }
      ok := true;
    }

    /** The plural iy strategy that drops `-I.y`: `splice(-2)`, then an empty
        syllable. */
    method DropWeakFinal() returns (ok: bool)
      modifies this
      ensures ok <==> |old(syllables)| > 0
      ensures syllables == if ok then Dropped(old(syllables)) else old(syllables)
    {
      if |syllables| == 0 {
        return false;
      }
      var last := LastOf(syllables);
      var cut := if |last| >= 2 then |last| - 2 else 0;
      syllables := syllables[..|syllables| - 1] + [last[..cut]];
      syllables := syllables + [[]];
      ok := true;
    }

    /** The iy strategy that adds a syllable `y`. */
    method PushGlide()
      modifies this
      ensures syllables == Glided(old(syllables))
    {
      syllables := syllables + [[Y]];
    }

    /** One edit, by kind. */
    method Apply(s: Step) returns (ok: bool)
      modifies this
      ensures ok == AfterStep(old(syllables), s).Some?
      ensures syllables == if ok then AfterStep(old(syllables), s).value else old(syllables)
    {
      match s
      case FixAyStep => ok := FixAy();
      case BumpStep => ok := BumpLastConsonant();
      case DropStep => ok := DropWeakFinal();
      case GlideStep => PushGlide(); ok := true;
      case PushStep(suffix) => ok := PushSuffix(suffix);
    }

    /** Every entry of a pipeline in turn, skipping the missing ones; stops at
        the first edit that fails. */
    method Run(p: Pipeline) returns (ok: bool)
      modifies this
      ensures ok == AfterPipeline(old(syllables), p).Some?
      ensures ok ==> syllables == AfterPipeline(old(syllables), p).value
    {
      var i := 0;
      ok := true;
      while i < |p| && ok
        invariant 0 <= i <= |p|
        invariant ok ==> AfterPipeline(old(syllables), p) == AfterPipeline(syllables, p[i..])
        invariant !ok ==> AfterPipeline(old(syllables), p).None?
      {
        assert p[i..][1..] == p[i + 1..];
        if p[i].Some? {
          ok := Apply(p[i].value);
        }
        i := i + 1;
      }
    }
  }
}
