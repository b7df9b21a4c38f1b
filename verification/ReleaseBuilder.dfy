/** Assembling a component release: canonical traits, required traits, the component profile. */
module ReleaseBuilder {
  import opened Sequences

  const TRAIT := "Trait"
  const CLUSTER_TRAIT := "ClusterTrait"
  const COMPONENT_TYPE := "ComponentType"

  datatype Entry<S> = Entry(kind: string, name: string, spec: S)

  datatype TraitRef = TraitRef(kind: string, name: string)

  datatype ComponentTrait = ComponentTrait(kind: string, name: string, instanceName: string, parameters: Option<string>)

  datatype Component = Component(name: string, project: string, parameters: Option<string>, traits: seq<ComponentTrait>)

  datatype ComponentType = ComponentType(kind: string, name: string, traits: seq<TraitRef>)

  datatype Input<S> = Input(component: Option<Component>, componentType: ComponentType,
                            traits: map<string, S>, clusterTraits: map<string, S>, workload: Option<string>)

  datatype Profile = Profile(parameters: Option<string>, traits: seq<ComponentTrait>)

  datatype Release<S> = Release(project: string, component: string, componentType: ComponentType,
                                traits: seq<Entry<S>>, profile: Option<Profile>, workload: string)

  datatype Problem = NoComponent | NoTypeName | NoWorkload | MissingEmbedded(name: string) | MissingTrait(name: string)

  datatype Built<S> = Ok(release: Release<S>) | Failed(problem: Problem)

  // ----- the order of entries ------------------------------------------------------------------------------

  /** Lexicographic order of strings. */
  predicate Less(a: string, b: string)
    decreases |a|
  {
    b != [] && (a == [] || a[0] < b[0] || (a[0] == b[0] && Less(a[1..], b[1..])))
  }

  lemma {:induction false} LessTrans(a: string, b: string, c: string)
    requires Less(a, b) && Less(b, c)
    ensures Less(a, c)
    decreases |a|
  {
    if a != [] && a[0] == b[0] == c[0] { LessTrans(a[1..], b[1..], c[1..]); }
  }

  lemma {:induction false} LessTotal(a: string, b: string)
    ensures Less(a, b) || Less(b, a) || a == b
    ensures Less(a, b) ==> !Less(b, a) && a != b
    decreases |a|
  {
    if a != [] && b != [] && a[0] == b[0] {
      LessTotal(a[1..], b[1..]);
      assert a == [a[0]] + a[1..] && b == [b[0]] + b[1..];
    }
  }

  /** By kind, then by name. */
  predicate Before<S>(e: Entry<S>, f: Entry<S>) {
    if e.kind != f.kind then Less(e.kind, f.kind) else Less(e.name, f.name)
  }

  ghost predicate SameKey<S>(e: Entry<S>, f: Entry<S>) {
    e.kind == f.kind && e.name == f.name
  }

  lemma BeforeTrans<S>(e: Entry<S>, f: Entry<S>, g: Entry<S>)
    requires Before(e, f) && Before(f, g)
    ensures Before(e, g)
  {
    if e.kind == f.kind == g.kind {
      LessTrans(e.name, f.name, g.name);
    } else if e.kind != f.kind && f.kind != g.kind {
      LessTrans(e.kind, f.kind, g.kind);
      LessTotal(e.kind, f.kind);
    }
  }

  lemma BeforeTotal<S>(e: Entry<S>, f: Entry<S>)
    ensures Before(e, f) || Before(f, e) || SameKey(e, f)
    ensures Before(e, f) ==> !Before(f, e) && !SameKey(e, f)
  {
    LessTotal(e.kind, f.kind);
    LessTotal(e.name, f.name);
  }

  /** Strictly sorted, so no kind and name occur twice. */
  ghost predicate Sorted<S(!new)>(es: seq<Entry<S>>) {
    forall i, j :: 0 <= i < j < |es| ==> Before(es[i], es[j])
  }

  lemma HasMember<S(!new)>(es: seq<Entry<S>>)
    ensures es == [] || exists e :: e in es
  {
    if es != [] { assert es[0] in es; }
  }

  /** A strictly sorted sequence is determined by its elements. */
  lemma {:induction false} SortedUnique<S(!new)>(a: seq<Entry<S>>, b: seq<Entry<S>>)
    requires Sorted(a) && Sorted(b)
    requires forall e :: e in a <==> e in b
    ensures a == b
    decreases |a|
  {
    if a == [] {
      HasMember(b);
    } else {
      assert a[0] in a;
      SameHead(a, b);
      forall e ensures e in a[1..] <==> e in b[1..] {
        TailMember(a, e);
        TailMember(b, e);
      }
      SortedUnique(a[1..], b[1..]);
    }
  }

  lemma SameHead<S(!new)>(a: seq<Entry<S>>, b: seq<Entry<S>>)
    requires Sorted(a) && Sorted(b) && a != []
    requires forall e :: e in a <==> e in b
    ensures b != [] && a[0] == b[0]
  {
    assert a[0] in a;
    assert b[0] in b;
    var i :| 0 <= i < |b| && b[i] == a[0];
    var j :| 0 <= j < |a| && a[j] == b[0];
    BeforeTotal(a[0], b[0]);
  }

  lemma TailMember<S(!new)>(a: seq<Entry<S>>, e: Entry<S>)
    requires Sorted(a) && a != []
    ensures e in a[1..] <==> e in a && e != a[0]
  {
    BeforeTotal(a[0], a[0]);
    assert forall i :: 1 <= i < |a| ==> Before(a[0], a[i]) && a[i] == a[1..][i - 1];
  }

  // ----- merging -----------------------------------------------------------------------------------------------

  /** The entry belongs to the release: it is in the map of its kind. */
  ghost predicate Listed<S>(traits: map<string, S>, clusterTraits: map<string, S>, e: Entry<S>) {
    || (e.kind == TRAIT && e.name in traits && e.spec == traits[e.name])
    || (e.kind == CLUSTER_TRAIT && e.name in clusterTraits && e.spec == clusterTraits[e.name])
  }

  /** Exactly the traits of both maps, strictly sorted by kind and name. */
  ghost predicate Canonical<S(!new)>(traits: map<string, S>, clusterTraits: map<string, S>, es: seq<Entry<S>>) {
    Sorted(es) && forall e :: e in es <==> Listed(traits, clusterTraits, e)
  }

  /** Whatever order the maps are iterated in, the slice is the same. */
  lemma CanonicalUnique<S(!new)>(traits: map<string, S>, clusterTraits: map<string, S>, a: seq<Entry<S>>, b: seq<Entry<S>>)
    requires Canonical(traits, clusterTraits, a) && Canonical(traits, clusterTraits, b)
    ensures a == b
  {
    SortedUnique(a, b);
  }

  /** No two elements share kind and name. */
  ghost predicate Keyed<S>(es: seq<Entry<S>>) {
    forall i, j :: 0 <= i < j < |es| ==> !SameKey(es[i], es[j])
  }

  /** Entries of one kind, in whatever order the map yields its names. */
  method Collect<S(!new)>(kind: string, specs: map<string, S>) returns (es: seq<Entry<S>>)
    ensures Keyed(es)
    ensures forall e :: e in es <==> e.kind == kind && e.name in specs && e.spec == specs[e.name]
  {
    es := [];
    var todo := specs.Keys;
    while todo != {}
      invariant todo <= specs.Keys && Keyed(es)
      invariant forall e :: e in es <==> e.kind == kind && e.name in specs - todo && e.spec == specs[e.name]
      decreases |todo|
    {
      var name :| name in todo;
      assert forall i :: 0 <= i < |es| ==> es[i] in es;
      es := es + [Entry(kind, name, specs[name])];
      todo := todo - {name};
    }
  }

  method Insert<S(!new)>(es: seq<Entry<S>>, e: Entry<S>) returns (out: seq<Entry<S>>)
    requires Sorted(es) && forall i :: 0 <= i < |es| ==> !SameKey(es[i], e)
    ensures Sorted(out) && forall x :: x in out <==> x in es || x == e
  {
    var k := 0;
    while k < |es| && Before(es[k], e)
      invariant 0 <= k <= |es|
      invariant forall j :: 0 <= j < k ==> Before(es[j], e)
    {
      k := k + 1;
    }
    forall j | k <= j < |es| ensures Before(e, es[j]) {
      BeforeTotal(es[k], e);
      if j > k { BeforeTrans(e, es[k], es[j]); }
    }
    out := es[..k] + [e] + es[k..];
    assert es == es[..k] + es[k..];
  }

  method Sort<S(!new)>(es: seq<Entry<S>>) returns (out: seq<Entry<S>>)
    requires Keyed(es)
    ensures Sorted(out) && forall e :: e in out <==> e in es
  {
    out := [];
    var i := 0;
    while i < |es|
      invariant 0 <= i <= |es| && Sorted(out)
      invariant forall e :: e in out <==> e in es[..i]
    {
      forall k | 0 <= k < |out| ensures !SameKey(out[k], es[i]) {
        assert out[k] in out;
        var j :| 0 <= j < i && es[j] == out[k];
      }
      out := Insert(out, es[i]);
      assert es[..i + 1] == es[..i] + [es[i]];
      i := i + 1;
    }
    assert es[..i] == es;
  }

  method MergeTraits<S(!new)>(traits: map<string, S>, clusterTraits: map<string, S>) returns (merged: seq<Entry<S>>)
    ensures Canonical(traits, clusterTraits, merged)
    ensures merged == [] <==> traits == map[] && clusterTraits == map[]
  {
    if |traits| + |clusterTraits| == 0 { return []; }
    var namespaced := Collect(TRAIT, traits);
    var clustered := Collect(CLUSTER_TRAIT, clusterTraits);
    forall i, j | 0 <= i < |namespaced| && 0 <= j < |clustered| ensures !SameKey(namespaced[i], clustered[j]) {
      assert namespaced[i] in namespaced && clustered[j] in clustered;
    }
    merged := Sort(namespaced + clustered);
    CanonicalEmpty(traits, clusterTraits, merged);
  }

  lemma CanonicalEmpty<S(!new)>(traits: map<string, S>, clusterTraits: map<string, S>, es: seq<Entry<S>>)
    requires Canonical(traits, clusterTraits, es)
    ensures es == [] <==> traits == map[] && clusterTraits == map[]
  {
    if name :| name in traits { assert Entry(TRAIT, name, traits[name]) in es; }
    if name :| name in clusterTraits { assert Entry(CLUSTER_TRAIT, name, clusterTraits[name]) in es; }
    if es != [] { assert es[0] in es; }
  }

  // ----- looking up ----------------------------------------------------------------------------------------------

  /** The spec of the first entry with this kind and name. */
  method FindTraitSpec<S>(es: seq<Entry<S>>, kind: string, name: string) returns (spec: Option<S>)
    ensures spec == Find(es, kind, name)
  {
    var i := 0;
    while i < |es|
      invariant 0 <= i <= |es|
      invariant Find(es, kind, name) == Find(es[i..], kind, name)
    {
      if es[i].kind == kind && es[i].name == name { return Some(es[i].spec); }
      i := i + 1;
    }
    spec := None;
  }

  function Find<S>(es: seq<Entry<S>>, kind: string, name: string): Option<S> {
    if es == [] then None
    else if es[0].kind == kind && es[0].name == name then Some(es[0].spec)
    else Find(es[1..], kind, name)
  }

  lemma {:induction false} FindMeaning<S(!new)>(es: seq<Entry<S>>, kind: string, name: string)
    ensures Find(es, kind, name).Some? ==> Entry(kind, name, Find(es, kind, name).value) in es
    ensures Find(es, kind, name).None? ==> forall e :: e in es ==> !(e.kind == kind && e.name == name)
    decreases |es|
  {
    if es != [] { FindMeaning(es[1..], kind, name); }
  }

  /** The spec the maps hold for a kind and name. */
  function Held<S>(traits: map<string, S>, clusterTraits: map<string, S>, kind: string, name: string): Option<S> {
    if kind == TRAIT && name in traits then Some(traits[name])
    else if kind == CLUSTER_TRAIT && name in clusterTraits then Some(clusterTraits[name])
    else None
  }

  /** In a canonical slice a look-up gives what the map of that kind holds, even for a name in both maps. */
  lemma FindInCanonical<S(!new)>(traits: map<string, S>, clusterTraits: map<string, S>, es: seq<Entry<S>>, kind: string, name: string)
    requires Canonical(traits, clusterTraits, es)
    ensures Find(es, kind, name) == Held(traits, clusterTraits, kind, name)
  {
    FindMeaning(es, kind, name);
    var held := Held(traits, clusterTraits, kind, name);
    if held.Some? { assert Entry(kind, name, held.value) in es; }
  }

  // ----- building ------------------------------------------------------------------------------------------------

  predicate HasTraitByKind<S>(input: Input<S>, kind: string, name: string) {
    if kind == CLUSTER_TRAIT then name in input.clusterTraits else name in input.traits
  }

  function Defaulted(kind: string): string {
    if kind == "" then TRAIT else kind
  }

  /** One required trait is absent from the map of its kind, and it is the first such. */
  ghost predicate FirstMissing<S>(input: Input<S>, refs: seq<TraitRef>, name: string) {
    exists i :: 0 <= i < |refs| && refs[i].name == name && !HasTraitByKind(input, refs[i].kind, refs[i].name)
             && forall j :: 0 <= j < i ==> HasTraitByKind(input, refs[j].kind, refs[j].name)
  }

  ghost predicate AllPresent<S>(input: Input<S>, refs: seq<TraitRef>) {
    forall i :: 0 <= i < |refs| ==> HasTraitByKind(input, refs[i].kind, refs[i].name)
  }

  function Refs(traits: seq<ComponentTrait>): (refs: seq<TraitRef>)
    ensures |refs| == |traits|
    ensures forall i :: 0 <= i < |refs| ==> refs[i] == TraitRef(traits[i].kind, traits[i].name)
  {
    seq(|traits|, i requires 0 <= i < |traits| => TraitRef(traits[i].kind, traits[i].name))
  }

  method FindMissing<S>(input: Input<S>, refs: seq<TraitRef>) returns (missing: Option<string>)
    ensures match missing
            case None => AllPresent(input, refs)
            case Some(name) => FirstMissing(input, refs, name)
  {
    var i := 0;
    while i < |refs|
      invariant 0 <= i <= |refs|
      invariant forall j :: 0 <= j < i ==> HasTraitByKind(input, refs[j].kind, refs[j].name)
    {
      if !HasTraitByKind(input, refs[i].kind, refs[i].name) { return Some(refs[i].name); }
      i := i + 1;
    }
    missing := None;
  }

  /** Why a release cannot be built, in the order the checks are made. */
  ghost predicate Refused<S>(input: Input<S>, problem: Problem) {
    if input.component.None? then problem == NoComponent
    else if input.componentType.name == "" then problem == NoTypeName
    else if input.workload.None? then problem == NoWorkload
    else if !AllPresent(input, input.componentType.traits) then
      problem.MissingEmbedded? && FirstMissing(input, input.componentType.traits, problem.name)
    else problem.MissingTrait? && FirstMissing(input, Refs(input.component.value.traits), problem.name)
  }

  ghost predicate Buildable<S>(input: Input<S>) {
    && input.component.Some? && input.componentType.name != "" && input.workload.Some?
    && AllPresent(input, input.componentType.traits) && AllPresent(input, Refs(input.component.value.traits))
  }

  /** None without parameters and traits; otherwise every trait of the component in order, kinds defaulted. */
  ghost predicate IsProfile(c: Component, profile: Option<Profile>) {
    if c.parameters.None? && c.traits == [] then profile == None
    else profile.Some? && profile.value.parameters == c.parameters && |profile.value.traits| == |c.traits| &&
         forall i :: 0 <= i < |c.traits| ==> profile.value.traits[i] == c.traits[i].(kind := Defaulted(c.traits[i].kind))
  }

  method BuildProfile(c: Component) returns (profile: Option<Profile>)
    ensures IsProfile(c, profile)
  {
    if c.parameters.None? && |c.traits| == 0 { return None; }
    var traits: seq<ComponentTrait> := [];
    var i := 0;
    while i < |c.traits|
      invariant 0 <= i <= |c.traits| && |traits| == i
      invariant forall j :: 0 <= j < i ==> traits[j] == c.traits[j].(kind := Defaulted(c.traits[j].kind))
    {
      var kind := c.traits[i].kind;
      if kind == "" { kind := TRAIT; }
      traits := traits + [ComponentTrait(kind, c.traits[i].name, c.traits[i].instanceName, c.traits[i].parameters)];
      i := i + 1;
    }
    profile := Some(Profile(c.parameters, traits));
  }

  /** What a built release holds. */
  ghost predicate IsRelease<S(!new)>(input: Input<S>, r: Release<S>)
    requires Buildable(input)
  {
    var c := input.component.value;
    && r.project == c.project && r.component == c.name && r.workload == input.workload.value
    && r.componentType == input.componentType.(kind := if input.componentType.kind == "" then COMPONENT_TYPE else input.componentType.kind)
    && Canonical(input.traits, input.clusterTraits, r.traits)
    && IsProfile(c, r.profile)
  }

  method BuildSpec<S(!new)>(input: Input<S>) returns (r: Built<S>)
    ensures r.Ok? <==> Buildable(input)
    ensures r.Ok? ==> IsRelease(input, r.release)
    ensures r.Failed? ==> Refused(input, r.problem)
  {
    if input.component.None? { return Failed(NoComponent); }
    if input.componentType.name == "" { return Failed(NoTypeName); }
    if input.workload.None? { return Failed(NoWorkload); }
    var c := input.component.value;
    var missing := FindMissing(input, input.componentType.traits);
    if missing.Some? { return Failed(MissingEmbedded(missing.value)); }
    missing := FindMissing(input, Refs(c.traits));
    if missing.Some? { return Failed(MissingTrait(missing.value)); }
    var traits := MergeTraits(input.traits, input.clusterTraits);
    var componentType := input.componentType;
    if componentType.kind == "" { componentType := componentType.(kind := COMPONENT_TYPE); }
    var profile := BuildProfile(c);
    r := Ok(Release(c.project, c.name, componentType, traits, profile, input.workload.value));
  }

  /** There is one release for an input, whatever order its maps are iterated in. */
  lemma ReleaseUnique<S(!new)>(input: Input<S>, a: Release<S>, b: Release<S>)
    requires Buildable(input) && IsRelease(input, a) && IsRelease(input, b)
    ensures a == b
  {
    CanonicalUnique(input.traits, input.clusterTraits, a.traits, b.traits);
    if a.profile.Some? { assert a.profile.value.traits == b.profile.value.traits; }
  }

  /**
   A built release is closed: every trait of its profile is found among its traits, with the spec of
   the map it was checked against, exactly when the component gave it one of the known kinds.
   */
  lemma ReleaseClosed<S(!new)>(input: Input<S>, r: Release<S>, i: nat)
    requires Buildable(input) && IsRelease(input, r) && i < |input.component.value.traits|
    ensures var t := input.component.value.traits[i];
            && r.profile.Some? && i < |r.profile.value.traits| && r.profile.value.traits[i].name == t.name
            && var found := Find(r.traits, r.profile.value.traits[i].kind, t.name);
               && (found.Some? <==> t.kind in {"", TRAIT, CLUSTER_TRAIT})
               && (found.Some? ==> found.value == if t.kind == CLUSTER_TRAIT then input.clusterTraits[t.name] else input.traits[t.name])
  {
    var t := input.component.value.traits[i];
    assert Refs(input.component.value.traits)[i] == TraitRef(t.kind, t.name);
    FindInCanonical(input.traits, input.clusterTraits, r.traits, Defaulted(t.kind), t.name);
  }

  /** The same for the traits the component type requires, looked up as rendering does: only an empty kind is defaulted. */
  lemma EmbeddedClosed<S(!new)>(input: Input<S>, r: Release<S>, i: nat)
    requires Buildable(input) && IsRelease(input, r) && i < |input.componentType.traits|
    ensures var t := input.componentType.traits[i];
            var found := Find(r.traits, Defaulted(t.kind), t.name);
            && (found.Some? <==> t.kind in {"", TRAIT, CLUSTER_TRAIT})
            && (found.Some? ==> found.value == if t.kind == CLUSTER_TRAIT then input.clusterTraits[t.name] else input.traits[t.name])
  {
    var t := input.componentType.traits[i];
    FindInCanonical(input.traits, input.clusterTraits, r.traits, Defaulted(t.kind), t.name);
  }

  /** The checks accept unknown kinds against the namespaced traits, and those traits are then not found. */
  lemma UnknownKindNotFound(r: Release<nat>)
    ensures var c := Component("c", "p", None, [ComponentTrait("Other", "t", "i", None)]);
            var input := Input(Some(c), ComponentType("", "web", [TraitRef("Another", "t")]), map["t" := 0], map[], Some("w"));
            && Buildable(input)
            && (IsRelease(input, r) ==> Find(r.traits, "Other", "t") == None && Find(r.traits, "Another", "t") == None)
  {
    var c := Component("c", "p", None, [ComponentTrait("Other", "t", "i", None)]);
    var input := Input(Some(c), ComponentType("", "web", [TraitRef("Another", "t")]), map["t" := 0], map[], Some("w"));
    if IsRelease(input, r) {
      ReleaseClosed(input, r, 0);
      EmbeddedClosed(input, r, 0);
    }
  }

  // ----- the order, spelled out --------------------------------------------------------------------------------------

  /** `a` comes before `b`: they agree up to `k`, where `a` ends or has the smaller character. */
  ghost predicate Precedes(a: string, b: string, k: nat) {
    && k <= |a| && k < |b| && a[..k] == b[..k] && (k == |a| || a[k] < b[k])
  }

  lemma {:induction false} LessMeaning(a: string, b: string)
    ensures Less(a, b) <==> exists k: nat :: Precedes(a, b, k)
    decreases |a|
  {
    if a == [] {
      if b != [] { assert Precedes(a, b, 0); }
    } else if b != [] {
      LessMeaning(a[1..], b[1..]);
      if a[0] < b[0] { assert Precedes(a, b, 0); }
      if k: nat :| a[0] == b[0] && Precedes(a[1..], b[1..], k) {
        assert a[..k + 1] == [a[0]] + a[1..][..k] && b[..k + 1] == [b[0]] + b[1..][..k];
        assert Precedes(a, b, k + 1);
      }
      if k: nat :| Precedes(a, b, k) && k > 0 {
        assert a[0] == a[..k][0] && b[0] == b[..k][0];
        assert a[1..][..k - 1] == a[..k][1..] && b[1..][..k - 1] == b[..k][1..];
        assert Precedes(a[1..], b[1..], k - 1);
      }
    }
  }

  /** In a merged slice the cluster traits come first, and within a kind the names go up. */
  lemma CanonicalOrder<S(!new)>(traits: map<string, S>, clusterTraits: map<string, S>, es: seq<Entry<S>>, i: nat, j: nat)
    requires Canonical(traits, clusterTraits, es) && i < j < |es|
    ensures es[i].kind == es[j].kind ==> exists k: nat :: Precedes(es[i].name, es[j].name, k)
    ensures es[i].kind != es[j].kind ==> es[i].kind == "ClusterTrait" && es[j].kind == "Trait"
  {
    assert es[i] in es && es[j] in es && Before(es[i], es[j]);
    LessMeaning(es[i].name, es[j].name);
    assert !Less("Trait", "ClusterTrait");
  }
}
