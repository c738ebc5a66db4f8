/** Behavior manifests: durable actors, their schema versions and migrations,
    validation and normal form (src/behavior_manifest.rs). */
module Manifest {
  import opened Options
  import opened Sorting
  import opened Text
  import ContentIdentity

  const U32_MAX: nat := 0xFFFF_FFFF

  type u32 = n: nat | n <= 0xFFFF_FFFF

  datatype Persistence = Ephemeral | Durable | EventSourced | Crdt | Mixed

  datatype Event = Event(name: string, arity: nat)

  datatype Step = Step(from: u32, to: u32, state: bool, events: seq<Event>)

  datatype Actor = Actor(name: string, persistence: Persistence, version: u32, schemaId: string, migrations: seq<Step>)

  datatype Package = Package(name: string, version: string, language: string)

  datatype Artifact = Artifact(
    kind: string, digest: string, sourceId: Option<string>, semanticId: string, artifactId: string,
    compiler: string, target: string, abi: string, backend: string, flags: seq<string>)

  datatype Manifest = Manifest(schema: string, package: Package, artifact: Artifact, actors: seq<Actor>)

  const SCHEMA: string := "nulang.behavior/v0alpha1"
  const KIND: string := "nulang-bytecode-v1"

  /** The encoding of strings and the hash, both arbitrary. */
  datatype Codec = Codec(utf8: string -> ContentIdentity.Bytes, hash: ContentIdentity.Bytes -> ContentIdentity.Bytes)

  // ----- orders -----

  predicate EventLess(a: Event, b: Event) {
    StrLess(a.name, b.name) || (a.name == b.name && a.arity < b.arity)
  }

  predicate StepLess(a: Step, b: Step) { a.from < b.from || (a.from == b.from && a.to < b.to) }

  predicate ActorLess(a: Actor, b: Actor) { StrLess(a.name, b.name) }

  lemma {:induction false} Orders()
    ensures TotalOrder(StrLess) && TotalOrder(EventLess) && StrictOrder(StepLess) && StrictOrder(ActorLess)
  {
    hide StrLess;
    StrLessTotal();
  }

  // ----- validation -----

  datatype Problem =
    | UnsupportedSchema
    | InvalidPackage
    | UnsupportedKind
    | InvalidDigest
    | InvalidIdentity(field: string)
    | IdentityMismatch
    | DuplicateActor(actor: string)
    | ZeroVersion(actor: string)
    | BadSchemaId(actor: string)
    | BadStep(actor: string, from: nat, to: nat)
    | StepTooHigh(actor: string, from: nat, to: nat)
    | DuplicateOrigin(actor: string, from: nat)
    | MissingStep(actor: string, from: nat)

  function Saturate(n: u32): u32 { if n < U32_MAX then n + 1 else U32_MAX }

  predicate IsId(s: string) { ContentIdentity.ParseHash(s).Some? }

  predicate StepOk(a: Actor, i: nat)
    requires i < |a.migrations|
  {
    var step := a.migrations[i];
    step.from != 0 && step.to == Saturate(step.from) && step.to <= a.version
  }

  predicate OriginsDistinct(steps: seq<Step>) {
    forall i, j :: 0 <= i < j < |steps| ==> steps[i].from != steps[j].from
  }

  predicate HasOrigin(steps: seq<Step>, from: nat) { exists i :: 0 <= i < |steps| && steps[i].from == from }

  predicate ActorOk(a: Actor) {
    && a.version != 0 && IsId(a.schemaId)
    && (forall i :: 0 <= i < |a.migrations| ==> StepOk(a, i))
    && OriginsDistinct(a.migrations)
    && (forall v :: 1 <= v < a.version ==> HasOrigin(a.migrations, v))
  }

  predicate NamesDistinct(actors: seq<Actor>) {
    forall i, j :: 0 <= i < j < |actors| ==> actors[i].name != actors[j].name
  }

  predicate DigestOk(s: string) {
    |s| == 71 && s[..7] == "blake3:" && forall i :: 7 <= i < 71 ==> ContentIdentity.HexValue(s[i]).Some?
  }

  predicate IdentitiesParse(a: Artifact) { IsId(a.semanticId) && IsId(a.artifactId) && (a.sourceId.Some? ==> IsId(a.sourceId.value)) }

  function Encoded(flags: seq<string>, codec: Codec): seq<ContentIdentity.Bytes> {
    seq(|flags|, i requires 0 <= i < |flags| => codec.utf8(flags[i]))
  }

  /** What the artifact identity is recomputed from. */
  function ConfigOf(a: Artifact, codec: Codec): ContentIdentity.Config
    requires IdentitiesParse(a)
  {
    ContentIdentity.Config(ContentIdentity.ParseHash(a.semanticId).value, codec.utf8(a.compiler), codec.utf8(a.target),
                           codec.utf8(a.abi), codec.utf8(a.backend), Encoded(a.flags, codec))
  }

  /** The recorded identity is that of the recorded configuration. */
  predicate IdentityMatches(a: Artifact, codec: Codec)
    requires IdentitiesParse(a)
  {
    ContentIdentity.ParseHash(a.artifactId).value == codec.hash(ContentIdentity.ArtifactPreimage(ConfigOf(a, codec)))
  }

  predicate ArtifactOk(a: Artifact, codec: Codec) {
    a.kind == KIND && DigestOk(a.digest) && IdentitiesParse(a) && IdentityMatches(a, codec)
  }

  predicate PackageOk(p: Package) { Trim(p.name) != [] && Trim(p.version) != [] }

  predicate Valid(m: Manifest, codec: Codec) {
    && m.schema == SCHEMA && PackageOk(m.package) && ArtifactOk(m.artifact, codec)
    && NamesDistinct(m.actors) && forall a :: a in m.actors ==> ActorOk(a)
  }

  method ValidateArtifact(a: Artifact, codec: Codec) returns (p: Option<Problem>)
    ensures p.None? <==> ArtifactOk(a, codec)
    ensures p.Some? ==> p.value.UnsupportedKind? || p.value.InvalidDigest? || p.value.InvalidIdentity? || p.value.IdentityMismatch?
    ensures p == Some(IdentityMismatch) ==> IdentitiesParse(a) && !IdentityMatches(a, codec)
  {
    if a.kind != KIND {
      return Some(UnsupportedKind);
    }
    if !DigestOk(a.digest) {
      return Some(InvalidDigest);
    }
    if !IsId(a.semanticId) {
      return Some(InvalidIdentity("artifact.semantic_id"));
    }
    if !IsId(a.artifactId) {
      return Some(InvalidIdentity("artifact.artifact_id"));
    }
    if a.sourceId.Some? && !IsId(a.sourceId.value) {
      return Some(InvalidIdentity("artifact.source_id"));
    }
    var fed := ContentIdentity.HashArtifact(ConfigOf(a, codec));
    if ContentIdentity.ParseHash(a.artifactId).value != codec.hash(fed) {
      return Some(IdentityMismatch);
    }
    return None;
  }

  method ValidateSteps(a: Actor) returns (p: Option<Problem>)
    ensures p.None? <==> (forall i :: 0 <= i < |a.migrations| ==> StepOk(a, i)) && OriginsDistinct(a.migrations)
                         && (forall v :: 1 <= v < a.version ==> HasOrigin(a.migrations, v))
    ensures p.Some? ==> p.value.BadStep? || p.value.StepTooHigh? || p.value.DuplicateOrigin? || p.value.MissingStep?
    ensures p.Some? && p.value.MissingStep? ==> !HasOrigin(a.migrations, p.value.from) && 1 <= p.value.from < a.version
  {
    var origins: set<nat> := {};
    for i := 0 to |a.migrations|
      invariant forall k :: 0 <= k < i ==> StepOk(a, k)
      invariant OriginsDistinct(a.migrations[..i])
      invariant forall v :: v in origins <==> HasOrigin(a.migrations[..i], v)
    {
      var step := a.migrations[i];
      if step.from == 0 || step.to != Saturate(step.from) {
        assert !StepOk(a, i);
        return Some(BadStep(a.name, step.from, step.to));
      }
      if step.to > a.version {
        assert !StepOk(a, i);
        return Some(StepTooHigh(a.name, step.from, step.to));
      }
      if step.from in origins {
        var k :| 0 <= k < |a.migrations[..i]| && a.migrations[..i][k].from == step.from;
        assert a.migrations[k].from == a.migrations[i].from;
        return Some(DuplicateOrigin(a.name, step.from));
      }
      AddOrigin(a.migrations, i);
      origins := origins + {step.from};
    }
    assert a.migrations[..|a.migrations|] == a.migrations;
    var v := 1;
    while v < a.version
      invariant forall u :: 1 <= u < v ==> HasOrigin(a.migrations, u)
    {
      if v !in origins {
        return Some(MissingStep(a.name, v));
      }
      v := v + 1;
    }
    return None;
  }

  lemma {:induction false} AddOrigin(steps: seq<Step>, i: nat)
    requires i < |steps| && OriginsDistinct(steps[..i]) && !HasOrigin(steps[..i], steps[i].from)
    ensures OriginsDistinct(steps[..i + 1])
    ensures forall v :: HasOrigin(steps[..i + 1], v) <==> HasOrigin(steps[..i], v) || v == steps[i].from
  {
    var s := steps[..i + 1];
    assert s == steps[..i] + [steps[i]];
    forall k | 0 <= k < i
      ensures s[k].from != s[i].from
    {
      assert steps[..i][k] == s[k];
    }
    forall v
      ensures HasOrigin(s, v) <==> HasOrigin(steps[..i], v) || v == steps[i].from
    {
      if HasOrigin(s, v) {
        var k :| 0 <= k < |s| && s[k].from == v;
        assert k < i ==> steps[..i][k] == s[k];
      }
      if HasOrigin(steps[..i], v) {
        var k :| 0 <= k < |steps[..i]| && steps[..i][k].from == v;
        assert s[k].from == v;
      }
      if v == steps[i].from { assert s[i].from == v; }
    }
  }

  method ValidateActor(a: Actor) returns (p: Option<Problem>)
    ensures p.None? <==> ActorOk(a)
    ensures p.Some? ==> !p.value.DuplicateActor?
  {
    hide IsId, StepOk, OriginsDistinct, HasOrigin;
    if a.version == 0 {
      return Some(ZeroVersion(a.name));
    }
    if !IsId(a.schemaId) {
      return Some(BadSchemaId(a.name));
    }
    p := ValidateSteps(a);
  }

  method Validate(m: Manifest, codec: Codec) returns (p: Option<Problem>)
    ensures p.None? <==> Valid(m, codec)
    ensures p.Some? && p.value.DuplicateActor? ==>
              exists i, j :: 0 <= i < j < |m.actors| && m.actors[i].name == m.actors[j].name == p.value.actor
  {
    hide ActorOk, ArtifactOk, Trim;
    if m.schema != SCHEMA {
      return Some(UnsupportedSchema);
    }
    if !PackageOk(m.package) {
      return Some(InvalidPackage);
    }
    var artifact := ValidateArtifact(m.artifact, codec);
    if artifact.Some? {
      return artifact;
    }
    var names: set<string> := {};
    for i := 0 to |m.actors|
      invariant forall k :: 0 <= k < i ==> m.actors[k].name in names && ActorOk(m.actors[k])
      invariant forall n :: n in names ==> exists k :: 0 <= k < i && m.actors[k].name == n
      invariant NamesDistinct(m.actors[..i])
    {
      var a := m.actors[i];
      if a.name in names {
        var k :| 0 <= k < i && m.actors[k].name == a.name;
        assert m.actors[k].name == m.actors[i].name;
        return Some(DuplicateActor(a.name));
      }
      names := names + {a.name};
      assert a in m.actors;
      var problem := ValidateActor(a);
      if problem.Some? {
        return problem;
      }
    }
    assert m.actors[..|m.actors|] == m.actors;
    return None;
  }

  // ----- what validation buys -----

  /** Below the last version number, a valid actor has exactly one migration
      step for each earlier version, and nothing else. */
  lemma {:induction false} MigrationsExact(a: Actor)
    requires ActorOk(a) && a.version < U32_MAX
    ensures forall i :: 0 <= i < |a.migrations| ==>
              1 <= a.migrations[i].from < a.version && a.migrations[i].to == a.migrations[i].from + 1
    ensures forall v :: 1 <= v < a.version ==> HasOrigin(a.migrations, v)
    ensures |a.migrations| == a.version - 1
  {
    forall i | 0 <= i < |a.migrations|
      ensures 1 <= a.migrations[i].from < a.version && a.migrations[i].to == a.migrations[i].from + 1
    {
      assert StepOk(a, i);
    }
    CountOrigins(a.migrations, a.version);
  }

  function OriginSet(steps: seq<Step>): set<nat> {
    if steps == [] then {} else OriginSet(steps[..|steps| - 1]) + {steps[|steps| - 1].from}
  }

  lemma {:induction false} OriginSetIs(steps: seq<Step>)
    ensures forall v :: v in OriginSet(steps) <==> HasOrigin(steps, v)
    ensures OriginsDistinct(steps) ==> |OriginSet(steps)| == |steps|
    decreases |steps|
  {
    if steps != [] {
      var front, last := steps[..|steps| - 1], steps[|steps| - 1];
      OriginSetIs(front);
      forall v
        ensures HasOrigin(steps, v) <==> HasOrigin(front, v) || v == last.from
      {
        if HasOrigin(steps, v) {
          var k :| 0 <= k < |steps| && steps[k].from == v;
          assert k < |front| ==> front[k].from == v;
        }
        if HasOrigin(front, v) {
          var k :| 0 <= k < |front| && front[k].from == v;
          assert steps[k].from == v;
        }
        assert steps[|front|].from == last.from;
      }
      if OriginsDistinct(steps) {
        assert OriginsDistinct(front);
        assert forall k :: 0 <= k < |front| ==> front[k].from == steps[k].from && steps[k].from != steps[|front|].from;
        assert !HasOrigin(front, last.from);
      }
    }
  }

  function Numbers(n: nat): (r: set<nat>)
    requires n >= 1
    ensures |r| == n - 1 && forall v :: v in r <==> 1 <= v < n
  {
    if n == 1 then {} else Numbers(n - 1) + {n - 1}
  }

  lemma {:induction false} CountOrigins(steps: seq<Step>, n: nat)
    requires n >= 1 && OriginsDistinct(steps)
    requires forall i :: 0 <= i < |steps| ==> 1 <= steps[i].from < n
    requires forall v :: 1 <= v < n ==> HasOrigin(steps, v)
    ensures |steps| == n - 1
  {
    OriginSetIs(steps);
    assert OriginSet(steps) == Numbers(n);
  }

  const ZERO_ID: string := ContentIdentity.ToHex(ContentIdentity.Zeros(32))

  /** One step per version up to the last, and one more that saturates. */
  function SaturatedActor(name: string): Actor {
    Actor(name, Durable, U32_MAX, ZERO_ID, seq(U32_MAX, i requires 0 <= i < U32_MAX => Step(i + 1, Saturate(i + 1), false, [])))
  }

  /** At the last version number a step from that version to itself passes
      validation, so the count above is not exact there. */
  lemma {:induction false} SaturationAdmitsExtraStep(name: string)
    ensures ActorOk(SaturatedActor(name)) && |SaturatedActor(name).migrations| == SaturatedActor(name).version
  {
    var a := SaturatedActor(name);
    ContentIdentity.IdentityRoundTrip(ZERO_ID, ContentIdentity.Zeros(32));
    forall i | 0 <= i < |a.migrations|
      ensures StepOk(a, i)
    {
    }
    forall v | 1 <= v < a.version
      ensures HasOrigin(a.migrations, v)
    {
      assert a.migrations[v - 1].from == v;
    }
  }

  /** The count is exact for a valid actor of any version precisely when it
      has no step from the last version number. */
  lemma {:induction false} CountExactIff(a: Actor)
    requires ActorOk(a)
    ensures |a.migrations| == a.version - 1 <==> !HasOrigin(a.migrations, U32_MAX)
    ensures HasOrigin(a.migrations, U32_MAX) ==> a.version == U32_MAX == |a.migrations|
  {
    hide IsId;
    forall i | 0 <= i < |a.migrations|
      ensures 1 <= a.migrations[i].from <= a.version
      ensures a.migrations[i].from == a.version ==> a.version == U32_MAX
    {
      assert StepOk(a, i);
    }
    if HasOrigin(a.migrations, U32_MAX) {
      CountOrigins(a.migrations, U32_MAX + 1);
    } else {
      assert forall i :: 0 <= i < |a.migrations| ==> a.migrations[i].from != U32_MAX;
      CountOrigins(a.migrations, a.version);
    }
  }

  // ----- normal form -----

  function NormalStep(s: Step): Step { s.(events := SortDedup(s.events, EventLess)) }

  function NormalSteps(steps: seq<Step>): (r: seq<Step>)
    ensures |r| == |steps|
  {
    var sorted := Sort(steps, StepLess);
    seq(|sorted|, i requires 0 <= i < |sorted| => NormalStep(sorted[i]))
  }

  function NormalActor(a: Actor): Actor { a.(migrations := NormalSteps(a.migrations)) }

  function NormalActors(actors: seq<Actor>): (r: seq<Actor>)
    ensures |r| == |actors|
  {
    var sorted := Sort(actors, ActorLess);
    seq(|sorted|, i requires 0 <= i < |sorted| => NormalActor(sorted[i]))
  }

  function Normal(m: Manifest): Manifest {
    m.(artifact := m.artifact.(flags := SortDedup(m.artifact.flags, StrLess)), actors := NormalActors(m.actors))
  }

  method NormalizeActor(a: Actor) returns (r: Actor)
    ensures r == NormalActor(a)
  {
    hide SortDedup;
    var sorted := Sort(a.migrations, StepLess);
    var steps := sorted;
    for i := 0 to |steps|
      invariant |steps| == |sorted|
      invariant forall k :: 0 <= k < i ==> steps[k] == NormalStep(sorted[k])
      invariant forall k :: i <= k < |steps| ==> steps[k] == sorted[k]
    {
      steps := steps[i := steps[i].(events := SortDedup(steps[i].events, EventLess))];
    }
    assert steps == NormalSteps(a.migrations);
    return a.(migrations := steps);
  }

  /** A manifest as the object that `normalize` updates in place. */
  class ManifestFile {
    var manifest: Manifest

    constructor (m: Manifest)
      ensures manifest == m
    {
      manifest := m;
    }

    method Normalize()
      modifies this
      ensures manifest == Normal(old(manifest))
    {
      hide SortDedup, NormalActor;
      var flags, sorted := SortDedup(manifest.artifact.flags, StrLess), Sort(manifest.actors, ActorLess);
      var actors := sorted;
      for i := 0 to |sorted|
        invariant |actors| == |sorted|
        invariant forall k :: 0 <= k < i ==> actors[k] == NormalActor(sorted[k])
        invariant forall k :: i <= k < |sorted| ==> actors[k] == sorted[k]
        invariant manifest == old(manifest)
      {
        var normal := NormalizeActor(actors[i]);
        actors := actors[i := normal];
      }
      assert actors == NormalActors(manifest.actors);
      manifest := manifest.(artifact := manifest.artifact.(flags := flags), actors := actors);
    }
  }
}
