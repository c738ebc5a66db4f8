/** Normal form of behavior manifests: idempotent, invisible to validation and
    canonical (src/behavior_manifest.rs, `normalize`). */
module ManifestLaws {
  import opened Options
  import opened Sorting
  import opened Text
  import opened Manifest
  import ContentIdentity

  // ----- sets as ascending lists -----

  lemma {:induction false} SortDedupSame<T(!new)>(s: seq<T>, t: seq<T>, lt: (T, T) -> bool)
    requires TotalOrder(lt)
    ensures SortDedup(s, lt) == SortDedup(t, lt) <==> forall x :: x in s <==> x in t
  {
    hide SortDedup;
    SortDedupCanonical(s, lt);
    SortDedupCanonical(t, lt);
    if forall x :: x in s <==> x in t {
      AscendingUnique(SortDedup(s, lt), SortDedup(t, lt), lt);
    }
  }

  lemma {:induction false} SortDedupTwice<T(!new)>(s: seq<T>, lt: (T, T) -> bool)
    requires TotalOrder(lt)
    ensures SortDedup(SortDedup(s, lt), lt) == SortDedup(s, lt)
  {
    SortDedupCanonical(s, lt);
    SortDedupSame(SortDedup(s, lt), s, lt);
  }

  // ----- membership -----

  lemma {:induction false} StepMembers(steps: seq<Step>)
    ensures forall s :: s in steps ==> NormalStep(s) in NormalSteps(steps)
    ensures forall t :: t in NormalSteps(steps) ==> exists s :: s in steps && NormalStep(s) == t
  {
    hide NormalStep;
    var sorted := Sort(steps, StepLess);
    forall s | s in steps
      ensures NormalStep(s) in NormalSteps(steps)
    {
      SortMembers(steps, StepLess, s);
      var i :| 0 <= i < |sorted| && sorted[i] == s;
      assert NormalSteps(steps)[i] == NormalStep(s);
    }
    forall t | t in NormalSteps(steps)
      ensures exists s :: s in steps && NormalStep(s) == t
    {
      var i :| 0 <= i < |sorted| && NormalSteps(steps)[i] == t;
      SortMembers(steps, StepLess, sorted[i]);
      assert sorted[i] in sorted;
    }
  }

  lemma {:induction false} ActorMembers(actors: seq<Actor>)
    ensures forall a :: a in actors ==> NormalActor(a) in NormalActors(actors)
    ensures forall b :: b in NormalActors(actors) ==> exists a :: a in actors && NormalActor(a) == b
  {
    hide NormalActor;
    var sorted := Sort(actors, ActorLess);
    forall a | a in actors
      ensures NormalActor(a) in NormalActors(actors)
    {
      SortMembers(actors, ActorLess, a);
      var i :| 0 <= i < |sorted| && sorted[i] == a;
      assert NormalActors(actors)[i] == NormalActor(a);
    }
    forall b | b in NormalActors(actors)
      ensures exists a :: a in actors && NormalActor(a) == b
    {
      var i :| 0 <= i < |sorted| && NormalActors(actors)[i] == b;
      SortMembers(actors, ActorLess, sorted[i]);
      assert sorted[i] in sorted;
    }
  }

  // ----- idempotence -----

  lemma {:induction false} NormalStepTwice(s: Step)
    ensures NormalStep(NormalStep(s)) == NormalStep(s)
  {
    Orders();
    SortDedupTwice(s.events, EventLess);
  }

  lemma {:induction false} NormalActorTwice(a: Actor)
    ensures NormalActor(NormalActor(a)) == NormalActor(a)
  {
    hide SortDedup;
    Orders();
    var sorted, normal := Sort(a.migrations, StepLess), NormalSteps(a.migrations);
    SortSorts(a.migrations, StepLess);
    assert Sorted(normal, StepLess) by {
      assert forall i, j :: 0 <= i < j < |sorted| ==> !StepLess(sorted[j], sorted[i]);
    }
    SortedUnchanged(normal, StepLess);
    forall i | 0 <= i < |normal|
      ensures NormalStep(normal[i]) == normal[i]
    {
      NormalStepTwice(sorted[i]);
    }
    assert NormalSteps(normal) == normal;
  }

  /** Normalising twice is normalising once, on every manifest. */
  lemma {:induction false} NormalIdempotent(m: Manifest)
    ensures Normal(Normal(m)) == Normal(m)
  {
    hide SortDedup, NormalSteps;
    Orders();
    SortDedupTwice(m.artifact.flags, StrLess);
    var sorted, normal := Sort(m.actors, ActorLess), NormalActors(m.actors);
    SortSorts(m.actors, ActorLess);
    assert Sorted(normal, ActorLess) by {
      assert forall i, j :: 0 <= i < j < |sorted| ==> !ActorLess(sorted[j], sorted[i]);
    }
    SortedUnchanged(normal, ActorLess);
    forall i | 0 <= i < |normal|
      ensures NormalActor(normal[i]) == normal[i]
    {
      NormalActorTwice(sorted[i]);
    }
    assert NormalActors(normal) == normal;
  }

  // ----- validation -----

  predicate NameApart(a: Actor, b: Actor) { a.name != b.name }
  predicate OriginApart(a: Step, b: Step) { a.from != b.from }

  lemma {:induction false} DistinctNames(actors: seq<Actor>)
    ensures NamesDistinct(actors) <==> DistinctBy(actors, NameApart)
  {
    if DistinctBy(actors, NameApart) {
      assert forall i, j :: 0 <= i < j < |actors| ==> NameApart(actors[i], actors[j]) || NameApart(actors[j], actors[i]);
    }
  }

  lemma {:induction false} DistinctOrigins(steps: seq<Step>)
    ensures OriginsDistinct(steps) <==> DistinctBy(steps, OriginApart)
  {
    if DistinctBy(steps, OriginApart) {
      assert forall i, j :: 0 <= i < j < |steps| ==> OriginApart(steps[i], steps[j]) || OriginApart(steps[j], steps[i]);
    }
  }

  lemma {:induction false} NormalNames(actors: seq<Actor>)
    ensures NamesDistinct(NormalActors(actors)) <==> NamesDistinct(actors)
  {
    hide NormalSteps;
    var sorted := Sort(actors, ActorLess);
    DistinctNames(actors);
    DistinctNames(sorted);
    SortDistinct(actors, ActorLess, NameApart);
    assert forall i :: 0 <= i < |sorted| ==> NormalActors(actors)[i].name == sorted[i].name;
  }

  lemma {:induction false} NormalOrigins(steps: seq<Step>)
    ensures OriginsDistinct(NormalSteps(steps)) <==> OriginsDistinct(steps)
  {
    hide SortDedup;
    var sorted := Sort(steps, StepLess);
    DistinctOrigins(steps);
    DistinctOrigins(sorted);
    SortDistinct(steps, StepLess, OriginApart);
    assert forall i :: 0 <= i < |sorted| ==> NormalSteps(steps)[i].from == sorted[i].from;
  }

  predicate StepFits(s: Step, version: nat) { s.from != 0 && s.to == Saturate(s.from) && s.to <= version }

  lemma {:induction false} StepsFit(a: Actor)
    ensures (forall i :: 0 <= i < |a.migrations| ==> StepOk(a, i)) <==> forall s :: s in a.migrations ==> StepFits(s, a.version)
  {
    if forall s :: s in a.migrations ==> StepFits(s, a.version) {
      forall i | 0 <= i < |a.migrations|
        ensures StepOk(a, i)
      {
        assert a.migrations[i] in a.migrations;
      }
    }
    if forall i :: 0 <= i < |a.migrations| ==> StepOk(a, i) {
      forall s | s in a.migrations
        ensures StepFits(s, a.version)
      {
        var i :| 0 <= i < |a.migrations| && a.migrations[i] == s;
        assert StepOk(a, i);
      }
    }
  }

  predicate FromIn(steps: seq<Step>, v: nat) { exists s :: s in steps && s.from == v }

  lemma {:induction false} OriginIn(steps: seq<Step>, v: nat)
    ensures HasOrigin(steps, v) <==> FromIn(steps, v)
  {
    if HasOrigin(steps, v) {
      var i :| 0 <= i < |steps| && steps[i].from == v;
      assert steps[i] in steps;
    }
    if FromIn(steps, v) {
      var s :| s in steps && s.from == v;
      var i :| 0 <= i < |steps| && steps[i] == s;
    }
  }

  lemma {:induction false} NormalHasOrigin(steps: seq<Step>, v: nat)
    ensures HasOrigin(NormalSteps(steps), v) <==> HasOrigin(steps, v)
  {
    hide NormalSteps, SortDedup;
    OriginIn(steps, v);
    OriginIn(NormalSteps(steps), v);
    StepMembers(steps);
    if FromIn(steps, v) {
      var s :| s in steps && s.from == v;
      assert NormalStep(s) in NormalSteps(steps) && NormalStep(s).from == v;
    }
  }

  lemma {:induction false} NormalStepsFit(steps: seq<Step>, version: nat)
    ensures (forall t :: t in NormalSteps(steps) ==> StepFits(t, version)) <==> forall s :: s in steps ==> StepFits(s, version)
  {
    hide NormalSteps, SortDedup;
    StepMembers(steps);
    if forall t :: t in NormalSteps(steps) ==> StepFits(t, version) {
      forall s | s in steps
        ensures StepFits(s, version)
      {
        assert StepFits(NormalStep(s), version);
      }
    }
  }

  lemma {:induction false} NormalActorOk(a: Actor)
    ensures ActorOk(NormalActor(a)) <==> ActorOk(a)
  {
    hide NormalSteps, HasOrigin, OriginsDistinct, StepOk, IsId;
    StepsFit(a);
    StepsFit(NormalActor(a));
    NormalStepsFit(a.migrations, a.version);
    NormalOrigins(a.migrations);
    forall v
      ensures HasOrigin(NormalActor(a).migrations, v) <==> HasOrigin(a.migrations, v)
    {
      NormalHasOrigin(a.migrations, v);
    }
  }

  lemma {:induction false} EncodedIn(flags: seq<string>, codec: Codec, x: ContentIdentity.Bytes)
    ensures x in Encoded(flags, codec) <==> exists f :: f in flags && codec.utf8(f) == x
  {
    var bytes := Encoded(flags, codec);
    if x in bytes {
      var i :| 0 <= i < |bytes| && bytes[i] == x;
      assert flags[i] in flags;
    }
    if f :| f in flags && codec.utf8(f) == x {
      var i :| 0 <= i < |flags| && flags[i] == f;
      assert bytes[i] == x;
    }
  }

  /** The recomputed identity sees the flags as a set. */
  lemma {:induction false} FlagsAsSet(a: Artifact, flags: seq<string>, codec: Codec)
    requires forall f :: f in flags <==> f in a.flags
    ensures ArtifactOk(a.(flags := flags), codec) <==> ArtifactOk(a, codec)
  {
    hide ContentIdentity.Listed, ContentIdentity.PutBytes, IsId;
    var b := a.(flags := flags);
    forall x
      ensures x in Encoded(flags, codec) <==> x in Encoded(a.flags, codec)
    {
      EncodedIn(flags, codec, x);
      EncodedIn(a.flags, codec, x);
    }
    ContentIdentity.ListedSame(Encoded(flags, codec), Encoded(a.flags, codec));
    if IdentitiesParse(a) {
      assert ContentIdentity.ArtifactPreimage(ConfigOf(b, codec)) == ContentIdentity.ArtifactPreimage(ConfigOf(a, codec));
    }
  }

  /** A manifest is valid exactly when its normal form is. */
  lemma {:induction false} NormalValid(m: Manifest, codec: Codec)
    ensures Valid(Normal(m), codec) <==> Valid(m, codec)
  {
    hide NormalActors, NormalActor, SortDedup, ActorOk, Trim, NamesDistinct, ArtifactOk;
    Orders();
    SortDedupCanonical(m.artifact.flags, StrLess);
    FlagsAsSet(m.artifact, Normal(m).artifact.flags, codec);
    NormalNames(m.actors);
    ActorMembers(m.actors);
    forall a | a in m.actors
      ensures ActorOk(NormalActor(a)) <==> ActorOk(a)
    {
      NormalActorOk(a);
    }
  }

  // ----- canonicity -----

  /** Equal but for the order and repetition of events. */
  ghost predicate StepsMatch(s: Step, t: Step) {
    s.from == t.from && s.to == t.to && s.state == t.state && forall e :: e in s.events <==> e in t.events
  }

  ghost predicate ActorsMatch(a: Actor, b: Actor) {
    && a.(migrations := []) == b.(migrations := [])
    && (forall s :: s in a.migrations ==> exists t :: t in b.migrations && StepsMatch(s, t))
    && (forall t :: t in b.migrations ==> exists s :: s in a.migrations && StepsMatch(t, s))
  }

  /** Equal but for the order of flags, actors, migrations and events, and the
      repetition of flags and events. */
  ghost predicate Equivalent(m: Manifest, n: Manifest) {
    && m.schema == n.schema && m.package == n.package && m.artifact.(flags := []) == n.artifact.(flags := [])
    && (forall f :: f in m.artifact.flags <==> f in n.artifact.flags)
    && (forall a :: a in m.actors ==> exists b :: b in n.actors && ActorsMatch(a, b))
    && (forall b :: b in n.actors ==> exists a :: a in m.actors && ActorsMatch(b, a))
  }

  lemma {:induction false} MatchingSteps(s: Step, t: Step)
    ensures NormalStep(s) == NormalStep(t) <==> StepsMatch(s, t)
  {
    Orders();
    SortDedupSame(s.events, t.events, EventLess);
  }

  lemma {:induction false} NormalStepsAscend(steps: seq<Step>)
    requires OriginsDistinct(steps)
    ensures Ascending(NormalSteps(steps), StepLess)
  {
    hide SortDedup;
    Orders();
    assert DistinctBy(steps, StepLess);
    SortAscends(steps, StepLess);
    var sorted := Sort(steps, StepLess);
    assert forall i, j :: 0 <= i < j < |sorted| ==> StepLess(sorted[i], sorted[j]);
  }

  lemma {:induction false} NormalActorsAscend(actors: seq<Actor>)
    requires NamesDistinct(actors)
    ensures Ascending(NormalActors(actors), ActorLess)
  {
    hide NormalSteps, StrLess;
    Orders();
    assert DistinctBy(actors, ActorLess);
    SortAscends(actors, ActorLess);
    var sorted := Sort(actors, ActorLess);
    assert forall i, j :: 0 <= i < j < |sorted| ==> ActorLess(sorted[i], sorted[j]);
  }

  lemma {:induction false} StepCarries(ss: seq<Step>, tt: seq<Step>, x: Step)
    requires forall s :: s in ss ==> exists t :: t in tt && StepsMatch(s, t)
    requires x in NormalSteps(ss)
    ensures x in NormalSteps(tt)
  {
    hide NormalSteps, NormalStep, StepsMatch;
    StepMembers(ss);
    StepMembers(tt);
    var s :| s in ss && NormalStep(s) == x;
    var t :| t in tt && StepsMatch(s, t);
    MatchingSteps(s, t);
  }

  lemma {:induction false} SameNormalSteps(ss: seq<Step>, tt: seq<Step>)
    requires OriginsDistinct(ss) && OriginsDistinct(tt)
    requires forall s :: s in ss ==> exists t :: t in tt && StepsMatch(s, t)
    requires forall t :: t in tt ==> exists s :: s in ss && StepsMatch(t, s)
    ensures NormalSteps(ss) == NormalSteps(tt)
  {
    hide NormalSteps, StepsMatch, OriginsDistinct, StrictOrder, Ascending;
    Orders();
    NormalStepsAscend(ss);
    NormalStepsAscend(tt);
    forall x
      ensures x in NormalSteps(ss) <==> x in NormalSteps(tt)
    {
      if x in NormalSteps(ss) { StepCarries(ss, tt, x); }
      if x in NormalSteps(tt) { StepCarries(tt, ss, x); }
    }
    AscendingUnique(NormalSteps(ss), NormalSteps(tt), StepLess);
  }

  lemma {:induction false} StepsOfSameNormal(ss: seq<Step>, tt: seq<Step>, s: Step)
    requires NormalSteps(ss) == NormalSteps(tt) && s in ss
    ensures exists t :: t in tt && StepsMatch(s, t)
  {
    hide NormalSteps, NormalStep, StepsMatch;
    StepMembers(ss);
    StepMembers(tt);
    var t :| t in tt && NormalStep(t) == NormalStep(s);
    MatchingSteps(s, t);
  }

  lemma {:induction false} MatchingActors(a: Actor, b: Actor)
    requires OriginsDistinct(a.migrations) && OriginsDistinct(b.migrations)
    ensures NormalActor(a) == NormalActor(b) <==> ActorsMatch(a, b)
  {
    hide NormalSteps, StepsMatch, OriginsDistinct;
    if ActorsMatch(a, b) { SameNormalSteps(a.migrations, b.migrations); }
    if NormalActor(a) == NormalActor(b) {
      forall s | s in a.migrations
        ensures exists t :: t in b.migrations && StepsMatch(s, t)
      {
        StepsOfSameNormal(a.migrations, b.migrations, s);
      }
      forall t | t in b.migrations
        ensures exists s :: s in a.migrations && StepsMatch(t, s)
      {
        StepsOfSameNormal(b.migrations, a.migrations, t);
      }
      assert a.(migrations := []) == NormalActor(a).(migrations := []);
      assert b.(migrations := []) == NormalActor(b).(migrations := []);
    }
  }

  ghost predicate AllDistinctOrigins(actors: seq<Actor>) { forall a :: a in actors ==> OriginsDistinct(a.migrations) }

  lemma {:induction false} ValidOrigins(m: Manifest, codec: Codec)
    requires Valid(m, codec)
    ensures NamesDistinct(m.actors) && AllDistinctOrigins(m.actors)
  {
  }

  lemma {:induction false} ActorsOfSameNormal(xs: seq<Actor>, ys: seq<Actor>, a: Actor)
    requires AllDistinctOrigins(xs) && AllDistinctOrigins(ys) && NormalActors(xs) == NormalActors(ys) && a in xs
    ensures exists b :: b in ys && ActorsMatch(a, b)
  {
    hide NormalActors, NormalActor, ActorsMatch, OriginsDistinct;
    ActorMembers(xs);
    ActorMembers(ys);
    var b :| b in ys && NormalActor(b) == NormalActor(a);
    MatchingActors(a, b);
  }

  lemma {:induction false} ActorCarries(xs: seq<Actor>, ys: seq<Actor>, x: Actor)
    requires AllDistinctOrigins(xs) && AllDistinctOrigins(ys)
    requires forall a :: a in xs ==> exists b :: b in ys && ActorsMatch(a, b)
    requires x in NormalActors(xs)
    ensures x in NormalActors(ys)
  {
    hide NormalActors, NormalActor, ActorsMatch, OriginsDistinct;
    ActorMembers(xs);
    ActorMembers(ys);
    var a :| a in xs && NormalActor(a) == x;
    var b :| b in ys && ActorsMatch(a, b);
    MatchingActors(a, b);
  }

  lemma {:induction false} SameNormalActors(xs: seq<Actor>, ys: seq<Actor>)
    requires NamesDistinct(xs) && NamesDistinct(ys) && AllDistinctOrigins(xs) && AllDistinctOrigins(ys)
    requires forall a :: a in xs ==> exists b :: b in ys && ActorsMatch(a, b)
    requires forall b :: b in ys ==> exists a :: a in xs && ActorsMatch(b, a)
    ensures NormalActors(xs) == NormalActors(ys)
  {
    hide NormalActors, ActorsMatch, AllDistinctOrigins, NamesDistinct, StrictOrder, Ascending;
    Orders();
    NormalActorsAscend(xs);
    NormalActorsAscend(ys);
    forall x
      ensures x in NormalActors(xs) <==> x in NormalActors(ys)
    {
      if x in NormalActors(xs) { ActorCarries(xs, ys, x); }
      if x in NormalActors(ys) { ActorCarries(ys, xs, x); }
    }
    AscendingUnique(NormalActors(xs), NormalActors(ys), ActorLess);
  }

  /** Two valid manifests have the same normal form exactly when they differ
      only in order and repetition. */
  lemma {:induction false} NormalCanonical(m: Manifest, n: Manifest, codec: Codec)
    requires Valid(m, codec) && Valid(n, codec)
    ensures Normal(m) == Normal(n) <==> Equivalent(m, n)
  {
    hide NormalActors, SortDedup, ActorsMatch, Valid, NamesDistinct, AllDistinctOrigins;
    Orders();
    SortDedupSame(m.artifact.flags, n.artifact.flags, StrLess);
    ValidOrigins(m, codec);
    ValidOrigins(n, codec);
    if Equivalent(m, n) { SameNormalActors(m.actors, n.actors); }
    if Normal(m) == Normal(n) {
      SameButContents(m, n);
      forall a | a in m.actors
        ensures exists b :: b in n.actors && ActorsMatch(a, b)
      {
        ActorsOfSameNormal(m.actors, n.actors, a);
      }
      forall b | b in n.actors
        ensures exists a :: a in m.actors && ActorsMatch(b, a)
      {
        ActorsOfSameNormal(n.actors, m.actors, b);
      }
    }
  }

  lemma {:induction false} SameButContents(m: Manifest, n: Manifest)
    requires Normal(m) == Normal(n)
    ensures m.schema == n.schema && m.package == n.package && m.artifact.(flags := []) == n.artifact.(flags := [])
    ensures SortDedup(m.artifact.flags, StrLess) == SortDedup(n.artifact.flags, StrLess) && NormalActors(m.actors) == NormalActors(n.actors)
  {
    hide NormalActors, SortDedup;
    assert Normal(m).artifact.(flags := []) == m.artifact.(flags := []);
    assert Normal(n).artifact.(flags := []) == n.artifact.(flags := []);
  }
}
