/** Upgrade admission between behavior manifests (src/behavior_manifest.rs,
    `validate_upgrade_from`). */
module Admission {
  import opened Options
  import opened Text
  import opened Manifest
  import opened ManifestLaws
  import ContentIdentity

  datatype Refusal =
    | InvalidIncoming
    | InvalidPrevious
    | PackageMismatch
    | OwnerRemoved(actor: string)
    | DurabilityRemoved(actor: string)
    | ClassChanged(actor: string)
    | SchemaDowngrade(actor: string)
    | UnversionedChange(actor: string)
    | TopologyChanged(actor: string)
    | MissingMigration(actor: string, from: nat)

  predicate IsDurable(a: Actor) { a.persistence != Ephemeral }

  /** The actor of that name; the last one, as in a map built in order. */
  function Named(actors: seq<Actor>, name: string): (r: Option<Actor>)
    ensures r.Some? ==> r.value in actors && r.value.name == name
    ensures r.None? ==> forall a :: a in actors ==> a.name != name
  {
    if actors == [] then None
    else if actors[|actors| - 1].name == name then Some(actors[|actors| - 1])
    else
      assert actors == actors[..|actors| - 1] + [actors[|actors| - 1]];
      Named(actors[..|actors| - 1], name)
  }

  predicate HasStep(steps: seq<Step>, v: nat) { exists i :: 0 <= i < |steps| && steps[i].from == v && steps[i].to == v + 1 }

  /** The first version in the range that no step leaves. */
  function FirstGap(steps: seq<Step>, lo: nat, hi: nat): (r: Option<nat>)
    ensures r.Some? ==> lo <= r.value < hi && !HasStep(steps, r.value)
    ensures r.None? ==> forall v :: lo <= v < hi ==> HasStep(steps, v)
    decreases hi - lo
  {
    if lo >= hi then None else if !HasStep(steps, lo) then Some(lo) else FirstGap(steps, lo + 1, hi)
  }

  /** The checks for one durable actor, in order. */
  function Verdict(was: Actor, found: Option<Actor>): Option<Refusal> {
    if found.None? then Some(OwnerRemoved(was.name))
    else
      var now := found.value;
      if !IsDurable(now) then Some(DurabilityRemoved(was.name))
      else if now.persistence != was.persistence then Some(ClassChanged(was.name))
      else if now.version < was.version then Some(SchemaDowngrade(was.name))
      else if now.version == was.version then
        if now.schemaId != was.schemaId then Some(UnversionedChange(was.name))
        else if now.migrations != was.migrations then Some(TopologyChanged(was.name))
        else None
      else if exists s :: s in was.migrations && s !in now.migrations then Some(TopologyChanged(was.name))
      else
        var gap := FirstGap(now.migrations, was.version, now.version);
        if gap.Some? then Some(MissingMigration(was.name, gap.value)) else None
  }

  /** The first refusal among the durable actors of the previous manifest. */
  function FirstRefusal(olds: seq<Actor>, news: seq<Actor>, n: nat): Option<Refusal>
    requires n <= |olds|
  {
    if n == 0 then None
    else
      var earlier := FirstRefusal(olds, news, n - 1);
      if earlier.Some? then earlier
      else if !IsDurable(olds[n - 1]) then None
      else Verdict(olds[n - 1], Named(news, olds[n - 1].name))
  }

  function Admission(incoming: Manifest, previous: Manifest, codec: Codec): Option<Refusal> {
    if !Valid(incoming, codec) then Some(InvalidIncoming)
    else if !Valid(previous, codec) then Some(InvalidPrevious)
    else if incoming.package.name != previous.package.name then Some(PackageMismatch)
    else FirstRefusal(previous.actors, incoming.actors, |previous.actors|)
  }

  method CheckActor(was: Actor, found: Option<Actor>) returns (r: Option<Refusal>)
    ensures r == Verdict(was, found)
  {
    if found.None? {
      return Some(OwnerRemoved(was.name));
    }
    var now := found.value;
    if !IsDurable(now) {
      return Some(DurabilityRemoved(was.name));
    }
    if now.persistence != was.persistence {
      return Some(ClassChanged(was.name));
    }
    if now.version < was.version {
      return Some(SchemaDowngrade(was.name));
    }
    if now.version == was.version {
      if now.schemaId != was.schemaId {
        return Some(UnversionedChange(was.name));
      }
      if now.migrations != was.migrations {
        return Some(TopologyChanged(was.name));
      }
      return None;
    }
    for i := 0 to |was.migrations|
      invariant forall k :: 0 <= k < i ==> was.migrations[k] in now.migrations
    {
      if was.migrations[i] !in now.migrations {
        assert was.migrations[i] in was.migrations;
        return Some(TopologyChanged(was.name));
      }
    }
    for v := was.version to now.version
      invariant FirstGap(now.migrations, was.version, now.version) == FirstGap(now.migrations, v, now.version)
    {
      if !HasStep(now.migrations, v) {
        return Some(MissingMigration(was.name, v));
      }
    }
    return None;
  }

  method ValidateUpgradeFrom(incoming: Manifest, previous: Manifest, codec: Codec)
    returns (r: Option<Refusal>)
    ensures r == Admission(incoming, previous, codec)
  {
    hide Valid, Verdict;
    var p := Validate(incoming, codec);
    if p.Some? {
      return Some(InvalidIncoming);
    }
    p := Validate(previous, codec);
    if p.Some? {
      return Some(InvalidPrevious);
    }
    if incoming.package.name != previous.package.name {
      return Some(PackageMismatch);
    }
    for i := 0 to |previous.actors|
      invariant FirstRefusal(previous.actors, incoming.actors, i) == None
    {
      var was := previous.actors[i];
      if IsDurable(was) {
        var verdict := CheckActor(was, Named(incoming.actors, was.name));
        if verdict.Some? {
          RefusalStays(previous.actors, incoming.actors, i + 1, |previous.actors|);
          return verdict;
        }
      }
    }
    return None;
  }

  lemma {:induction false} RefusalStays(olds: seq<Actor>, news: seq<Actor>, i: nat, n: nat)
    requires i <= n <= |olds| && FirstRefusal(olds, news, i).Some?
    ensures FirstRefusal(olds, news, n) == FirstRefusal(olds, news, i)
    decreases n - i
  {
    hide Verdict;
    if i < n { RefusalStays(olds, news, i, n - 1); }
  }

  // ----- what admission means -----

  /** The new actor can take over the durable state of the old one. */
  predicate Succeeds(was: Actor, now: Actor) {
    && now.name == was.name && now.persistence == was.persistence && was.version <= now.version
    && (forall s :: s in was.migrations ==> s in now.migrations)
    && (was.version == now.version ==> now == was)
  }

  lemma {:induction false} NoGaps(a: Actor, v: nat)
    requires ActorOk(a) && 1 <= v < a.version
    ensures HasStep(a.migrations, v)
  {
    assert HasOrigin(a.migrations, v);
    var i :| 0 <= i < |a.migrations| && a.migrations[i].from == v;
    assert StepOk(a, i);
  }

  /** Between validated actors the missing-migration refusal never fires. */
  lemma {:induction false} VerdictIs(was: Actor, now: Actor)
    requires ActorOk(was) && ActorOk(now) && IsDurable(was) && was.name == now.name
    ensures Verdict(was, Some(now)) == None <==> Succeeds(was, now)
    ensures Verdict(was, Some(now)).Some? ==> !Verdict(was, Some(now)).value.MissingMigration?
  {
    hide ActorOk, FirstGap, HasStep;
    assert was.version >= 1 by { VersionPositive(was); }
    forall v | was.version <= v < now.version
      ensures HasStep(now.migrations, v)
    {
      NoGaps(now, v);
    }
    if was.version == now.version {
      assert now == was <==> now.persistence == was.persistence && now.schemaId == was.schemaId && now.migrations == was.migrations;
    }
  }

  lemma {:induction false} VersionPositive(a: Actor)
    requires ActorOk(a)
    ensures a.version >= 1
  {
  }

  ghost predicate Takes(was: Actor, news: seq<Actor>) { exists n :: n in news && Succeeds(was, n) }

  lemma {:induction false} RefusalNone(olds: seq<Actor>, news: seq<Actor>, n: nat)
    requires n <= |olds| && NamesDistinct(news)
    requires forall a :: a in olds ==> ActorOk(a)
    requires forall a :: a in news ==> ActorOk(a)
    ensures FirstRefusal(olds, news, n) == None <==>
            forall i :: 0 <= i < n && IsDurable(olds[i]) ==> Takes(olds[i], news)
    ensures FirstRefusal(olds, news, n).Some? ==> !FirstRefusal(olds, news, n).value.MissingMigration?
  {
    hide Verdict, Succeeds, ActorOk;
    if n > 0 {
      RefusalNone(olds, news, n - 1);
      var was := olds[n - 1];
      assert was in olds;
      if IsDurable(was) { TakesIff(was, news); }
    }
  }

  lemma {:induction false} TakesIff(was: Actor, news: seq<Actor>)
    requires ActorOk(was) && IsDurable(was) && NamesDistinct(news)
    requires forall a :: a in news ==> ActorOk(a)
    ensures Verdict(was, Named(news, was.name)) == None <==> Takes(was, news)
    ensures var v := Verdict(was, Named(news, was.name)); v.Some? ==> !v.value.MissingMigration?
  {
    hide ActorOk, Succeeds, Verdict;
    var found := Named(news, was.name);
    if found.Some? {
      VerdictIs(was, found.value);
    } else {
      assert Verdict(was, None) == Some(OwnerRemoved(was.name)) by { VerdictNone(was); }
    }
    if Takes(was, news) {
      var n :| n in news && Succeeds(was, n);
      SucceedsName(was, n);
      SameName(news, n, was.name);
    }
  }

  lemma {:induction false} VerdictNone(was: Actor)
    ensures Verdict(was, None) == Some(OwnerRemoved(was.name))
  {
  }

  lemma {:induction false} SucceedsName(was: Actor, n: Actor)
    requires Succeeds(was, n)
    ensures n.name == was.name
  {
  }

  lemma {:induction false} SameName(actors: seq<Actor>, a: Actor, name: string)
    requires NamesDistinct(actors) && a in actors && a.name == name
    ensures Named(actors, name) == Some(a)
  {
    var r := Named(actors, name);
    var i :| 0 <= i < |actors| && actors[i] == a;
    var j :| 0 <= j < |actors| && actors[j] == r.value;
    assert i < j ==> actors[i].name != actors[j].name;
    assert j < i ==> actors[j].name != actors[i].name;
  }

  ghost predicate Admits(previous: Manifest, incoming: Manifest, codec: Codec) {
    Admission(incoming, previous, codec) == None
  }

  /** Admission, stated without the algorithm: both manifests are valid, of
      one package, and every durable actor has a successor. */
  lemma {:induction false} AdmitsIff(previous: Manifest, incoming: Manifest, codec: Codec)
    ensures Admits(previous, incoming, codec) <==>
            && Valid(previous, codec) && Valid(incoming, codec) && previous.package.name == incoming.package.name
            && forall a :: a in previous.actors && IsDurable(a) ==> Takes(a, incoming.actors)
    ensures var r := Admission(incoming, previous, codec); r.Some? ==> !r.value.MissingMigration?
  {
    hide ActorOk, Takes, Trim;
    if Valid(previous, codec) && Valid(incoming, codec) {
      RefusalNone(previous.actors, incoming.actors, |previous.actors|);
      if forall i :: 0 <= i < |previous.actors| && IsDurable(previous.actors[i]) ==> Takes(previous.actors[i], incoming.actors) {
        forall a | a in previous.actors && IsDurable(a)
          ensures Takes(a, incoming.actors)
        {
          var i :| 0 <= i < |previous.actors| && previous.actors[i] == a;
        }
      }
      if forall a :: a in previous.actors && IsDurable(a) ==> Takes(a, incoming.actors) {
        forall i | 0 <= i < |previous.actors| && IsDurable(previous.actors[i])
          ensures Takes(previous.actors[i], incoming.actors)
        {
          assert previous.actors[i] in previous.actors;
        }
      }
    }
  }

  // ----- an order on manifests -----

  lemma {:induction false} AdmissionReflexive(m: Manifest, codec: Codec)
    requires Valid(m, codec)
    ensures Admits(m, m, codec)
  {
    hide Valid, Admits;
    AdmitsIff(m, m, codec);
    forall a | a in m.actors && IsDurable(a)
      ensures Takes(a, m.actors)
    {
      assert Succeeds(a, a);
    }
  }

  lemma {:induction false} SucceedsTransitive(a: Actor, b: Actor, c: Actor)
    requires Succeeds(a, b) && Succeeds(b, c)
    ensures Succeeds(a, c)
  {
  }

  lemma {:induction false} AdmissionTransitive(a: Manifest, b: Manifest, c: Manifest, codec: Codec)
    requires Admits(a, b, codec) && Admits(b, c, codec)
    ensures Admits(a, c, codec)
  {
    hide Valid, Admits, Succeeds;
    AdmitsIff(a, b, codec);
    AdmitsIff(b, c, codec);
    AdmitsIff(a, c, codec);
    forall x | x in a.actors && IsDurable(x)
      ensures Takes(x, c.actors)
    {
      var y :| y in b.actors && Succeeds(x, y);
      assert IsDurable(y) by { SucceedsDurable(x, y); }
      var z :| z in c.actors && Succeeds(y, z);
      SucceedsTransitive(x, y, z);
    }
  }

  lemma {:induction false} SucceedsDurable(a: Actor, b: Actor)
    requires Succeeds(a, b)
    ensures IsDurable(a) <==> IsDurable(b)
  {
  }

  /** Whatever is reached by a chain of admitted upgrades may be deployed
      directly over the first of them. */
  lemma {:induction false} ChainAdmits(chain: seq<Manifest>, codec: Codec)
    requires |chain| >= 1 && Valid(chain[0], codec)
    requires forall i :: 0 <= i < |chain| - 1 ==> Admits(chain[i], chain[i + 1], codec)
    ensures Admits(chain[0], chain[|chain| - 1], codec)
    decreases |chain|
  {
    hide Valid, Admits;
    if |chain| == 1 {
      AdmissionReflexive(chain[0], codec);
    } else {
      var front := chain[..|chain| - 1];
      assert forall i :: 0 <= i < |front| ==> front[i] == chain[i];
      ChainAdmits(front, codec);
      var n := |chain| - 2;
      assert Admits(chain[n], chain[n + 1], codec);
      AdmissionTransitive(chain[0], chain[n], chain[n + 1], codec);
    }
  }

  ghost predicate DurableIn(a: Actor, m: Manifest) { a in m.actors && IsDurable(a) }

  lemma {:induction false} TwoWayActor(a: Manifest, b: Manifest, codec: Codec, x: Actor)
    requires Admits(a, b, codec) && Admits(b, a, codec) && DurableIn(x, a)
    ensures DurableIn(x, b)
  {
    hide Admits, ActorOk, Trim;
    AdmitsIff(a, b, codec);
    AdmitsIff(b, a, codec);
    var y :| y in b.actors && Succeeds(x, y);
    var z :| z in a.actors && Succeeds(y, z);
    SameName(a.actors, x, x.name);
    SameName(a.actors, z, x.name);
  }

  /** Upgrades admitted both ways have exactly the same durable actors. */
  lemma {:induction false} TwoWayAdmission(a: Manifest, b: Manifest, codec: Codec)
    requires Admits(a, b, codec) && Admits(b, a, codec)
    ensures forall x :: DurableIn(x, a) <==> DurableIn(x, b)
  {
    hide Admits, DurableIn;
    forall x
      ensures DurableIn(x, a) <==> DurableIn(x, b)
    {
      if DurableIn(x, a) { TwoWayActor(a, b, codec, x); }
      if DurableIn(x, b) { TwoWayActor(b, a, codec, x); }
    }
  }

  // ----- order matters before normalisation -----

  function Swapped(steps: seq<Step>): seq<Step>
    requires |steps| >= 2
  {
    [steps[1], steps[0]] + steps[2..]
  }

  lemma {:induction false} SwappedMembers(steps: seq<Step>)
    requires |steps| >= 2
    ensures forall s :: s in Swapped(steps) <==> s in steps
    ensures OriginsDistinct(steps) ==> OriginsDistinct(Swapped(steps))
  {
    assert steps == [steps[0], steps[1]] + steps[2..];
    var t := Swapped(steps);
    assert forall i :: 2 <= i < |t| ==> t[i] == steps[i];
  }

  /** Listing the same migrations in another order is refused, although the
      two manifests have one normal form: callers must normalise first. */
  lemma {:induction false} OrderIsVisible(a: Actor)
    requires ActorOk(a) && IsDurable(a) && |a.migrations| >= 2
    ensures var b := a.(migrations := Swapped(a.migrations));
            NormalActor(a) == NormalActor(b) && Verdict(a, Some(b)) == Some(TopologyChanged(a.name))
  {
    hide NormalSteps, OriginsDistinct, IsId;
    var b := a.(migrations := Swapped(a.migrations));
    SwappedMembers(a.migrations);
    forall s | s in a.migrations
      ensures StepsMatch(s, s)
    {
    }
    SameNormalSteps(a.migrations, b.migrations);
    assert a.migrations[0].from != a.migrations[1].from by { FirstTwoDiffer(a.migrations); }
    assert b.migrations[0] != a.migrations[0];
  }

  lemma {:induction false} FirstTwoDiffer(steps: seq<Step>)
    requires OriginsDistinct(steps) && |steps| >= 2
    ensures steps[0].from != steps[1].from
  {
  }

  /** Exactly: two valid durable actors with one normal form replace each
      other only when they are written alike. */
  lemma {:induction false} SameNormalAdmittedIff(a: Actor, b: Actor)
    requires ActorOk(a) && ActorOk(b) && IsDurable(a) && NormalActor(a) == NormalActor(b)
    ensures Verdict(a, Some(b)) == None <==> a == b
  {
    hide NormalSteps, ActorOk, Verdict;
    assert a.(migrations := []) == NormalActor(a).(migrations := []);
    assert b.(migrations := []) == NormalActor(b).(migrations := []);
    VerdictIs(a, b);
  }

  // ----- spelling matters too -----

  /** An identity written with a capital letter names the same schema, is
      accepted by validation, and is refused as an unversioned change. */
  lemma {:induction false} SpellingIsVisible(a: Actor, spelled: string)
    requires ActorOk(a) && IsDurable(a) && ContentIdentity.Lower(spelled) == ContentIdentity.Lower(a.schemaId)
    ensures var b := a.(schemaId := spelled);
            && ActorOk(b) && ContentIdentity.ParseHash(b.schemaId) == ContentIdentity.ParseHash(a.schemaId)
            && Verdict(a, Some(b)) == if spelled == a.schemaId then None else Some(UnversionedChange(a.name))
  {
    hide ContentIdentity.FromHex, ContentIdentity.ToHex;
    var id := ContentIdentity.ParseHash(a.schemaId).value;
    ContentIdentity.ParsedLength(a.schemaId);
    ContentIdentity.IdentityRoundTrip(a.schemaId, id);
    ContentIdentity.IdentityRoundTrip(spelled, id);
    var b := a.(schemaId := spelled);
    forall i | 0 <= i < |b.migrations|
      ensures StepOk(b, i)
    {
      assert StepOk(a, i);
    }
  }
}
