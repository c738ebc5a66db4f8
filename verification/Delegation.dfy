/** Actors holding authority as canonical tokens, and delegation between them
    (src/authority_runtime.rs). */
module Delegation {
  import opened Options
  import opened Sorting
  import opened Authority

  datatype Failure = InvalidManifest | AmbiguousSpawn(pc: nat) | Denied(grant: Grant)

  datatype Outcome<T> = Granted(value: T) | Refused(why: Failure)

  /** What a token set authorises: nothing at all when any token is malformed. */
  function Holds(capabilities: set<string>): Manifest {
    var m := FromTokenSet(capabilities);
    if m.Some? then m.value else {}
  }

  predicate MayDelegate(capabilities: set<string>, requested: Manifest) {
    AllParse(capabilities) && requested <= ParsedSet(capabilities)
  }

  // ----- the order of grants -----

  function Rank(g: Grant): nat {
    match g
    case NetTcpOut(_, _) => 0
    case FsRead(_) => 1
    case FsWrite(_) => 2
    case EnvRead(_) => 3
    case SecretRead(_) => 4
    case ProcessRun(_) => 5
    case Other(_, _, _) => 6
  }

  predicate ArgumentLess(a: Option<string>, b: Option<string>) { b.Some? && (a.None? || StrLess(a.value, b.value)) }

  /** The derived order: by kind of grant, then field by field. */
  predicate GrantLess(a: Grant, b: Grant) {
    Rank(a) < Rank(b) ||
    match (a, b)
    case (NetTcpOut(h, p), NetTcpOut(k, q)) => StrLess(h, k) || (h == k && p < q)
    case (FsRead(x), FsRead(y)) => StrLess(x, y)
    case (FsWrite(x), FsWrite(y)) => StrLess(x, y)
    case (EnvRead(x), EnvRead(y)) => StrLess(x, y)
    case (SecretRead(x), SecretRead(y)) => StrLess(x, y)
    case (ProcessRun(x), ProcessRun(y)) => StrLess(x, y)
    case (Other(n, o, x), Other(m, q, y)) => StrLess(n, m) || (n == m && (StrLess(o, q) || (o == q && ArgumentLess(x, y))))
    case _ => false
  }

  lemma {:induction false} GrantOrder(a: Grant, b: Grant, c: Grant)
    ensures a != b ==> GrantLess(a, b) || GrantLess(b, a)
    ensures GrantLess(a, b) && GrantLess(b, c) ==> GrantLess(a, c)
  {
    hide StrLess;
    StrLessTotal();
  }

  /** The first grant of a set in that order. */
  predicate IsFirst(g: Grant, grants: Manifest) { g in grants && forall h :: h in grants ==> h == g || GrantLess(g, h) }

  method First(grants: Manifest) returns (first: Grant)
    requires grants != {}
    ensures IsFirst(first, grants)
  {
    hide GrantLess;
    first :| first in grants;
    var rest := grants - {first};
    while rest != {}
      invariant rest <= grants && first in grants
      invariant forall h :: h in grants - rest ==> h == first || GrantLess(first, h)
    {
      var g :| g in rest;
      forall h
        ensures g != first ==> GrantLess(first, g) || GrantLess(g, first)
        ensures GrantLess(g, first) && GrantLess(first, h) ==> GrantLess(g, h)
      {
        GrantOrder(g, first, h);
      }
      if GrantLess(g, first) {
        first := g;
      }
      rest := rest - {g};
    }
  }

  class Actor {
    var capabilities: set<string>

    constructor ()
      ensures capabilities == {}
    {
      capabilities := {};
    }

    method InstallAuthorityManifest(manifest: Manifest)
      modifies this
      ensures capabilities == Tokens(manifest)
    {
      capabilities := Tokens(manifest);
    }

    method RequireAuthority(grant: Grant) returns (r: Outcome<()>)
      ensures r == if !AllParse(capabilities) then Refused(InvalidManifest)
                   else if grant in Holds(capabilities) then Granted(()) else Refused(Denied(grant))
    {
      var manifest := FromTokenSet(capabilities);
      if manifest.None? {
        return Refused(InvalidManifest);
      }
      if grant in manifest.value {
        return Granted(());
      }
      return Refused(Denied(grant));
    }

    method DelegateAuthority(requested: Manifest) returns (r: Outcome<Manifest>)
      ensures r.Granted? <==> MayDelegate(capabilities, requested)
      ensures r.Granted? ==> r.value == requested
      ensures r.Refused? && AllParse(capabilities) ==>
                r.why.Denied? && IsFirst(r.why.grant, requested - Holds(capabilities))
      ensures !AllParse(capabilities) ==> r == Refused(InvalidManifest)
    {
      var parent := FromTokenSet(capabilities);
      if parent.None? {
        return Refused(InvalidManifest);
      }
      var missing := requested - parent.value;
      if missing != {} {
        var g := First(missing);
        return Refused(Denied(g));
      }
      assert requested <= parent.value by {
        assert forall g :: g in requested && g !in parent.value ==> g in missing;
      }
      return Granted(requested);
    }

    method DelegateAuthorityTo(child: Actor, requested: Manifest) returns (r: Outcome<()>)
      requires child != this
      modifies child
      ensures capabilities == old(capabilities)
      ensures r.Granted? <==> MayDelegate(old(capabilities), requested)
      ensures child.capabilities == if r.Granted? then Tokens(requested) else old(child.capabilities)
    {
      var delegated := DelegateAuthority(requested);
      if delegated.Refused? {
        return Refused(delegated.why);
      }
      child.InstallAuthorityManifest(delegated.value);
      return Granted(());
    }
  }

  // ----- spawn metadata -----

  type SpawnTable = seq<(nat, seq<string>)>

  function Matching(table: SpawnTable, pc: nat): seq<seq<string>> {
    if table == [] then []
    else (if table[0].0 == pc then [table[0].1] else []) + Matching(table[1..], pc)
  }

  /** No entry grants nothing, two entries are ambiguous, and one entry must
      parse in full. */
  method SpawnAuthorityManifest(table: SpawnTable, pc: nat) returns (r: Outcome<Manifest>)
    ensures |Matching(table, pc)| == 0 ==> r == Granted({})
    ensures |Matching(table, pc)| > 1 ==> r == Refused(AmbiguousSpawn(pc))
    ensures |Matching(table, pc)| == 1 ==>
              var m := FromTokenSet(set t | t in Matching(table, pc)[0]);
              r == if m.Some? then Granted(m.value) else Refused(InvalidManifest)
  {
    var found: seq<seq<string>> := [];
    for i := 0 to |table|
      invariant found + Matching(table[i..], pc) == Matching(table, pc)
    {
      assert table[i..][1..] == table[i + 1..];
      if table[i].0 == pc {
        found := found + [table[i].1];
      }
    }
    assert table[|table|..] == [];
    if found == [] {
      return Granted({});
    }
    if |found| > 1 {
      return Refused(AmbiguousSpawn(pc));
    }
    var m := FromTokens(found[0]);
    if m.Err? {
      assert !AllParse(set t | t in found[0]) by {
        var i :| 0 <= i < |found[0]| && Parse(found[0][i]).Err?;
        assert found[0][i] in (set t | t in found[0]);
      }
      return Refused(InvalidManifest);
    }
    return Granted(m.value);
  }

  // ----- runs of delegations -----

  /** Actors by id, each with its token set. */
  type Actors = map<nat, set<string>>

  /** One call of `delegate_authority_to`, the child possibly fresh. */
  datatype Step = Delegate(parent: nat, child: nat, requested: Manifest)

  function Next(actors: Actors, step: Step): Actors
    requires step.parent in actors
  {
    if MayDelegate(actors[step.parent], step.requested) then actors[step.child := Tokens(step.requested)]
    else if step.child in actors then actors else actors[step.child := {}]
  }

  predicate ValidRun(actors: Actors, steps: seq<Step>)
    decreases |steps|
  {
    steps == [] || (steps[0].parent in actors && steps[0].parent != steps[0].child && ValidRun(Next(actors, steps[0]), steps[1..]))
  }

  function After(actors: Actors, steps: seq<Step>): Actors
    requires ValidRun(actors, steps)
    decreases |steps|
  {
    if steps == [] then actors else After(Next(actors, steps[0]), steps[1..])
  }

  ghost predicate Held(actors: Actors, g: Grant) { exists a :: a in actors && g in Holds(actors[a]) }

  /** Whatever was delegated is what the child's tokens authorise. */
  lemma {:induction false} DelegatedIsHeld(capabilities: set<string>, requested: Manifest)
    requires MayDelegate(capabilities, requested)
    ensures AllParse(Tokens(requested)) && Holds(Tokens(requested)) == requested
  {
    hide Printable, Parse, Print;
    ParsedArePrintable(capabilities);
    ManifestRoundTrip(requested);
  }

  lemma {:induction false} StepNeverCreates(actors: Actors, step: Step, g: Grant)
    requires step.parent in actors && Held(Next(actors, step), g)
    ensures Held(actors, g)
  {
    hide AllParse, ParsedSet;
    var after := Next(actors, step);
    var a :| a in after && g in Holds(after[a]);
    if MayDelegate(actors[step.parent], step.requested) && a == step.child {
      DelegatedIsHeld(actors[step.parent], step.requested);
      assert g in Holds(actors[step.parent]);
    } else if a !in actors {
      EmptyHoldsNothing();
    } else {
      assert after[a] == actors[a];
    }
  }

  lemma {:induction false} EmptyHoldsNothing()
    ensures Holds({}) == {}
  {
  }

  /** No run of delegations gives any actor a grant that no actor held at its
      start. */
  lemma {:induction false} NoAuthorityFromNothing(actors: Actors, steps: seq<Step>, g: Grant)
    requires ValidRun(actors, steps) && Held(After(actors, steps), g)
    ensures Held(actors, g)
    decreases |steps|
  {
    hide Held, Next;
    if steps != [] {
      NoAuthorityFromNothing(Next(actors, steps[0]), steps[1..], g);
      StepNeverCreates(actors, steps[0], g);
    }
  }

  /** The last successful delegation to an actor, if any. */
  function LastInstalled(actors: Actors, steps: seq<Step>, a: nat): Option<Manifest>
    requires ValidRun(actors, steps)
    decreases |steps|
  {
    if steps == [] then None
    else
      var later := LastInstalled(Next(actors, steps[0]), steps[1..], a);
      if later.Some? then later
      else if steps[0].child == a && MayDelegate(actors[steps[0].parent], steps[0].requested) then Some(steps[0].requested)
      else None
  }

  /** At the end of any run every actor, those created on the way included,
      has tokens that parse back to the manifest last installed; an actor
      nobody delegated to successfully is as it was, and empty if created. */
  lemma {:induction false} TokensTellTheTruth(actors: Actors, steps: seq<Step>, a: nat)
    requires ValidRun(actors, steps) && a in After(actors, steps)
    ensures var m := LastInstalled(actors, steps, a);
            if m.Some? then FromTokenSet(After(actors, steps)[a]) == Some(m.value)
            else After(actors, steps)[a] == if a in actors then actors[a] else {}
    decreases |steps|
  {
    hide MayDelegate, Tokens, FromTokenSet;
    if steps != [] {
      TokensTellTheTruth(Next(actors, steps[0]), steps[1..], a);
      if steps[0].child == a && MayDelegate(actors[steps[0].parent], steps[0].requested) {
        InstalledParses(actors[steps[0].parent], steps[0].requested);
      }
    }
  }

  /** Nobody disappears, and exactly the children of the run are new. */
  lemma {:induction false} RunActors(actors: Actors, steps: seq<Step>, a: nat)
    requires ValidRun(actors, steps)
    ensures a in After(actors, steps) <==> a in actors || exists i :: 0 <= i < |steps| && steps[i].child == a
    decreases |steps|
  {
    hide MayDelegate, Tokens;
    if steps != [] {
      var rest := steps[1..];
      RunActors(Next(actors, steps[0]), rest, a);
      if exists i :: 0 <= i < |rest| && rest[i].child == a {
        var i :| 0 <= i < |rest| && rest[i].child == a;
        assert steps[i + 1].child == a;
      }
      if i :| 0 <= i < |steps| && steps[i].child == a {
        assert i > 0 ==> rest[i - 1].child == a;
      }
    }
  }

  lemma {:induction false} InstalledParses(capabilities: set<string>, requested: Manifest)
    requires MayDelegate(capabilities, requested)
    ensures FromTokenSet(Tokens(requested)) == Some(requested)
  {
    DelegatedIsHeld(capabilities, requested);
  }
}
