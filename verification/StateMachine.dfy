/** State machines as actors: the desugaring of `state_machine` declarations
    and the machine it stands for (src/ast.rs, `desugar_state_machine`). */
module StateMachine {
  import opened Options

  /** Hooks are known by number; what they do is up to the program. */
  type Hook = nat

  datatype Event = Event(name: string, params: seq<string>, target: string)

  datatype Machine = Machine(states: seq<string>, events: seq<Event>, entries: seq<(string, Hook)>, exits: seq<(string, Hook)>)

  // ----- the desugared actor -----

  /** The statements the desugaring emits: a hook guarded by a comparison of
      the state tag, a hook, an assignment of the tag, nil. */
  datatype Stmt = IfTag(state: string, hook: Hook) | RunHook(hook: Hook) | SetTag(target: string) | NilValue

  datatype Behavior = Behavior(name: string, params: seq<string>, body: seq<Stmt>)

  datatype ActorDecl = ActorDecl(initial: string, behaviors: seq<Behavior>)

  function FirstFor(hooks: seq<(string, Hook)>, state: string): Option<Hook> {
    if hooks == [] then None else if hooks[0].0 == state then Some(hooks[0].1) else FirstFor(hooks[1..], state)
  }

  function ExitStmts(exits: seq<(string, Hook)>): seq<Stmt> { seq(|exits|, i requires 0 <= i < |exits| => IfTag(exits[i].0, exits[i].1)) }

  function EntryStmts(entries: seq<(string, Hook)>, target: string): seq<Stmt> {
    match FirstFor(entries, target) case Some(h) => [RunHook(h)] case None => []
  }

  function Body(m: Machine, e: Event): seq<Stmt> {
    ExitStmts(m.exits) + [SetTag(e.target)] + EntryStmts(m.entries, e.target) + [NilValue]
  }

  function Initial(m: Machine): string { if m.states == [] then "" else m.states[0] }

  function Desugared(m: Machine): ActorDecl {
    ActorDecl(Initial(m), seq(|m.events|, i requires 0 <= i < |m.events| =>
                            Behavior(m.events[i].name, m.events[i].params, Body(m, m.events[i]))))
  }

  /** The source's construction, pushing one statement at a time. */
  method Desugar(m: Machine) returns (a: ActorDecl)
    ensures a == Desugared(m)
  {
    var behaviors: seq<Behavior> := [];
    for i := 0 to |m.events|
      invariant behaviors == Desugared(m).behaviors[..i]
    {
      var event := m.events[i];
      var body: seq<Stmt> := [];
      for j := 0 to |m.exits|
        invariant body == ExitStmts(m.exits)[..j]
      {
        body := body + [IfTag(m.exits[j].0, m.exits[j].1)];
      }
      assert body == ExitStmts(m.exits);
      body := body + [SetTag(event.target)];
      var hook := FirstFor(m.entries, event.target);
      if hook.Some? {
        body := body + [RunHook(hook.value)];
      }
      body := body + [NilValue];
      assert body == Body(m, event) by {
        assert ExitStmts(m.exits) + [SetTag(event.target)] + [] == ExitStmts(m.exits) + [SetTag(event.target)];
      }
      behaviors := behaviors + [Behavior(event.name, event.params, body)];
    }
    return ActorDecl(if |m.states| > 0 then m.states[0] else "", behaviors);
  }

  // ----- running statements -----

  /** The arguments of an event, by parameter name. */
  type Args = map<string, nat>

  /** One run of a hook, with the state tag and the arguments it saw. */
  datatype Ran = Ran(hook: Hook, tag: string, seen: Args)

  datatype World<S> = World(tag: string, store: S, trace: seq<Ran>)

  /** Which names a hook mentions, and what it does to the tag and to
      everything else, given the arguments among those names. */
  datatype Hooks<!S> = Hooks(free: Hook -> set<string>, effect: (Hook, Args, string, S) -> (string, S))

  function Visible(args: Args, free: set<string>): Args { map x | x in args && x in free :: args[x] }

  function Fire<S>(h: Hook, args: Args, w: World<S>, hooks: Hooks<S>): World<S> {
    var seen := Visible(args, hooks.free(h));
    var r := hooks.effect(h, seen, w.tag, w.store);
    World(r.0, r.1, w.trace + [Ran(h, w.tag, seen)])
  }

  /** Hooks are copied into the behavior, so they run under its parameters. */
  function Exec<S>(stmt: Stmt, args: Args, w: World<S>, hooks: Hooks<S>): World<S> {
    match stmt
    case IfTag(state, hook) => if w.tag == state then Fire(hook, args, w, hooks) else w
    case RunHook(hook) => Fire(hook, args, w, hooks)
    case SetTag(target) => w.(tag := target)
    case NilValue => w
  }

  function ExecAll<S>(body: seq<Stmt>, args: Args, w: World<S>, hooks: Hooks<S>): World<S>
    decreases |body|
  {
    if body == [] then w else ExecAll(body[1..], args, Exec(body[0], args, w, hooks), hooks)
  }

  // ----- the machine itself -----

  function FireOptional<S>(h: Option<Hook>, args: Args, w: World<S>, hooks: Hooks<S>): World<S> {
    if h.Some? then Fire(h.value, args, w, hooks) else w
  }

  /** Exit the current state, move to the target, enter it. Hooks are declared
      outside the events and see no argument. */
  function Transition<S>(m: Machine, e: Event, w: World<S>, hooks: Hooks<S>): World<S> {
    var left := FireOptional(FirstFor(m.exits, w.tag), map[], w, hooks);
    FireOptional(FirstFor(m.entries, e.target), map[], left.(tag := e.target), hooks)
  }

  datatype Input = Input(event: nat, args: Args)

  predicate ArgsFor(e: Event, args: Args) { args.Keys == set x | x in e.params }

  predicate InputOk(m: Machine, input: Input) { input.event < |m.events| && ArgsFor(m.events[input.event], input.args) }

  predicate Inputs(m: Machine, inputs: seq<Input>) { forall i :: 0 <= i < |inputs| ==> InputOk(m, inputs[i]) }

  function RunActor<S>(a: ActorDecl, inputs: seq<Input>, w: World<S>, hooks: Hooks<S>): World<S>
    requires forall i :: 0 <= i < |inputs| ==> inputs[i].event < |a.behaviors|
    decreases |inputs|
  {
    if inputs == [] then w
    else RunActor(a, inputs[1..], ExecAll(a.behaviors[inputs[0].event].body, inputs[0].args, w, hooks), hooks)
  }

  function RunMachine<S>(m: Machine, inputs: seq<Input>, w: World<S>, hooks: Hooks<S>): World<S>
    requires Inputs(m, inputs)
    decreases |inputs|
  {
    if inputs == [] then w else RunMachine(m, inputs[1..], Transition(m, m.events[inputs[0].event], w, hooks), hooks)
  }

  // ----- when a behavior does what a transition does -----

  predicate Unseen(h: Hook, args: Args, free: Hook -> set<string>) { free(h) !! args.Keys }

  predicate FirstAt(exits: seq<(string, Hook)>, tag: string, i: nat) {
    i < |exits| && exits[i].0 == tag && forall k :: 0 <= k < i ==> exits[k].0 != tag
  }

  /** The exit hook that runs mentions no parameter, and leaves a tag for which
      no exit hook is listed after it. */
  predicate ExitSafe<S>(exits: seq<(string, Hook)>, args: Args, tag: string, store: S, hooks: Hooks<S>) {
    forall i :: 0 <= i < |exits| && FirstAt(exits, tag, i) ==>
      && Unseen(exits[i].1, args, hooks.free)
      && forall j :: i < j < |exits| ==> exits[j].0 != hooks.effect(exits[i].1, map[], tag, store).0
  }

  predicate EntrySafe(entries: seq<(string, Hook)>, target: string, args: Args, free: Hook -> set<string>) {
    FirstFor(entries, target).Some? ==> Unseen(FirstFor(entries, target).value, args, free)
  }

  predicate StepSafe<S>(m: Machine, e: Event, args: Args, tag: string, store: S, hooks: Hooks<S>) {
    ExitSafe(m.exits, args, tag, store, hooks) && EntrySafe(m.entries, e.target, args, hooks.free)
  }

  lemma {:induction false} ExecJoin<S>(a: seq<Stmt>, b: seq<Stmt>, args: Args, w: World<S>, hooks: Hooks<S>)
    ensures ExecAll(a + b, args, w, hooks) == ExecAll(b, args, ExecAll(a, args, w, hooks), hooks)
    decreases |a|
  {
    hide Exec;
    if a == [] {
      assert a + b == b;
    } else {
      assert (a + b)[1..] == a[1..] + b;
      ExecJoin(a[1..], b, args, Exec(a[0], args, w, hooks), hooks);
    }
  }

  lemma {:induction false} TraceGrows<S>(body: seq<Stmt>, args: Args, w: World<S>, hooks: Hooks<S>)
    ensures w.trace <= ExecAll(body, args, w, hooks).trace
    decreases |body|
  {
    if body != [] { TraceGrows(body[1..], args, Exec(body[0], args, w, hooks), hooks); }
  }

  lemma {:induction false} UnseenNothing(h: Hook, args: Args, free: Hook -> set<string>)
    ensures Visible(args, free(h)) == map[] <==> Unseen(h, args, free)
    ensures Visible(map[], free(h)) == map[]
  {
    if Visible(args, free(h)) == map[] {
      forall x | x in args
        ensures x !in free(h)
      {
        assert x in free(h) ==> x in Visible(args, free(h));
      }
    }
  }

  lemma {:induction false} SameFire<S>(h: Hook, args: Args, w: World<S>, hooks: Hooks<S>)
    ensures Unseen(h, args, hooks.free) ==> Fire(h, args, w, hooks) == Fire(h, map[], w, hooks)
    ensures !Unseen(h, args, hooks.free) ==> Fire(h, args, w, hooks).trace != Fire(h, map[], w, hooks).trace
    ensures Fire(h, map[], w, hooks).tag == hooks.effect(h, map[], w.tag, w.store).0
    ensures |Fire(h, args, w, hooks).trace| == |w.trace| + 1
  {
    UnseenNothing(h, args, hooks.free);
    var a, b := Fire(h, args, w, hooks), Fire(h, map[], w, hooks);
    assert a.trace[|w.trace|].seen == Visible(args, hooks.free(h)) && b.trace[|w.trace|].seen == map[];
  }

  lemma {:induction false} NoExit<S>(exits: seq<(string, Hook)>, args: Args, w: World<S>, hooks: Hooks<S>)
    ensures (forall i :: 0 <= i < |exits| ==> exits[i].0 != w.tag) ==> ExecAll(ExitStmts(exits), args, w, hooks) == w
    ensures (exists i :: 0 <= i < |exits| && exits[i].0 == w.tag) ==> |ExecAll(ExitStmts(exits), args, w, hooks).trace| > |w.trace|
    decreases |exits|
  {
    if exits != [] {
      assert ExitStmts(exits)[1..] == ExitStmts(exits[1..]);
      if exits[0].0 == w.tag {
        SameFire(exits[0].1, args, w, hooks);
        TraceGrows(ExitStmts(exits[1..]), args, Fire(exits[0].1, args, w, hooks), hooks);
      } else {
        NoExit(exits[1..], args, w, hooks);
        assert forall i :: 0 < i < |exits| ==> exits[i] == exits[1..][i - 1];
        if exists i :: 0 <= i < |exits| && exits[i].0 == w.tag {
          var i :| 0 <= i < |exits| && exits[i].0 == w.tag;
          assert exits[1..][i - 1].0 == w.tag;
        }
      }
    }
  }

  lemma {:induction false} SafeTail<S>(exits: seq<(string, Hook)>, args: Args, tag: string, store: S, hooks: Hooks<S>)
    requires exits != [] && exits[0].0 != tag
    ensures ExitSafe(exits, args, tag, store, hooks) <==> ExitSafe(exits[1..], args, tag, store, hooks)
  {
    hide Unseen;
    var rest := exits[1..];
    assert forall i :: 0 <= i < |rest| ==> rest[i] == exits[i + 1];
    assert forall i: nat :: FirstAt(rest, tag, i) ==> FirstAt(exits, tag, i + 1);
    forall i: nat | FirstAt(exits, tag, i)
      ensures i > 0 && FirstAt(rest, tag, i - 1)
    {
      assert forall k :: 0 <= k < i - 1 ==> rest[k] == exits[k + 1];
    }
    if ExitSafe(exits, args, tag, store, hooks) {
      forall i: nat | FirstAt(rest, tag, i)
        ensures Unseen(rest[i].1, args, hooks.free)
        ensures forall j :: i < j < |rest| ==> rest[j].0 != hooks.effect(rest[i].1, map[], tag, store).0
      {
        assert FirstAt(exits, tag, i + 1);
      }
    }
    if ExitSafe(rest, args, tag, store, hooks) {
      forall i: nat | FirstAt(exits, tag, i)
        ensures Unseen(exits[i].1, args, hooks.free)
        ensures forall j :: i < j < |exits| ==> exits[j].0 != hooks.effect(exits[i].1, map[], tag, store).0
      {
        assert FirstAt(rest, tag, i - 1);
        assert forall j :: i < j < |exits| ==> exits[j] == rest[j - 1];
      }
    }
  }

  lemma {:induction false} SafeHead<S>(exits: seq<(string, Hook)>, args: Args, tag: string, store: S, hooks: Hooks<S>)
    requires exits != [] && exits[0].0 == tag
    ensures ExitSafe(exits, args, tag, store, hooks) <==>
            Unseen(exits[0].1, args, hooks.free)
            && forall j :: 0 <= j < |exits[1..]| ==> exits[1..][j].0 != hooks.effect(exits[0].1, map[], tag, store).0
  {
    hide Unseen;
    assert FirstAt(exits, tag, 0);
    assert forall i: nat :: FirstAt(exits, tag, i) ==> i == 0;
    assert forall j :: 0 <= j < |exits[1..]| ==> exits[1..][j] == exits[j + 1];
    assert forall j :: 0 < j < |exits| ==> exits[j] == exits[1..][j - 1];
  }

  /** The chain of exit tests runs what the machine runs, or else leaves
      another trace. */
  lemma {:induction false} ExitsIff<S>(exits: seq<(string, Hook)>, args: Args, w: World<S>, hooks: Hooks<S>)
    ensures var a, b := ExecAll(ExitStmts(exits), args, w, hooks), FireOptional(FirstFor(exits, w.tag), map[], w, hooks);
            if ExitSafe(exits, args, w.tag, w.store, hooks) then a == b else a.trace != b.trace
    decreases |exits|
  {
    hide Fire, ExitSafe;
    if exits == [] {
      assert ExitSafe(exits, args, w.tag, w.store, hooks) by { NothingUnsafe(args, w.tag, w.store, hooks); }
    } else {
      assert ExitStmts(exits)[1..] == ExitStmts(exits[1..]);
      if exits[0].0 != w.tag {
        SafeTail(exits, args, w.tag, w.store, hooks);
        ExitsIff(exits[1..], args, w, hooks);
      } else {
        var rest, h := exits[1..], exits[0].1;
        SafeHead(exits, args, w.tag, w.store, hooks);
        SameFire(h, args, w, hooks);
        SameFire(h, map[], w, hooks);
        var w1 := Fire(h, args, w, hooks);
        NoExit(rest, args, w1, hooks);
        TraceGrows(ExitStmts(rest), args, w1, hooks);
      }
    }
  }

  lemma {:induction false} NothingUnsafe<S>(args: Args, tag: string, store: S, hooks: Hooks<S>)
    ensures ExitSafe([], args, tag, store, hooks)
  {
  }

  lemma {:induction false} ExecShort<S>(args: Args, w: World<S>, hooks: Hooks<S>, target: string, h: Option<Hook>)
    ensures ExecAll([SetTag(target)], args, w, hooks) == w.(tag := target)
    ensures ExecAll([NilValue], args, w, hooks) == w
    ensures ExecAll(match h case Some(x) => [RunHook(x)] case None => [], args, w, hooks) == FireOptional(h, args, w, hooks)
  {
    assert [SetTag(target)][1..] == [] && [NilValue][1..] == [];
    if h.Some? { assert [RunHook(h.value)][1..] == []; }
  }

  lemma {:induction false} BodyIs<S>(m: Machine, e: Event, args: Args, w: World<S>, hooks: Hooks<S>)
    ensures ExecAll(Body(m, e), args, w, hooks) ==
            FireOptional(FirstFor(m.entries, e.target), args, ExecAll(ExitStmts(m.exits), args, w, hooks).(tag := e.target), hooks)
  {
    hide Exec, FireOptional;
    var exits, set_, entry := ExitStmts(m.exits), [SetTag(e.target)], EntryStmts(m.entries, e.target);
    ExecJoin(exits, set_, args, w, hooks);
    ExecJoin(exits + set_, entry, args, w, hooks);
    ExecJoin(exits + set_ + entry, [NilValue], args, w, hooks);
    var left := ExecAll(exits, args, w, hooks);
    ExecShort(args, left, hooks, e.target, None);
    ExecShort(args, left.(tag := e.target), hooks, "", FirstFor(m.entries, e.target));
    ExecShort(args, FireOptional(FirstFor(m.entries, e.target), args, left.(tag := e.target), hooks), hooks, "", None);
  }

  lemma {:induction false} EntryDiffers<S>(h: Option<Hook>, args: Args, a: World<S>, b: World<S>, hooks: Hooks<S>)
    requires a.trace != b.trace
    ensures FireOptional(h, args, a, hooks).trace != FireOptional(h, map[], b, hooks).trace
  {
    if h.Some? {
      var x, y := FireOptional(h, args, a, hooks).trace, FireOptional(h, map[], b, hooks).trace;
      assert x[..|x| - 1] == a.trace && y[..|y| - 1] == b.trace;
    }
  }

  /** From any tag and store, whatever the hooks do, the behavior of an event
      has the outcome of the transition exactly when the step is safe. */
  lemma {:induction false} BodyIff<S>(m: Machine, e: Event, args: Args, w: World<S>, hooks: Hooks<S>)
    ensures ExecAll(Body(m, e), args, w, hooks) == Transition(m, e, w, hooks) <==> StepSafe(m, e, args, w.tag, w.store, hooks)
  {
    hide Fire, ExitSafe, Unseen, Body, ExecAll;
    BodyIs(m, e, args, w, hooks);
    ExitsIff(m.exits, args, w, hooks);
    var h := FirstFor(m.entries, e.target);
    var a := ExecAll(ExitStmts(m.exits), args, w, hooks).(tag := e.target);
    var b := FireOptional(FirstFor(m.exits, w.tag), map[], w, hooks).(tag := e.target);
    if ExitSafe(m.exits, args, w.tag, w.store, hooks) {
      if h.Some? { SameFire(h.value, args, b, hooks); }
    } else {
      EntryDiffers(h, args, a, b, hooks);
    }
  }

  // ----- whole runs -----

  /** Every step that the machine takes is safe where it takes it. */
  predicate RunSafe<S>(m: Machine, inputs: seq<Input>, w: World<S>, hooks: Hooks<S>)
    requires Inputs(m, inputs)
    decreases |inputs|
  {
    inputs == [] ||
    var e := m.events[inputs[0].event];
    StepSafe(m, e, inputs[0].args, w.tag, w.store, hooks) && RunSafe(m, inputs[1..], Transition(m, e, w, hooks), hooks)
  }

  predicate AgreeAt<S(==)>(m: Machine, inputs: seq<Input>, k: nat, w: World<S>, hooks: Hooks<S>)
    requires Inputs(m, inputs) && k <= |inputs|
  {
    RunActor(Desugared(m), inputs[..k], w, hooks) == RunMachine(m, inputs[..k], w, hooks)
  }

  lemma {:induction false} AgreeShift<S>(m: Machine, inputs: seq<Input>, k: nat, w: World<S>, hooks: Hooks<S>)
    requires Inputs(m, inputs) && 0 < k <= |inputs|
    requires ExecAll(Body(m, m.events[inputs[0].event]), inputs[0].args, w, hooks) == Transition(m, m.events[inputs[0].event], w, hooks)
    ensures AgreeAt(m, inputs, k, w, hooks) <==>
            AgreeAt(m, inputs[1..], k - 1, Transition(m, m.events[inputs[0].event], w, hooks), hooks)
  {
    hide Body, Transition, ExecAll;
    assert inputs[..k][1..] == inputs[1..][..k - 1] && inputs[..k][0] == inputs[0];
  }

  lemma {:induction false} SingleInput<S>(m: Machine, input: Input, w: World<S>, hooks: Hooks<S>)
    requires InputOk(m, input)
    ensures Inputs(m, [input]) && RunMachine(m, [input], w, hooks) == Transition(m, m.events[input.event], w, hooks)
    ensures RunActor(Desugared(m), [input], w, hooks) == ExecAll(Body(m, m.events[input.event]), input.args, w, hooks)
  {
    hide Body, Transition, ExecAll;
    assert [input][1..] == [];
    var next := ExecAll(Body(m, m.events[input.event]), input.args, w, hooks);
    assert RunActor(Desugared(m), [input], w, hooks) == RunActor(Desugared(m), [], next, hooks);
    assert RunMachine(m, [input], w, hooks) == RunMachine(m, [], Transition(m, m.events[input.event], w, hooks), hooks);
  }

  lemma {:induction false} AgreeFirst<S>(m: Machine, inputs: seq<Input>, w: World<S>, hooks: Hooks<S>)
    requires Inputs(m, inputs) && inputs != [] && AgreeAt(m, inputs, 1, w, hooks)
    ensures ExecAll(Body(m, m.events[inputs[0].event]), inputs[0].args, w, hooks) == Transition(m, m.events[inputs[0].event], w, hooks)
  {
    hide Body, Transition, ExecAll;
    var one := inputs[..1];
    assert one == [inputs[0]];
    SingleInput(m, inputs[0], w, hooks);
  }

  /** The desugared actor keeps step with the machine throughout an event
      sequence exactly when the run is safe. */
  lemma {:induction false} RunsAgreeIff<S>(m: Machine, inputs: seq<Input>, w: World<S>, hooks: Hooks<S>)
    requires Inputs(m, inputs)
    ensures (forall k: nat :: k <= |inputs| ==> AgreeAt(m, inputs, k, w, hooks)) <==> RunSafe(m, inputs, w, hooks)
    decreases |inputs|
  {
    hide AgreeAt, StepSafe, Transition;
    assert AgreeAt(m, inputs, 0, w, hooks) by { AgreeNothing(m, inputs, w, hooks); }
    if inputs != [] {
      var e, rest := m.events[inputs[0].event], inputs[1..];
      var next := Transition(m, e, w, hooks);
      BodyIff(m, e, inputs[0].args, w, hooks);
      RunsAgreeIff(m, rest, next, hooks);
      if forall k: nat :: k <= |inputs| ==> AgreeAt(m, inputs, k, w, hooks) {
        AgreeFirst(m, inputs, w, hooks);
        forall k: nat | k <= |rest|
          ensures AgreeAt(m, rest, k, next, hooks)
        {
          AgreeShift(m, inputs, k + 1, w, hooks);
        }
      }
      if RunSafe(m, inputs, w, hooks) {
        forall k: nat | 0 < k <= |inputs|
          ensures AgreeAt(m, inputs, k, w, hooks)
        {
          AgreeShift(m, inputs, k, w, hooks);
        }
      }
    }
  }

  lemma {:induction false} AgreeNothing<S>(m: Machine, inputs: seq<Input>, w: World<S>, hooks: Hooks<S>)
    requires Inputs(m, inputs)
    ensures AgreeAt(m, inputs, 0, w, hooks)
  {
  }

  /** On every safe event sequence the desugared actor ends with the tag, the
      store and the hook trace of the machine. */
  lemma {:induction false} ActorSimulatesMachine<S>(m: Machine, inputs: seq<Input>, w: World<S>, hooks: Hooks<S>)
    requires Inputs(m, inputs) && RunSafe(m, inputs, w, hooks)
    ensures RunActor(Desugared(m), inputs, w, hooks) == RunMachine(m, inputs, w, hooks)
  {
    hide RunSafe;
    RunsAgreeIff(m, inputs, w, hooks);
    assert AgreeAt(m, inputs, |inputs|, w, hooks);
    assert inputs[..|inputs|] == inputs;
  }

  /** Every event is safe from every tag and store. */
  ghost predicate AlwaysSafe<S(!new)>(m: Machine, hooks: Hooks<S>) {
    forall input, tag, store :: InputOk(m, input) ==> StepSafe(m, m.events[input.event], input.args, tag, store, hooks)
  }

  lemma {:induction false} AlwaysSafeRun<S(!new)>(m: Machine, inputs: seq<Input>, w: World<S>, hooks: Hooks<S>)
    requires AlwaysSafe(m, hooks) && Inputs(m, inputs)
    ensures RunSafe(m, inputs, w, hooks)
    decreases |inputs|
  {
    hide StepSafe, Transition;
    if inputs != [] {
      assert InputOk(m, inputs[0]);
      AlwaysSafeRun(m, inputs[1..], Transition(m, m.events[inputs[0].event], w, hooks), hooks);
    }
  }

  ghost predicate AlwaysAgree<S(!new)>(m: Machine, hooks: Hooks<S>) {
    forall inputs, w :: Inputs(m, inputs) ==> RunActor(Desugared(m), inputs, w, hooks) == RunMachine(m, inputs, w, hooks)
  }

  /** Actor and machine agree on all event sequences from all worlds exactly
      when every event is safe everywhere. */
  lemma {:induction false} AlwaysAgreeIff<S(!new)>(m: Machine, hooks: Hooks<S>)
    ensures AlwaysAgree(m, hooks) <==> AlwaysSafe(m, hooks)
  {
    hide StepSafe, Transition, Body;
    if AlwaysSafe(m, hooks) {
      forall inputs, w | Inputs(m, inputs)
        ensures RunActor(Desugared(m), inputs, w, hooks) == RunMachine(m, inputs, w, hooks)
      {
        AlwaysSafeRun(m, inputs, w, hooks);
        ActorSimulatesMachine(m, inputs, w, hooks);
      }
    }
    if AlwaysAgree(m, hooks) {
      forall input, tag, store | InputOk(m, input)
        ensures StepSafe(m, m.events[input.event], input.args, tag, store, hooks)
      {
        var w := World(tag, store, []);
        OneStep(m, input, w, hooks);
        assert w.tag == tag && w.store == store;
      }
      assert AlwaysSafe(m, hooks);
    }
  }

  lemma {:induction false} OneStep<S>(m: Machine, input: Input, w: World<S>, hooks: Hooks<S>)
    requires InputOk(m, input)
    ensures Inputs(m, [input]) && RunMachine(m, [input], w, hooks) == Transition(m, m.events[input.event], w, hooks)
    ensures RunActor(Desugared(m), [input], w, hooks) == RunMachine(m, [input], w, hooks) ==>
            StepSafe(m, m.events[input.event], input.args, w.tag, w.store, hooks)
  {
    hide StepSafe, Transition, Body, ExecAll;
    SingleInput(m, input, w, hooks);
    BodyIff(m, m.events[input.event], input.args, w, hooks);
  }

  // ----- hooks that leave the tag alone -----

  /** No hook writes the state tag. */
  ghost predicate Quiet<S(!new)>(hooks: Hooks<S>) {
    forall h, args, t, s {:trigger hooks.effect(h, args, t, s)} :: hooks.effect(h, args, t, s).0 == t
  }

  predicate DistinctStates(hooks: seq<(string, Hook)>) {
    forall i, j :: 0 <= i < j < |hooks| ==> hooks[i].0 != hooks[j].0
  }

  /** No hook mentions an argument. */
  predicate NoCapture(m: Machine, args: Args, free: Hook -> set<string>) {
    && (forall i :: 0 <= i < |m.exits| ==> Unseen(m.exits[i].1, args, free))
    && (forall i :: 0 <= i < |m.entries| ==> Unseen(m.entries[i].1, args, free))
  }

  lemma {:induction false} FirstForIn(hooks: seq<(string, Hook)>, state: string)
    requires FirstFor(hooks, state).Some?
    ensures exists i :: 0 <= i < |hooks| && hooks[i] == (state, FirstFor(hooks, state).value)
  {
    if hooks[0].0 == state {
      assert hooks[0] == (state, hooks[0].1);
    } else {
      FirstForIn(hooks[1..], state);
      var i :| 0 <= i < |hooks[1..]| && hooks[1..][i] == (state, FirstFor(hooks[1..], state).value);
      assert hooks[i + 1] == hooks[1..][i];
    }
  }

  lemma {:induction false} LeastIndex(exits: seq<(string, Hook)>, i: nat) returns (k: nat)
    requires i < |exits|
    ensures k <= i && FirstAt(exits, exits[i].0, k)
  {
    k := i;
    if j: nat :| j < i && exits[j].0 == exits[i].0 {
      k := LeastIndex(exits, j);
    }
  }

  /** For hooks that leave the tag and the arguments alone, actor and machine
      agree on an event from every tag exactly when no state has two exit
      hooks. */
  lemma {:induction false} SimulatesIffDistinct<S(!new)>(m: Machine, e: Event, args: Args, store: S, hooks: Hooks<S>)
    requires Quiet(hooks) && NoCapture(m, args, hooks.free)
    ensures (forall tag {:trigger World(tag, store, [])} ::
               ExecAll(Body(m, e), args, World(tag, store, []), hooks) == Transition(m, e, World(tag, store, []), hooks))
            <==> DistinctStates(m.exits)
  {
    hide Body, Transition, ExecAll, Unseen;
    forall tag
      ensures ExecAll(Body(m, e), args, World(tag, store, []), hooks) == Transition(m, e, World(tag, store, []), hooks)
              <==> ExitSafe(m.exits, args, tag, store, hooks)
    {
      BodyIff(m, e, args, World(tag, store, []), hooks);
      if FirstFor(m.entries, e.target).Some? { FirstForIn(m.entries, e.target); }
    }
    if DistinctStates(m.exits) {
      assert forall tag :: ExitSafe(m.exits, args, tag, store, hooks);
    } else {
      var i, j :| 0 <= i < j < |m.exits| && m.exits[i].0 == m.exits[j].0;
      var k := LeastIndex(m.exits, i);
      assert !ExitSafe(m.exits, args, m.exits[i].0, store, hooks);
      assert World(m.exits[i].0, store, []).tag == m.exits[i].0;
    }
  }

  // ----- declared states -----

  predicate Declared(m: Machine) { m.states != [] && forall e :: e in m.events ==> e.target in m.states }

  lemma {:induction false} TransitionTag<S(!new)>(m: Machine, e: Event, w: World<S>, hooks: Hooks<S>)
    requires Quiet(hooks)
    ensures Transition(m, e, w, hooks).tag == e.target
  {
  }

  lemma {:induction false} TagDeclared<S(!new)>(m: Machine, inputs: seq<Input>, w: World<S>, hooks: Hooks<S>)
    requires Quiet(hooks) && Inputs(m, inputs) && Declared(m) && w.tag in m.states
    ensures RunMachine(m, inputs, w, hooks).tag in m.states
    decreases |inputs|
  {
    hide Quiet, Transition;
    if inputs != [] {
      assert m.events[inputs[0].event] in m.events;
      TransitionTag(m, m.events[inputs[0].event], w, hooks);
      TagDeclared(m, inputs[1..], Transition(m, m.events[inputs[0].event], w, hooks), hooks);
    }
  }

  /** The tag is a declared state after every event sequence exactly when there
      is a state and every event targets a declared one. */
  lemma {:induction false} AlwaysDeclared<S(!new)>(m: Machine, store: S, hooks: Hooks<S>)
    requires Quiet(hooks)
    ensures (forall inputs :: Inputs(m, inputs) ==> RunMachine(m, inputs, World(Initial(m), store, []), hooks).tag in m.states)
            <==> Declared(m)
  {
    hide Quiet, Transition;
    var w := World(Initial(m), store, []);
    if Declared(m) {
      forall inputs | Inputs(m, inputs)
        ensures RunMachine(m, inputs, w, hooks).tag in m.states
      {
        TagDeclared(m, inputs, w, hooks);
      }
    }
    if forall inputs :: Inputs(m, inputs) ==> RunMachine(m, inputs, w, hooks).tag in m.states {
      assert Inputs(m, []) && RunMachine(m, [], w, hooks) == w;
      forall e | e in m.events
        ensures e.target in m.states
      {
        var i :| 0 <= i < |m.events| && m.events[i] == e;
        var input := Input(i, map x | x in e.params :: 0);
        assert InputOk(m, input);
        OneStep(m, input, w, hooks);
        TransitionTag(m, e, w, hooks);
        assert RunMachine(m, [input], w, hooks).tag == e.target;
      }
    }
  }

  // ----- hooks that go wrong -----

  function Meddling(b: string): Hooks<nat> {
    Hooks((h: Hook) => {}, (h: Hook, args: Args, t: string, s: nat) => (if h == 0 then b else t, s))
  }

  /** When the exit hook of one state moves the tag to another hooked state,
      the actor runs both exit hooks and the machine one. */
  lemma {:induction false} WritingHookDiverges(a: string, b: string, e: Event, args: Args)
    requires a != b
    ensures var m := Machine([a, b], [e], [], [(a, 0), (b, 1)]);
            var w := World(a, 0, []);
            && ExecAll(Body(m, e), args, w, Meddling(b)).trace == [Ran(0, a, map[]), Ran(1, b, map[])]
            && Transition(m, e, w, Meddling(b)).trace == [Ran(0, a, map[])]
  {
    var m := Machine([a, b], [e], [], [(a, 0), (b, 1)]);
    var w, hooks := World(a, 0, []), Meddling(b);
    var exits := [IfTag(a, 0), IfTag(b, 1)];
    assert ExitStmts(m.exits) == exits;
    BodyIs(m, e, args, w, hooks);
    assert Visible(args, {}) == map[] && Visible(map[], {}) == map[];
    var w1 := World(b, 0, [Ran(0, a, map[])]);
    var w2 := World(b, 0, [Ran(0, a, map[]), Ran(1, b, map[])]);
    assert Exec(exits[0], args, w, hooks) == w1 && Exec(exits[1], args, w1, hooks) == w2;
    assert exits[1..] == [exits[1]] && exits[1..][1..] == [];
    assert ExecAll(exits[1..], args, w1, hooks) == ExecAll([], args, w2, hooks) == w2;
    assert ExecAll(exits, args, w, hooks) == w2;
  }

  function Lookup(x: string, args: Args, otherwise: nat): nat { if x in args then args[x] else otherwise }

  function Reading(x: string): Hooks<nat> {
    Hooks((h: Hook) => {x}, (h: Hook, args: Args, t: string, s: nat) => (t, Lookup(x, args, s)))
  }

  /** A parameter with the name of a variable that an entry hook reads takes
      its place: the actor stores the argument, the machine does not. */
  lemma {:induction false} ParameterCapturesHook(a: string, name: string, x: string, store: nat, v: nat)
    requires v != store
    ensures var e := Event(name, [x], a);
            var m := Machine([a], [e], [(a, 0)], []);
            var w := World(a, store, []);
            && ExecAll(Body(m, e), map[x := v], w, Reading(x)).store == v
            && Transition(m, e, w, Reading(x)).store == store
  {
    var e := Event(name, [x], a);
    var m, w, hooks := Machine([a], [e], [(a, 0)], []), World(a, store, []), Reading(x);
    BodyIs(m, e, map[x := v], w, hooks);
    assert ExitStmts(m.exits) == [];
    assert Visible(map[x := v], {x}) == map[x := v] && Visible(map[], {x}) == map[];
  }
}
