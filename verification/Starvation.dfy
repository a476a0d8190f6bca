/** Runs of the scheduler in which one ready entry is passed over again and again. */
module Starvation {
  import opened Text
  import opened SchedulerModel
  import opened Scheduler
  import Policy
  import ContextStore

  const SECOND := 1000000000

  /** Wants every resource, and has waited since time 0. */
  const HEAVY := QueuedJob(Job("heavy", []), Profile(0, Policy.Demand(1.0, 1.0, 1.0), []), 1)

  const SMALL: ContextStore.Ref := ContextStore.Ref("context", "", 1)

  ghost const WARM: map<string, ContextStore.Entry> := ContextStore.AddOne(map[], SMALL, 0)

  function LightID(i: nat): string {
    seq(i + 1, _ => 'l')
  }

  /** After this long an entry has its full age bonus. */
  const FULL_AGE := 300 * SECOND

  /** Submitted when HEAVY has its full age bonus, and one every 300 seconds. */
  function TimeOf(i: nat): int {
    (i + 1) * FULL_AGE
  }

  /** The pressure throughout, and how long each light job waits until a worker comes to take one. */
  datatype Scene = Scene(pressure: Policy.Pressure, wait: nat)

  /** Full pressure and no waiting, or any pressure and enough waiting for a full age bonus. */
  predicate Unfair(scene: Scene) {
    scene == Scene(Policy.FULL_PRESSURE, 0) || scene.wait == FULL_AGE
  }

  function TakenAfter(scene: Scene, i: nat): int {
    TimeOf(i) + scene.wait
  }

  function LightProfile(i: nat): Profile {
    Profile(TimeOf(i), Policy.Demand(0.1, 0.0, 0.0), [SMALL])
  }

  /** Wants next to nothing, and finds its context warm. */
  function Light(i: nat): QueuedJob {
    QueuedJob(Job(LightID(i), []), LightProfile(i), i + 2)
  }

  // ---------------------------------------------------------------- the choice

  lemma {:induction false} SmallIsClean()
    ensures ContextStore.Fault(SMALL).None? && ContextStore.Clean(SMALL) == SMALL
  {
    TrimFixed("context");
    assert Trim("") == "" && Lower("") == "";
  }

  lemma {:induction false} SmallIsWarm()
    ensures ContextStore.Requested([SMALL]) == 1 && ContextStore.Reusable(WARM, [SMALL]) == 1
  {
    SmallIsClean();
    ContextStore.AddOneRef(map[], SMALL, 0);
    ContextStore.AddMakesReusable(map[], [SMALL], 0);
    assert [SMALL][..0] == [];
    assert ContextStore.Total([SMALL]) == 1;
  }

  lemma {:induction false} LightCandidateIn(i: nat, warm: map<string, ContextStore.Entry>)
    requires ContextStore.Requested([SMALL]) == 1 && ContextStore.Reusable(warm, [SMALL]) == 1
    ensures CandidateOf(Light(i), warm)
      == Policy.Candidate(LightID(i), TimeOf(i), i + 2, Policy.Demand(0.1, 0.0, 0.0), 1, 1, 1.0)
  {
    var contexts := Light(i).profile.contexts;
    assert contexts == [SMALL];
    assert ContextStore.AffinityOf(warm, [SMALL]) == 1.0;
  }

  lemma {:induction false} LightCandidate(i: nat)
    ensures CandidateOf(Light(i), WARM)
      == Policy.Candidate(LightID(i), TimeOf(i), i + 2, Policy.Demand(0.1, 0.0, 0.0), 1, 1, 1.0)
  {
    SmallIsWarm();
    LightCandidateIn(i, WARM);
  }

  lemma {:induction false} LightIsNotHeavy(i: nat)
    ensures Light(i) != HEAVY
  {
    assert LightID(i)[0] != "heavy"[0];
  }

  lemma {:induction false} HeavyCandidate()
    ensures CandidateOf(HEAVY, WARM) == Policy.Candidate("heavy", 0, 1, Policy.Demand(1.0, 1.0, 1.0), 0, 0, 0.0)
  {
    assert ContextStore.NormalForm([]) == [];
  }

  /** HEAVY has its full age bonus. */
  predicate FullyAged(now: int) {
    Policy.AgeBonus(Policy.DEFAULTS, now, HEAVY.profile.submittedAt) == Policy.MAX_AGE_BONUS
  }

  lemma {:induction false} HeavyIsAged(scene: Scene, i: nat)
    ensures FullyAged(TakenAfter(scene, i))
  {
    assert TakenAfter(scene, i) >= FULL_AGE;
  }

  /** The chooser of a take that begins at a given time. */
  function Caps(scene: Scene, now: int): Chooser {
    (attempt: nat, cs: seq<Policy.Candidate>) =>
      if cs == [] then 0 else Policy.CapsPick(None, now, scene.pressure, cs)
  }

  lemma {:induction false} NoDependencies(records: map<string, Record>, e: QueuedJob)
    requires e.job.dependsOn == []
    ensures IsReady(records, e) && !IsStuck(records, e) && GateOf(records, e.job.dependsOn) == Ready(map[])
  {}

  lemma {:induction false} BothReady(s: State, i: nat)
    requires s.queue == [HEAVY, Light(i)]
    ensures ReadyIndexes(s.records, s.queue, [0, 1])
  {
    NoDependencies(s.records, HEAVY);
    NoDependencies(s.records, Light(i));
    var ready: seq<nat> := [0, 1];
    forall k: nat ensures k in ready <==> k < |s.queue| && IsReady(s.records, s.queue[k]) {}
  }

  lemma {:induction false} BothOffered(queue: seq<QueuedJob>, describe: QueuedJob -> Policy.Candidate)
    requires |queue| == 2
    ensures Lists(queue, [0, 1], describe, [describe(queue[0]), describe(queue[1])])
  {}

  lemma {:induction false} CapsPicksLight(scene: Scene, now: int, heavy: Policy.Candidate, light: Policy.Candidate)
    requires Unfair(scene) && now == light.submittedAt + scene.wait
    requires heavy.demand == Policy.Demand(1.0, 1.0, 1.0) && heavy.affinity == 0.0
    requires light.demand == Policy.Demand(0.1, 0.0, 0.0) && light.affinity == 1.0
    ensures Caps(scene, now)(0, [heavy, light]) == 1
  {
    if scene == Scene(Policy.FULL_PRESSURE, 0) {
      Policy.AgeingDoesNotPreventStarvation(now, heavy, light);
    } else {
      Policy.AgedLightOvertakes(now, scene.pressure, heavy, light);
    }
  }

  lemma {:induction false} LightIsChosen(scene: Scene, i: nat, candidates: seq<Policy.Candidate>)
    requires Unfair(scene) && candidates == [Describing(WARM)(HEAVY), Describing(WARM)(Light(i))]
    ensures Caps(scene, TakenAfter(scene, i))(0, candidates) == 1
  {
    HeavyCandidate();
    LightCandidate(i);
    CapsPicksLight(scene, TakenAfter(scene, i), candidates[0], candidates[1]);
  }

  lemma {:induction false} Picks(s: State, choose: Chooser, attempt: nat, ready: seq<nat>,
                                 candidates: seq<Policy.Candidate>, i: nat)
    requires ReadyIndexes(s.records, s.queue, ready) && Offered(s.queue, ready, WARM, candidates)
    requires i < |ready| && choose(attempt, candidates) == i
    ensures PolicyPicks(s, choose, WARM, attempt, ready[i])
  {
    assert Chosen(choose(attempt, candidates), |ready|) == i;
  }

  lemma {:induction false} LightIsPicked(scene: Scene, s: State, i: nat)
    requires Unfair(scene) && s.queue == [HEAVY, Light(i)]
    ensures PolicyPicks(s, Caps(scene, TakenAfter(scene, i)), WARM, 0, 1)
  {
    var ready: seq<nat> := [0, 1];
    var candidates := [Describing(WARM)(s.queue[0]), Describing(WARM)(s.queue[1])];
    BothReady(s, i);
    BothOffered(s.queue, Describing(WARM));
    LightIsChosen(scene, i, candidates);
    Picks(s, Caps(scene, TakenAfter(scene, i)), 0, ready, candidates, 1);
  }

  // ---------------------------------------------------------------- the run

  /** CAPS's choice is another one although HEAVY is ready and has its full age bonus. */
  ghost predicate PassesOverAt(scene: Scene, s: State, k: nat, now: int) {
    && HEAVY in s.queue && IsReady(s.records, HEAVY) && FullyAged(now)
    && PolicyPicks(s, Caps(scene, now), WARM, 0, k)
  }

  ghost function Overtaking(scene: Scene): (State, nat, int) -> bool {
    (s: State, k: nat, now: int) => PassesOverAt(scene, s, k, now)
  }

  /** The step dispatches a light job, after its wait, at which HEAVY is overtaken. */
  ghost predicate Overtakes(s: State, step: Step, wait: nat, overtaken: (State, nat, int) -> bool) {
    && step.Dispatch? && step.k < |s.queue| && s.queue[step.k] != HEAVY
    && overtaken(s, step.k, s.queue[step.k].profile.submittedAt + wait)
  }

  ghost function PassingOver(scene: Scene): (State, Step) -> bool {
    (s, step) => Overtakes(s, step, scene.wait, Overtaking(scene))
  }

  /** How many steps of a run are of a kind. */
  ghost function Times(setup: Setup, s: State, steps: seq<Step>, counts: (State, Step) -> bool): nat
    requires CanRun(setup, s, steps)
    decreases |steps|
  {
    if steps == [] then 0
    else (if counts(s, steps[0]) then 1 else 0) + Times(setup, Apply(setup, s, steps[0]), steps[1..], counts)
  }

  /** One worker, and room for two. */
  ghost predicate Small(setup: Setup) {
    setup.workerCount == 1 && setup.queueCapacity >= 2
  }

  /** Light jobs up to the i-th have been submitted. */
  ghost predicate Submitted(s: State, i: nat) {
    && s.started && !s.stopped && s.sequence == i + 2
    && "heavy" in s.records && LightID(i) in s.records
    && forall id | id in s.records :: id == "heavy" || |id| <= i + 1
  }

  ghost predicate Choosable(s: State, i: nat) {
    Submitted(s, i) && s.queue == [HEAVY, Light(i)] && s.workers == [Awake]
  }

  ghost predicate RunningAlone(s: State, i: nat) {
    Submitted(s, i) && s.queue == [HEAVY] && s.workers == [Executing(Light(i))]
  }

  ghost predicate RunningWithNext(s: State, i: nat) {
    && Submitted(s, i + 1) && LightID(i) in s.records
    && s.queue == [HEAVY, Light(i + 1)] && s.workers == [Executing(Light(i))]
  }

  ghost predicate FinishingWithNext(s: State, i: nat) {
    Submitted(s, i + 1) && s.queue == [HEAVY, Light(i + 1)] && s.workers == [Finishing]
  }

  lemma {:induction false} HeavyLoses(scene: Scene, s: State, i: nat)
    requires Unfair(scene) && s.queue == [HEAVY, Light(i)]
    ensures Overtaking(scene)(s, 1, TakenAfter(scene, i))
  {
    NoDependencies(s.records, HEAVY);
    LightIsPicked(scene, s, i);
    HeavyIsAged(scene, i);
    assert s.queue[0] == HEAVY;
  }

  lemma {:induction false} CountsAsPassed(s: State, k: nat, wait: nat, overtaken: (State, nat, int) -> bool, now: int)
    requires k < |s.queue| && s.queue[k] != HEAVY && now == s.queue[k].profile.submittedAt + wait
    requires overtaken(s, k, now)
    ensures Overtakes(s, Dispatch(0, k), wait, overtaken)
  {}

  lemma {:induction false} IsPassedOver(scene: Scene, s: State, i: nat)
    requires Unfair(scene) && s.queue == [HEAVY, Light(i)]
    ensures PassingOver(scene)(s, Dispatch(0, 1))
  {
    HeavyLoses(scene, s, i);
    LightIsNotHeavy(i);
    assert s.queue[1] == Light(i);
    CountsAsPassed(s, 1, scene.wait, Overtaking(scene), TakenAfter(scene, i));
  }

  lemma {:induction false} Dispatches(setup: Setup, s: State, i: nat)
    requires Small(setup) && Choosable(s, i)
    ensures Enabled(setup, s, Dispatch(0, 1)) && RunningAlone(Apply(setup, s, Dispatch(0, 1)), i)
  {
    NoDependencies(s.records, HEAVY);
    NoDependencies(s.records, Light(i));
    assert Without([HEAVY, Light(i)], 1) == [HEAVY];
    assert LightID(i)[0] != "heavy"[0];
  }

  function NextSubmit(i: nat): Step {
    Submit(Light(i + 1).job, LightProfile(i + 1), None)
  }

  lemma {:induction false} Submits(setup: Setup, s: State, i: nat)
    requires Small(setup) && RunningAlone(s, i)
    ensures Enabled(setup, s, NextSubmit(i)) && RunningWithNext(Apply(setup, s, NextSubmit(i)), i)
  {
    assert |LightID(i + 1)| == i + 2 && LightID(i + 1)[0] != "heavy"[0];
    assert [HEAVY] + [Light(i + 1)] == [HEAVY, Light(i + 1)];
  }

  lemma {:induction false} Finishes(setup: Setup, s: State, i: nat)
    requires Small(setup) && RunningWithNext(s, i)
    ensures Enabled(setup, s, Finish(0)) && FinishingWithNext(Apply(setup, s, Finish(0)), i)
  {}

  lemma {:induction false} IsDone(setup: Setup, s: State, i: nat)
    requires Small(setup) && FinishingWithNext(s, i)
    ensures Enabled(setup, s, Done(0)) && Choosable(Apply(setup, s, Done(0)), i + 1)
  {}

  lemma {:induction false} OneMore(setup: Setup, s: State, step: Step, s': State, rest: seq<Step>,
                                   counts: (State, Step) -> bool)
    requires Enabled(setup, s, step) && s' == Apply(setup, s, step) && CanRun(setup, s', rest)
    ensures CanRun(setup, s, [step] + rest) && RunFrom(setup, s, [step] + rest) == RunFrom(setup, s', rest)
    ensures Times(setup, s, [step] + rest, counts) == (if counts(s, step) then 1 else 0) + Times(setup, s', rest, counts)
  {
    assert ([step] + rest)[1..] == rest;
  }

  /** Where a run stands after its first step, and what that step counts. */
  lemma {:induction false} AfterFirst(setup: Setup, s: State, steps: seq<Step>, more: seq<Step>,
                                      counts: (State, Step) -> bool)
    returns (s': State, counted: nat)
    requires CanRun(setup, s, steps) && steps != []
    ensures CanRun(setup, s', steps[1..]) && RunFrom(setup, s, steps) == RunFrom(setup, s', steps[1..])
    ensures Times(setup, s, steps, counts) == counted + Times(setup, s', steps[1..], counts)
    ensures CanRun(setup, s', steps[1..] + more) ==>
      && CanRun(setup, s, steps + more) && RunFrom(setup, s, steps + more) == RunFrom(setup, s', steps[1..] + more)
      && Times(setup, s, steps + more, counts) == counted + Times(setup, s', steps[1..] + more, counts)
  {
    s', counted := Apply(setup, s, steps[0]), if counts(s, steps[0]) then 1 else 0;
    assert (steps + more)[1..] == steps[1..] + more;
  }

  lemma {:induction false} CountConcat(setup: Setup, s: State, first: seq<Step>, second: seq<Step>,
                                       counts: (State, Step) -> bool)
    requires CanRun(setup, s, first) && CanRun(setup, RunFrom(setup, s, first), second)
    ensures CanRun(setup, s, first + second)
    ensures RunFrom(setup, s, first + second) == RunFrom(setup, RunFrom(setup, s, first), second)
    ensures Times(setup, s, first + second, counts)
      == Times(setup, s, first, counts) + Times(setup, RunFrom(setup, s, first), second, counts)
    decreases |first|
  {
    if first == [] {
      assert first + second == second;
    } else {
      var s', counted := AfterFirst(setup, s, first, second, counts);
      CountConcat(setup, s', first[1..], second, counts);
    }
  }

  ghost predicate OnlyDispatches(counts: (State, Step) -> bool) {
    forall s, step | counts(s, step) :: step.Dispatch?
  }

  lemma {:induction false} NothingMore(setup: Setup, s: State, counts: (State, Step) -> bool)
    ensures CanRun(setup, s, []) && RunFrom(setup, s, []) == s && Times(setup, s, [], counts) == 0
  {}

  /** The second half of a round: the light job ends after the next one has come. */
  lemma {:induction false} LightEnds(setup: Setup, s: State, i: nat, counts: (State, Step) -> bool)
    returns (rest: seq<Step>, s': State)
    requires Small(setup) && RunningWithNext(s, i) && OnlyDispatches(counts)
    ensures CanRun(setup, s, rest) && RunFrom(setup, s, rest) == s' && Choosable(s', i + 1)
    ensures Times(setup, s, rest, counts) == 0
  {
    Finishes(setup, s, i);
    var c := Apply(setup, s, Finish(0));
    IsDone(setup, c, i);
    s' := Apply(setup, c, Done(0));
    NothingMore(setup, s', counts);
    OneMore(setup, c, Done(0), s', [], counts);
    OneMore(setup, s, Finish(0), c, [Done(0)] + [], counts);
    rest := [Finish(0)] + ([Done(0)] + []);
  }

  lemma {:induction false} OneRound(setup: Setup, s: State, i: nat, counts: (State, Step) -> bool)
    returns (first: seq<Step>, s': State)
    requires Small(setup) && Choosable(s, i) && OnlyDispatches(counts) && counts(s, Dispatch(0, 1))
    ensures CanRun(setup, s, first) && RunFrom(setup, s, first) == s' && Choosable(s', i + 1)
    ensures Times(setup, s, first, counts) == 1
  {
    Dispatches(setup, s, i);
    var a := Apply(setup, s, Dispatch(0, 1));
    Submits(setup, a, i);
    var b := Apply(setup, a, NextSubmit(i));
    var rest;
    rest, s' := LightEnds(setup, b, i, counts);
    OneMore(setup, a, NextSubmit(i), b, rest, counts);
    OneMore(setup, s, Dispatch(0, 1), a, [NextSubmit(i)] + rest, counts);
    first := [Dispatch(0, 1)] + ([NextSubmit(i)] + rest);
  }

  lemma {:induction false} Rounds(setup: Setup, scene: Scene, s: State, i: nat, m: nat) returns (steps: seq<Step>, s': State)
    requires Small(setup) && Unfair(scene) && Choosable(s, i) && i <= m
    ensures CanRun(setup, s, steps) && RunFrom(setup, s, steps) == s' && Choosable(s', m)
    ensures Times(setup, s, steps, PassingOver(scene)) == m - i
    decreases m - i
  {
    if i == m {
      NothingMore(setup, s, PassingOver(scene));
      steps, s' := [], s;
    } else {
      var first, rest, between;
      IsPassedOver(scene, s, i);
      first, between := OneRound(setup, s, i, PassingOver(scene));
      rest, s' := Rounds(setup, scene, between, i + 1, m);
      CountConcat(setup, s, first, rest, PassingOver(scene));
      steps := first + rest;
    }
  }

  lemma {:induction false} FirstSubmits(setup: Setup) returns (a: State, b: State)
    requires Small(setup)
    ensures var heavy, light := Submit(HEAVY.job, HEAVY.profile, None), Submit(Light(0).job, LightProfile(0), None);
      && Enabled(setup, Initial, heavy) && a == Apply(setup, Initial, heavy)
      && Enabled(setup, a, light) && b == Apply(setup, a, light)
    ensures b.queue == [HEAVY, Light(0)] && b.records.Keys == {"heavy", "l"} && b.workers == []
    ensures !b.started && !b.stopped && b.sequence == 2
  {
    assert LightID(0) == "l" && "l"[0] != "heavy"[0];
    a := AfterSubmit(Initial, HEAVY.job, HEAVY.profile, None);
    assert a.queue == [HEAVY] && a.records.Keys == {"heavy"} && a.workers == [];
    b := AfterSubmit(a, Light(0).job, LightProfile(0), None);
  }

  lemma {:induction false} ToTheFirstChoice(setup: Setup, counts: (State, Step) -> bool)
    returns (steps: seq<Step>, s: State)
    requires Small(setup) && OnlyDispatches(counts)
    ensures CanRun(setup, Initial, steps) && RunFrom(setup, Initial, steps) == s && Choosable(s, 0)
    ensures Times(setup, Initial, steps, counts) == 0
  {
    var heavy, light := Submit(HEAVY.job, HEAVY.profile, None), Submit(Light(0).job, LightProfile(0), None);
    var a, b := FirstSubmits(setup);
    s := b.(started := true, workers := [Awake]);
    assert seq(setup.workerCount, _ => Awake) == [Awake] && LightID(0) == "l";
    NothingMore(setup, s, counts);
    OneMore(setup, b, Start, s, [], counts);
    OneMore(setup, a, light, b, [Start] + [], counts);
    OneMore(setup, Initial, heavy, a, [light] + ([Start] + []), counts);
    steps := [heavy] + ([light] + ([Start] + []));
  }

  /** Starvation has no bound: for every n some run passes over a ready entry n times that has its full age bonus each
      time, and it is still in the queue. Under full pressure fresh jobs do that, under any pressure aged ones. */
  lemma {:induction false} PassedOverForever(setup: Setup, scene: Scene, n: nat) returns (steps: seq<Step>)
    requires Small(setup) && Unfair(scene)
    ensures CanRun(setup, Initial, steps) && Times(setup, Initial, steps, PassingOver(scene)) == n
    ensures HEAVY in RunFrom(setup, Initial, steps).queue
  {
    var first, s := ToTheFirstChoice(setup, PassingOver(scene));
    var rest, s' := Rounds(setup, scene, s, 0, n);
    CountConcat(setup, Initial, first, rest, PassingOver(scene));
    steps := first + rest;
  }
}
