/** The two dispatch policies: FIFO and CAPS (context affinity and pressure aware). */
module Policy {
  import opened Text

  /** Normalized resource demand of one agent. */
  datatype Demand = Demand(cpu: real, memory: real, io: real) {
    predicate IsZero() {
      cpu == 0.0 && memory == 0.0 && io == 0.0
    }

    predicate Valid() {
      0.0 <= cpu <= 1.0 && 0.0 <= memory <= 1.0 && 0.0 <= io <= 1.0
    }
  }

  const BALANCED := Demand(0.5, 0.5, 0.5)

  /** Ten-second averages of one pressure-stall resource. */
  datatype Resource = Resource(some: real, full: real)

  datatype Pressure = Pressure(cpu: Resource, memory: Resource, io: Resource)

  /** Times are nanoseconds. */
  datatype Candidate = Candidate(
    id: string, submittedAt: int, sequence: nat, demand: Demand,
    requestedBytes: nat, reusableBytes: nat, affinity: real)

  datatype Decision = Decision(index: int, score: real)

  datatype Weights = Weights(agingPerSecond: real, fullWeight: real, affinityWeight: real)

  const DEFAULTS := Weights(0.01, 2.0, 0.35)
  const EPSILON := 0.000000001
  const MAX_AGE_BONUS := 3.0

  /** A nil policy and every non-positive weight fall back to the defaults. */
  function Effective(policy: Option<Weights>): (w: Weights)
    ensures w.agingPerSecond > 0.0 && w.fullWeight > 0.0 && w.affinityWeight > 0.0
    ensures policy.None? ==> w == Weights(0.01, 2.0, 0.35)
    ensures policy.Some? ==>
      && w.agingPerSecond in {policy.value.agingPerSecond, 0.01} && w.fullWeight in {policy.value.fullWeight, 2.0}
      && w.affinityWeight in {policy.value.affinityWeight, 0.35}
      && (policy.value.agingPerSecond > 0.0 ==> w.agingPerSecond == policy.value.agingPerSecond)
      && (policy.value.fullWeight > 0.0 ==> w.fullWeight == policy.value.fullWeight)
      && (policy.value.affinityWeight > 0.0 ==> w.affinityWeight == policy.value.affinityWeight)
  {
    var w := if policy.Some? then policy.value else DEFAULTS;
    Weights(
      if w.agingPerSecond <= 0.0 then DEFAULTS.agingPerSecond else w.agingPerSecond,
      if w.fullWeight <= 0.0 then DEFAULTS.fullWeight else w.fullWeight,
      if w.affinityWeight <= 0.0 then DEFAULTS.affinityWeight else w.affinityWeight)
  }

  /** pressureLevel: a percentage turned into a level and clamped. */
  function Level(r: Resource, fullWeight: real): (level: real)
    ensures 0.0 <= level <= 1.0
  {
    var level := (r.some + fullWeight * r.full) / 100.0;
    if level < 0.0 then 0.0 else if level > 1.0 then 1.0 else level
  }

  function Levels(p: Pressure, fullWeight: real): Demand {
    Demand(Level(p.cpu, fullWeight), Level(p.memory, fullWeight), Level(p.io, fullWeight))
  }

  function AgeSeconds(now: int, submittedAt: int): (age: real)
    ensures age >= 0.0
  {
    if now < submittedAt then 0.0 else (now - submittedAt) as real / 1000000000.0
  }

  function AgeBonus(w: Weights, now: int, submittedAt: int): (bonus: real)
    requires w.agingPerSecond > 0.0
    ensures 0.0 <= bonus <= MAX_AGE_BONUS
  {
    var bonus := AgeSeconds(now, submittedAt) * w.agingPerSecond;
    if bonus > MAX_AGE_BONUS then MAX_AGE_BONUS else bonus
  }

  function Penalty(levels: Demand, d: Demand): real {
    levels.cpu * d.cpu + levels.memory * d.memory + levels.io * d.io
  }

  /** Lower is better. */
  function Score(w: Weights, levels: Demand, now: int, c: Candidate): real
    requires w.agingPerSecond > 0.0
  {
    Penalty(levels, c.demand) - w.affinityWeight * c.affinity - AgeBonus(w, now, c.submittedAt)
  }

  // ---------------------------------------------------------------- the single pass

  datatype Entry = Entry(score: real, sequence: nat)

  function Abs(x: real): real {
    if x < 0.0 then -x else x
  }

  /** Whether a candidate displaces the one selected so far. */
  predicate Beats(e: Entry, selected: Entry) {
    || e.score < selected.score - EPSILON
    || (Abs(e.score - selected.score) <= EPSILON && e.sequence < selected.sequence)
  }

  /** What the pass has selected after looking at the first n entries. */
  function Pick(es: seq<Entry>, n: nat): (p: nat)
    requires 0 < n <= |es|
    ensures p < n
  {
    if n == 1 then 0
    else if Beats(es[n - 1], es[Pick(es, n - 1)]) then n - 1
    else Pick(es, n - 1)
  }

  function Entries(w: Weights, levels: Demand, now: int, cs: seq<Candidate>): (es: seq<Entry>)
    requires w.agingPerSecond > 0.0
    ensures |es| == |cs|
    ensures forall i | 0 <= i < |cs| :: es[i] == Entry(Score(w, levels, now, cs[i]), cs[i].sequence)
  {
    seq(|cs|, i requires 0 <= i < |cs| => Entry(Score(w, levels, now, cs[i]), cs[i].sequence))
  }

  /** What CAPS picks. */
  function CapsPick(policy: Option<Weights>, now: int, pressure: Pressure, cs: seq<Candidate>): (p: nat)
    requires cs != []
    ensures p < |cs|
  {
    var w := Effective(policy);
    Pick(Entries(w, Levels(pressure, w.fullWeight), now, cs), |cs|)
  }

  /** The body of the loop in CAPSPolicy.Select up to the comparison. */
  method Evaluate(w: Weights, levels: Demand, now: int, c: Candidate) returns (score: real)
    requires w.agingPerSecond > 0.0
    ensures score == Score(w, levels, now, c)
  {
    var age := (now - c.submittedAt) as real / 1000000000.0;
    if age < 0.0 { age := 0.0; }
    var penalty := levels.cpu * c.demand.cpu + levels.memory * c.demand.memory + levels.io * c.demand.io;
    var benefit := w.affinityWeight * c.affinity;
    var bonus := age * w.agingPerSecond;
    if bonus > 3.0 { bonus := 3.0; }
    score := penalty - benefit - bonus;
  }

  /** CAPSPolicy.Select. Its only caller never passes an empty list, on which it would panic. */
  method SelectCAPS(policy: Option<Weights>, now: int, cs: seq<Candidate>, pressure: Pressure)
    returns (decision: Decision)
    requires cs != []
    ensures decision.index == CapsPick(policy, now, pressure, cs)
    ensures var w := Effective(policy);
      decision.score == Score(w, Levels(pressure, w.fullWeight), now, cs[decision.index])
  {
    var w := Effective(policy);
    var levels := Levels(pressure, w.fullWeight);
    var selected: nat := 0;
    var selectedScore := None;   // plus infinity
    ghost var es := Entries(w, levels, now, cs);
    for index := 0 to |cs|
      invariant selected < |cs|
      invariant index == 0 ==> selectedScore == None
      invariant index > 0 ==> selected == Pick(es, index) && selectedScore == Some(es[selected].score)
    {
      var score := Evaluate(w, levels, now, cs[index]);
      if selectedScore.None?
        || score < selectedScore.value - EPSILON
        || (Abs(score - selectedScore.value) <= EPSILON && cs[index].sequence < cs[selected].sequence)
      {
        selected, selectedScore := index, Some(score);
      }
    }
    decision := Decision(selected, selectedScore.value);
  }

  // ---------------------------------------------------------------- what moves a score

  /** Without pressure, warm context and waiting there is nothing to score. */
  lemma {:induction false} NothingToScore(w: Weights, now: int, c: Candidate)
    requires w.agingPerSecond > 0.0 && c.affinity == 0.0 && c.submittedAt >= now
    ensures Score(w, Demand(0.0, 0.0, 0.0), now, c) == 0.0
  {}

  lemma {:induction false} Factor(x: real, y: real, d: real)
    ensures x * d - y * d == (x - y) * d
  {}

  /** The pressure on one resource weighs on a job by what the job wants of that very resource. */
  lemma {:induction false} LevelMovesScore(w: Weights, levels: Demand, x: real, now: int, c: Candidate)
    requires w.agingPerSecond > 0.0
    ensures Score(w, levels.(cpu := x), now, c) - Score(w, levels, now, c) == (x - levels.cpu) * c.demand.cpu
    ensures Score(w, levels.(memory := x), now, c) - Score(w, levels, now, c) == (x - levels.memory) * c.demand.memory
    ensures Score(w, levels.(io := x), now, c) - Score(w, levels, now, c) == (x - levels.io) * c.demand.io
  {
    Factor(x, levels.cpu, c.demand.cpu);
    Factor(x, levels.memory, c.demand.memory);
    Factor(x, levels.io, c.demand.io);
  }

  /** Each resource's level comes from that resource's averages alone. */
  lemma {:induction false} PressureMovesLevel(p: Pressure, r: Resource, fullWeight: real)
    ensures Levels(p.(cpu := r), fullWeight) == Levels(p, fullWeight).(cpu := Level(r, fullWeight))
    ensures Levels(p.(memory := r), fullWeight) == Levels(p, fullWeight).(memory := Level(r, fullWeight))
    ensures Levels(p.(io := r), fullWeight) == Levels(p, fullWeight).(io := Level(r, fullWeight))
    ensures Levels(Pressure(r, p.memory, p.io), fullWeight).cpu == Level(r, fullWeight)
    ensures Levels(Pressure(p.cpu, r, p.io), fullWeight).memory == Level(r, fullWeight)
    ensures Levels(Pressure(p.cpu, p.memory, r), fullWeight).io == Level(r, fullWeight)
  {}

  /** A level counts each percent of partial stalls as a hundredth and of full stalls fullWeight times that, from 0
      up to 1. */
  lemma {:induction false} LevelMeaning(r: Resource, fullWeight: real)
    ensures 0.0 <= r.some + fullWeight * r.full <= 100.0 ==>
      100.0 * Level(r, fullWeight) == r.some + fullWeight * r.full
    ensures r.some + fullWeight * r.full <= 0.0 <==> Level(r, fullWeight) == 0.0
    ensures r.some + fullWeight * r.full >= 100.0 <==> Level(r, fullWeight) == 1.0
  {}

  /** Warm context lowers a score by its share times the weight. */
  lemma {:induction false} AffinityMovesScore(w: Weights, levels: Demand, now: int, c: Candidate, affinity: real)
    requires w.agingPerSecond > 0.0
    ensures Score(w, levels, now, c.(affinity := affinity)) - Score(w, levels, now, c)
      == w.affinityWeight * (c.affinity - affinity)
  {
    Factor(c.affinity, affinity, w.affinityWeight);
  }

  /** Waiting lowers it by the rate times the seconds waited, up to 3; a job submitted later than now has not waited. */
  lemma {:induction false} WaitingMovesScore(w: Weights, levels: Demand, now: int, c: Candidate)
    requires w.agingPerSecond > 0.0
    ensures var unwaited := Score(w, levels, c.submittedAt, c);
      var seconds := (now - c.submittedAt) as real / 1000000000.0;
      && (now <= c.submittedAt ==> Score(w, levels, now, c) == unwaited)
      && (now > c.submittedAt && seconds * w.agingPerSecond <= 3.0 ==>
        Score(w, levels, now, c) == unwaited - seconds * w.agingPerSecond)
      && (now > c.submittedAt && seconds * w.agingPerSecond >= 3.0 ==> Score(w, levels, now, c) == unwaited - 3.0)
  {}

  /** One of the three resources. */
  datatype Axis = CpuAxis | MemoryAxis | IoAxis

  function At(d: Demand, axis: Axis): real {
    match axis
    case CpuAxis => d.cpu
    case MemoryAxis => d.memory
    case IoAxis => d.io
  }

  function With(d: Demand, axis: Axis, x: real): Demand {
    match axis
    case CpuAxis => d.(cpu := x)
    case MemoryAxis => d.(memory := x)
    case IoAxis => d.(io := x)
  }

  /** What the step of one level to x adds to the score of c. */
  function Added(levels: Demand, axis: Axis, x: real, c: Candidate): real {
    (x - At(levels, axis)) * At(c.demand, axis)
  }

  lemma {:induction false} AxisMovesScore(w: Weights, levels: Demand, axis: Axis, x: real, now: int, c: Candidate)
    requires w.agingPerSecond > 0.0
    ensures Score(w, With(levels, axis, x), now, c) == Score(w, levels, now, c) + Added(levels, axis, x, c)
  {
    LevelMovesScore(w, levels, x, now, c);
  }

  lemma {:induction false} ChoiceScores(w: Weights, levels: Demand, now: int, cs: seq<Candidate>, p: nat, i: nat)
    requires w.agingPerSecond > 0.0 && i < |cs|
    requires forall a, b | 0 <= a < b < |cs| :: cs[a].sequence < cs[b].sequence
    requires p == Pick(Entries(w, levels, now, cs), |cs|)
    ensures p < |cs| && Score(w, levels, now, cs[p]) <= Score(w, levels, now, cs[i]) + EPSILON
  {
    PickNearMinimum(Entries(w, levels, now, cs), i);
  }

  /** When one resource comes under more pressure, the choice does not move to a job that wants more of it, but for
      what two tolerances allow. */
  lemma {:induction false} PressureShiftsChoice(policy: Option<Weights>, now: int, cs: seq<Candidate>,
                                                before: Pressure, after: Pressure, axis: Axis, x: real)
    requires cs != [] && forall a, b | 0 <= a < b < |cs| :: cs[a].sequence < cs[b].sequence
    requires var fullWeight := Effective(policy).fullWeight;
      Levels(after, fullWeight) == With(Levels(before, fullWeight), axis, x)
    ensures var levels := Levels(before, Effective(policy).fullWeight);
      Added(levels, axis, x, cs[CapsPick(policy, now, after, cs)])
        <= Added(levels, axis, x, cs[CapsPick(policy, now, before, cs)]) + 2.0 * EPSILON
  {
    var w := Effective(policy);
    var levels := Levels(before, w.fullWeight);
    var p, q := CapsPick(policy, now, before, cs), CapsPick(policy, now, after, cs);
    ChoiceScores(w, levels, now, cs, p, q);
    ChoiceScores(w, With(levels, axis, x), now, cs, q, p);
    AxisMovesScore(w, levels, axis, x, now, cs[p]);
    AxisMovesScore(w, levels, axis, x, now, cs[q]);
  }

  // ---------------------------------------------------------------- how good the choice is

  ghost predicate SubmissionOrder(es: seq<Entry>) {
    forall i, j | 0 <= i < j < |es| :: es[i].sequence < es[j].sequence
  }

  /** On candidates in submission order: everyone submitted earlier scores strictly worse than the
      chosen one, everyone later at best epsilon better. */
  lemma {:induction false} PickInOrder(es: seq<Entry>, n: nat)
    requires SubmissionOrder(es) && 0 < n <= |es|
    ensures var p := Pick(es, n);
      && (forall i | 0 <= i < p :: es[i].score > es[p].score)
      && (forall i | p < i < n :: es[i].score >= es[p].score - EPSILON)
  {
    if n > 1 { PickInOrder(es, n - 1); }
  }

  /** The chosen score is within epsilon of the minimum when candidates come in submission order. */
  lemma {:induction false} PickNearMinimum(es: seq<Entry>, i: nat)
    requires SubmissionOrder(es) && i < |es|
    ensures es[Pick(es, |es|)].score <= es[i].score + EPSILON
  {
    PickInOrder(es, |es|);
  }

  function Scores(es: seq<Entry>): seq<real> {
    seq(|es|, i requires 0 <= i < |es| => es[i].score)
  }

  /** es puts the given scores in some order and numbers them in that order. */
  ghost predicate Arranges(es: seq<Entry>, scores: seq<real>) {
    SubmissionOrder(es) && multiset(Scores(es)) == multiset(scores)
  }

  ghost predicate PicksMinimum(es: seq<Entry>)
    requires es != []
  {
    forall i | 0 <= i < |es| :: es[Pick(es, |es|)].score <= es[i].score
  }

  /** x is the least score, and y lies above it by no more than the tolerance. */
  ghost predicate NearTie(scores: seq<real>, x: real, y: real) {
    x in scores && y in scores && x < y <= x + EPSILON && forall z | z in scores :: x <= z
  }

  lemma {:induction false} ScoreIn(es: seq<Entry>, scores: seq<real>, x: real)
    requires multiset(Scores(es)) == multiset(scores)
    ensures x in scores <==> exists i | 0 <= i < |es| :: es[i].score == x
  {
    assert x in scores <==> x in multiset(Scores(es));
    if i :| 0 <= i < |es| && es[i].score == x {
      assert Scores(es)[i] == x;
    }
  }

  lemma {:induction false} Least(es: seq<Entry>, n: nat) returns (q: nat)
    requires 0 < n <= |es|
    ensures q < n && forall i | 0 <= i < n :: es[q].score <= es[i].score
  {
    q := 0;
    if n > 1 {
      q := Least(es, n - 1);
      if es[n - 1].score < es[q].score { q := n - 1; }
    }
  }

  lemma {:induction false} NoTieNoMiss(es: seq<Entry>, scores: seq<real>)
    requires Arranges(es, scores) && es != [] && forall x, y :: !NearTie(scores, x, y)
    ensures PicksMinimum(es)
  {
    var p := Pick(es, |es|);
    var q := Least(es, |es|);
    PickInOrder(es, |es|);
    var x, y := es[q].score, es[p].score;
    ScoreIn(es, scores, x);
    ScoreIn(es, scores, y);
    forall z | z in scores ensures x <= z {
      ScoreIn(es, scores, z);
    }
    assert !NearTie(scores, x, y);
  }

  lemma {:induction false} FirstIsKept(es: seq<Entry>, n: nat)
    requires SubmissionOrder(es) && 0 < n <= |es|
    requires forall i | 0 <= i < n :: es[i].score >= es[0].score - EPSILON
    ensures Pick(es, n) == 0
  {
    if n > 1 { FirstIsKept(es, n - 1); }
  }

  /** The scores with the one at k moved to the front, numbered. */
  function FrontFirst(scores: seq<real>, k: nat): (es: seq<Entry>)
    requires k < |scores|
    ensures SubmissionOrder(es) && |es| == |scores| && es[0].score == scores[k]
  {
    var order := [scores[k]] + scores[..k] + scores[k + 1..];
    seq(|order|, i requires 0 <= i < |order| => Entry(order[i], i))
  }

  lemma {:induction false} FrontFirstArranges(scores: seq<real>, k: nat)
    requires k < |scores|
    ensures Arranges(FrontFirst(scores, k), scores)
  {
    var order := [scores[k]] + scores[..k] + scores[k + 1..];
    assert Scores(FrontFirst(scores, k)) == order;
    assert scores == scores[..k] + [scores[k]] + scores[k + 1..];
  }

  lemma {:induction false} TieMisses(scores: seq<real>, x: real, y: real) returns (es: seq<Entry>)
    requires NearTie(scores, x, y)
    ensures Arranges(es, scores) && es != [] && !PicksMinimum(es)
  {
    var k :| 0 <= k < |scores| && scores[k] == y;
    es := FrontFirst(scores, k);
    FrontFirstArranges(scores, k);
    forall i | 0 <= i < |es| ensures es[i].score >= es[0].score - EPSILON {
      ScoreIn(es, scores, es[i].score);
    }
    FirstIsKept(es, |es|);
    ScoreIn(es, scores, x);
  }

  /** Whether CAPS finds the minimum: for given scores every order of submission has the least of them chosen
      exactly when no other score lies within the tolerance above it. */
  lemma {:induction false} MinimumThreshold(scores: seq<real>)
    requires scores != []
    ensures (forall es | Arranges(es, scores) && es != [] :: PicksMinimum(es))
      <==> forall x, y :: !NearTie(scores, x, y)
  {
    if forall x, y :: !NearTie(scores, x, y) {
      forall es | Arranges(es, scores) && es != [] ensures PicksMinimum(es) {
        NoTieNoMiss(es, scores);
      }
    } else {
      var x, y :| NearTie(scores, x, y);
      var es := TieMisses(scores, x, y);
    }
  }

  /** In arbitrary order ties can drift upward, by at most epsilon a step. */
  lemma {:induction false} PickDrift(es: seq<Entry>, n: nat, i: nat)
    requires i < n <= |es|
    ensures es[Pick(es, n)].score <= es[i].score + (n - 1) as real * EPSILON
  {
    if n > 1 {
      assert (n - 1) as real * EPSILON == (n - 2) as real * EPSILON + EPSILON;
      if i < n - 1 { PickDrift(es, n - 1, i); }
      assert (n - 2) as real * EPSILON >= 0.0;
    }
  }

  function Staircase(n: nat): (es: seq<Entry>)
    ensures |es| == n
    ensures forall i | 0 <= i < n :: es[i] == Entry(i as real * EPSILON, n - i)
  {
    seq(n, i requires 0 <= i < n => Entry(i as real * EPSILON, n - i))
  }

  lemma {:induction false} StaircaseClimbs(size: nat, n: nat)
    requires 0 < n <= size
    ensures Pick(Staircase(size), n) == n - 1
  {
    if n > 1 {
      StaircaseClimbs(size, n - 1);
      var es := Staircase(size);
      assert (n - 1) as real * EPSILON == (n - 2) as real * EPSILON + EPSILON;
    }
  }

  /** The drift bound cannot be improved: for every n some list of n candidates, not in submission order,
      attains it. */
  lemma {:induction false} DriftIsTight(n: nat)
    requires n > 0
    ensures var es := Staircase(n); es[Pick(es, n)].score == es[0].score + (n - 1) as real * EPSILON
  {
    StaircaseClimbs(n, n);
  }

  // ---------------------------------------------------------------- ageing

  ghost predicate Normalized(c: Candidate) {
    c.demand.Valid() && 0.0 <= c.affinity <= 1.0
  }

  function LevelSum(policy: Option<Weights>, pressure: Pressure): real {
    var levels := Levels(pressure, Effective(policy).fullWeight);
    levels.cpu + levels.memory + levels.io
  }

  predicate Saturated(policy: Option<Weights>, now: int, c: Candidate) {
    AgeSeconds(now, c.submittedAt) >= MAX_AGE_BONUS / Effective(policy).agingPerSecond
  }

  lemma {:induction false} UnitProduct(a: real, b: real)
    requires a >= 0.0 && 0.0 <= b <= 1.0
    ensures 0.0 <= a * b <= a
  {
    assert a - a * b == a * (1.0 - b);
  }

  lemma {:induction false} Sandwich(x: real, y: real, z: real, a: real, b: real, c: real)
    requires 0.0 <= x <= a && 0.0 <= y <= b && 0.0 <= z <= c
    ensures 0.0 <= x + y + z <= a + b + c
  {}

  lemma {:induction false} PenaltyBounds(levels: Demand, d: Demand)
    requires levels.Valid() && d.Valid()
    ensures 0.0 <= Penalty(levels, d) <= levels.cpu + levels.memory + levels.io
  {
    UnitProduct(levels.cpu, d.cpu);
    UnitProduct(levels.memory, d.memory);
    UnitProduct(levels.io, d.io);
    Sandwich(levels.cpu * d.cpu, levels.memory * d.memory, levels.io * d.io, levels.cpu, levels.memory, levels.io);
  }

  /** Pressure can raise a score by at most the sum of the levels, affinity lower it by its weight. */
  lemma {:induction false} ScoreBounds(w: Weights, levels: Demand, now: int, c: Candidate)
    requires w.agingPerSecond > 0.0 && w.affinityWeight > 0.0 && levels.Valid() && Normalized(c)
    ensures var base := Score(w, levels, now, c) + AgeBonus(w, now, c.submittedAt);
      -w.affinityWeight <= base <= levels.cpu + levels.memory + levels.io
  {
    PenaltyBounds(levels, c.demand);
    UnitProduct(w.affinityWeight, c.affinity);
  }

  /** Whoever scores better than a job with the full age bonus has some bonus of its own, unless the pressure
      is high. */
  lemma {:induction false} OvertakerHasBonus(policy: Option<Weights>, now: int, pressure: Pressure,
                                             j: Candidate, k: Candidate)
    requires Normalized(j) && Normalized(k) && Saturated(policy, now, j)
    requires var w := Effective(policy);
      var levels := Levels(pressure, w.fullWeight);
      Score(w, levels, now, j) > Score(w, levels, now, k)
    ensures var w := Effective(policy);
      AgeBonus(w, now, k.submittedAt) > MAX_AGE_BONUS - w.affinityWeight - LevelSum(policy, pressure)
  {
    var w := Effective(policy);
    var levels := Levels(pressure, w.fullWeight);
    ScoreBounds(w, levels, now, j);
    ScoreBounds(w, levels, now, k);
    SaturatedBonus(w, now, j.submittedAt);
  }

  /** The score CAPS picks by. */
  function Scoring(policy: Option<Weights>, now: int, pressure: Pressure): Candidate -> real {
    var w := Effective(policy);
    c => Score(w, Levels(pressure, w.fullWeight), now, c)
  }

  /** best is within the tolerance of other, and strictly better if other was submitted earlier. */
  ghost predicate NoWorse(score: Candidate -> real, best: Candidate, other: Candidate) {
    && score(best) <= score(other) + EPSILON
    && (other.sequence < best.sequence ==> score(other) > score(best))
  }

  lemma {:induction false} CapsPickNoWorse(policy: Option<Weights>, now: int, pressure: Pressure, cs: seq<Candidate>)
    requires cs != [] && forall a, b | 0 <= a < b < |cs| :: cs[a].sequence < cs[b].sequence
    ensures forall i | 0 <= i < |cs| ::
      NoWorse(Scoring(policy, now, pressure), cs[CapsPick(policy, now, pressure, cs)], cs[i])
  {
    var w := Effective(policy);
    var es := Entries(w, Levels(pressure, w.fullWeight), now, cs);
    PickInOrder(es, |es|);
  }

  /** c has an age bonus of its own, unless the pressure levels exceed 3 - affinityWeight. */
  predicate EarnedItsTurn(policy: Option<Weights>, now: int, pressure: Pressure, c: Candidate) {
    AgeBonus(Effective(policy), now, c.submittedAt)
      > MAX_AGE_BONUS - Effective(policy).affinityWeight - LevelSum(policy, pressure)
  }

  lemma {:induction false} NoWorseEarned(policy: Option<Weights>, now: int, pressure: Pressure, j: Candidate,
                                         k: Candidate)
    requires Normalized(j) && Normalized(k) && Saturated(policy, now, j)
    requires j.sequence < k.sequence && NoWorse(Scoring(policy, now, pressure), k, j)
    ensures EarnedItsTurn(policy, now, pressure, k)
  {
    OvertakerHasBonus(policy, now, pressure, j, k);
  }

  /** If job j has waited long enough for the full age bonus, a later-submitted k is chosen over it
      only if k's own age bonus exceeds 3 - affinityWeight - (sum of the pressure levels). */
  lemma {:induction false} BoundedOvertaking(policy: Option<Weights>, now: int, cs: seq<Candidate>,
                                             pressure: Pressure, j: nat, k: nat)
    requires j < k < |cs| && Normalized(cs[j]) && Normalized(cs[k])
    requires forall a, b | 0 <= a < b < |cs| :: cs[a].sequence < cs[b].sequence
    requires Saturated(policy, now, cs[j])
    requires k == CapsPick(policy, now, pressure, cs)
    ensures EarnedItsTurn(policy, now, pressure, cs[k])
  {
    var w := Effective(policy);
    var levels := Levels(pressure, w.fullWeight);
    var es := Entries(w, levels, now, cs);
    PickInOrder(es, |es|);
    assert es[j].score > es[k].score;
    OvertakerHasBonus(policy, now, pressure, cs[j], cs[k]);
  }

  lemma {:induction false} SaturatedBonus(w: Weights, now: int, submittedAt: int)
    requires w.agingPerSecond > 0.0
    requires AgeSeconds(now, submittedAt) >= MAX_AGE_BONUS / w.agingPerSecond
    ensures AgeBonus(w, now, submittedAt) == MAX_AGE_BONUS
  {
    var age := AgeSeconds(now, submittedAt);
    assert MAX_AGE_BONUS / w.agingPerSecond * w.agingPerSecond == MAX_AGE_BONUS;
    assert (age - MAX_AGE_BONUS / w.agingPerSecond) * w.agingPerSecond >= 0.0;
    assert age * w.agingPerSecond >= MAX_AGE_BONUS;
  }

  /** While the pressure levels sum to at most 3 - affinityWeight, a job without any age bonus never
      overtakes one that has the full bonus. */
  lemma {:induction false} FreshNeverOvertakes(policy: Option<Weights>, now: int, cs: seq<Candidate>,
                                               pressure: Pressure, j: nat, k: nat)
    requires j < k < |cs| && Normalized(cs[j]) && Normalized(cs[k])
    requires forall a, b | 0 <= a < b < |cs| :: cs[a].sequence < cs[b].sequence
    requires Saturated(policy, now, cs[j]) && cs[k].submittedAt >= now
    requires LevelSum(policy, pressure) <= MAX_AGE_BONUS - Effective(policy).affinityWeight
    ensures k != CapsPick(policy, now, pressure, cs)
  {
    assert AgeBonus(Effective(policy), now, cs[k].submittedAt) == 0.0;
    if k == CapsPick(policy, now, pressure, cs) { BoundedOvertaking(policy, now, cs, pressure, j, k); }
  }

  /** A candidate that the scheduler could offer: a demand it would accept, and the affinity its bytes give. */
  ghost predicate Offerable(c: Candidate) {
    && Normalized(c) && !c.demand.IsZero()
    && c.affinity == if c.requestedBytes == 0 then 0.0 else c.reusableBytes as real / c.requestedBytes as real
  }

  /** Candidates in submission order. */
  ghost predicate Lineup(cs: seq<Candidate>) {
    && (forall i | 0 <= i < |cs| :: Offerable(cs[i]))
    && (forall i, j | 0 <= i < j < |cs| :: cs[i].sequence < cs[j].sequence)
  }

  /** The submission times follow the sequence numbers. They need not: Submit reads the clock before it waits
      for the lock under which the number is given. */
  ghost predicate InTime(cs: seq<Candidate>) {
    forall i, j | 0 <= i < j < |cs| :: cs[i].submittedAt <= cs[j].submittedAt
  }

  /** Candidate k, submitted this instant, is chosen although j before it has its full age bonus. */
  ghost predicate Overtakes(policy: Option<Weights>, now: int, pressure: Pressure, cs: seq<Candidate>, j: nat, k: nat) {
    && j < k < |cs| && Lineup(cs)
    && Saturated(policy, now, cs[j]) && cs[k].submittedAt >= now
    && k == CapsPick(policy, now, pressure, cs)
  }

  lemma {:induction false} PickSettles(es: seq<Entry>, n: nat, k: nat)
    requires 0 < n <= |es| && Pick(es, n) == k
    ensures Pick(es, k + 1) == k
  {
    if n > k + 1 { PickSettles(es, n - 1, k); }
  }

  /** Earlier submissions have waited at least as long. */
  lemma {:induction false} SaturatedScore(policy: Option<Weights>, now: int, pressure: Pressure, cs: seq<Candidate>,
                                          i: nat, j: nat)
    requires i <= j < |cs| && Lineup(cs) && InTime(cs) && Saturated(policy, now, cs[j])
    ensures var w := Effective(policy);
      Score(w, Levels(pressure, w.fullWeight), now, cs[i]) <= LevelSum(policy, pressure) - MAX_AGE_BONUS
  {
    var w := Effective(policy);
    assert cs[i].submittedAt <= cs[j].submittedAt;
    SaturatedBonus(w, now, cs[i].submittedAt);
    ScoreBounds(w, Levels(pressure, w.fullWeight), now, cs[i]);
  }

  lemma {:induction false} OvertakingInTimeNeeds(policy: Option<Weights>, now: int, pressure: Pressure,
                                                 cs: seq<Candidate>, j: nat, k: nat)
    requires Overtakes(policy, now, pressure, cs, j, k) && InTime(cs)
    ensures LevelSum(policy, pressure) > MAX_AGE_BONUS - Effective(policy).affinityWeight + EPSILON
  {
    var w := Effective(policy);
    var levels := Levels(pressure, w.fullWeight);
    var es := Entries(w, levels, now, cs);
    PickSettles(es, |cs|, k);
    var p := Pick(es, k);
    PickInOrder(es, k);
    SaturatedScore(policy, now, pressure, cs, j, j);
    if p <= j { SaturatedScore(policy, now, pressure, cs, p, j); }
    ScoreBounds(w, levels, now, cs[k]);
    assert AgeBonus(w, now, cs[k].submittedAt) == 0.0;
    assert Beats(es[k], es[p]);
  }

  function Veteran(w: Weights, now: int): Candidate
    requires w.agingPerSecond > 0.0
  {
    Candidate("veteran", now - ((MAX_AGE_BONUS * 1000000000.0 / w.agingPerSecond).Floor + 1), 2,
              Demand(1.0, 1.0, 1.0), 0, 0, 0.0)
  }

  lemma {:induction false} VeteranIsSaturated(w: Weights, now: int)
    requires w.agingPerSecond > 0.0
    ensures AgeSeconds(now, Veteran(w, now).submittedAt) >= MAX_AGE_BONUS / w.agingPerSecond
    ensures Veteran(w, now).submittedAt < now
  {
    var x := MAX_AGE_BONUS * 1000000000.0 / w.agingPerSecond;
    assert x >= 0.0;
    assert (x.Floor + 1) as real > x;
    assert x / 1000000000.0 == MAX_AGE_BONUS / w.agingPerSecond;
  }

  function Novice(x: real, now: int): Candidate {
    Candidate("novice", now, 3, Demand(x, 0.0, 0.0), 1, 1, 1.0)
  }

  lemma {:induction false} VeteranScore(w: Weights, levels: Demand, now: int)
    requires w.agingPerSecond > 0.0
    ensures Score(w, levels, now, Veteran(w, now)) == levels.cpu + levels.memory + levels.io - MAX_AGE_BONUS
  {
    VeteranIsSaturated(w, now);
    SaturatedBonus(w, now, Veteran(w, now).submittedAt);
  }

  lemma {:induction false} NoviceScore(w: Weights, levels: Demand, now: int, x: real)
    requires w.agingPerSecond > 0.0 && 0.0 <= levels.cpu <= 1.0 && x >= 0.0
    ensures Score(w, levels, now, Novice(x, now)) <= x - w.affinityWeight
  {
    UnitProduct(x, levels.cpu);
    assert Penalty(levels, Novice(x, now).demand) == levels.cpu * x;
    assert levels.cpu * x == x * levels.cpu;
    assert w.affinityWeight * 1.0 == w.affinityWeight;
    assert AgeSeconds(now, now) == 0.0;
  }

  function Portion(gap: real): (x: real)
    requires gap > 0.0
    ensures 0.0 < x <= 1.0 && x < gap
  {
    if gap < 1.0 then gap * 0.5 else 0.5
  }

  /** A job just submitted, with an even demand y, that finds p of q bytes warm. */
  function Recruit(y: real, p: nat, q: nat, now: int): Candidate
    requires q > 0
  {
    Candidate("recruit", now, 1, Demand(y, y, y), q, p, p as real / q as real)
  }

  lemma {:induction false} RecruitScore(w: Weights, levels: Demand, now: int, y: real, p: nat, q: nat, sum: real, score: real)
    requires w.agingPerSecond > 0.0 && sum == levels.cpu + levels.memory + levels.io && q > 0
    requires sum * y - w.affinityWeight * (p as real / q as real) == score
    ensures Score(w, levels, now, Recruit(y, p, q, now)) == score
  {
    assert AgeSeconds(now, now) == 0.0;
    assert sum * y == levels.cpu * y + levels.memory * y + levels.io * y;
  }

  lemma {:induction false} DivideBack(a: real, b: real)
    requires 0.0 < a <= b
    ensures 0.0 < a / b <= 1.0 && b * (a / b) == a
  {
    assert b * (a / b) == a;
  }

  lemma {:induction false} ScaledDown(x: real, q: real)
    requires 0.0 <= x < 1.0 && q > 0.0
    ensures 0.0 <= x * q < q
  {
    assert q * (1.0 - x) > 0.0;
  }

  lemma {:induction false} QuotientBack(p: real, q: real)
    requires q > 0.0
    ensures p / q * q == p
  {}

  lemma {:induction false} ScaleKeepsOrder(a: real, b: real, q: real)
    requires q > 0.0
    ensures a <= b ==> a * q <= b * q
  {
    assert a <= b ==> (b - a) * q >= 0.0;
  }

  lemma {:induction false} CancelRight(x: real, a: real, q: real)
    requires q > 0.0 && x * q < a * q
    ensures x < a && (a - x) * q == a * q - x * q
  {
    assert (a - x) * q == a * q - x * q;
    ScaleKeepsOrder(a, x, q);
  }

  /** Some p of q lies above the fraction x, by 1 / q at most. */
  lemma {:induction false} FractionAbove(x: real, q: nat) returns (p: nat)
    requires 0.0 <= x < 1.0 && q > 0
    ensures p <= q && x < p as real / q as real && (p as real / q as real - x) * q as real <= 1.0
  {
    ScaledDown(x, q as real);
    p := (x * q as real).Floor + 1;
    QuotientBack(p as real, q as real);
    CancelRight(x, p as real / q as real, q as real);
  }

  lemma {:induction false} LargeEnough(weight: real, gap: real, q: real)
    requires gap > 0.0 && q > weight / gap
    ensures q * gap > weight
  {
    QuotientBack(weight, gap);
    assert (q - weight / gap) * gap > 0.0;
    assert (q - weight / gap) * gap == q * gap - weight / gap * gap;
  }

  /** A fraction of weight that lies in a given interval. */
  lemma {:induction false} WeighedFraction(weight: real, low: real, gap: real) returns (p: nat, q: nat)
    requires 0.0 < low < weight && gap > 0.0
    ensures 0 < q && p <= q && low < weight * (p as real / q as real) < low + gap
  {
    var x := low / weight;
    DivideBack(low, weight);
    assert weight * x == low && x != 1.0;
    assert weight / gap > 0.0;
    q := (weight / gap).Floor + 1;
    LargeEnough(weight, gap, q as real);
    p := FractionAbove(x, q);
    InsideGap(weight, x, p as real / q as real, q as real, gap);
  }

  lemma {:induction false} InsideGap(weight: real, x: real, a: real, q: real, gap: real)
    requires weight > 0.0 && gap > 0.0 && a > x && (a - x) * q <= 1.0 && q * gap > weight
    ensures weight * x < weight * a < weight * x + gap
  {
    var d := a - x;
    assert weight * d > 0.0;
    assert (q * gap - weight) * d > 0.0;
    assert q * gap * d == gap * (d * q);
    assert gap * (1.0 - d * q) >= 0.0;
    assert weight * a == weight * x + weight * d;
  }

  /** Demand and bytes of a recruit who ties with the veteran from above. */
  lemma {:induction false} RecruitFits(sum: real, weight: real) returns (y: real, p: nat, q: nat)
    requires sum >= 0.0 && weight > 0.0 && sum > MAX_AGE_BONUS - weight
    ensures 0.0 < y <= 1.0 && p <= q && q > 0
    ensures -weight < sum * y - weight * (p as real / q as real) - EPSILON <= sum - MAX_AGE_BONUS
  {
    if weight <= MAX_AGE_BONUS - EPSILON {
      DivideBack(sum - MAX_AGE_BONUS + EPSILON + weight, sum);
      y, p, q := (sum - MAX_AGE_BONUS + EPSILON + weight) / sum, 1, 1;
      assert weight * (1 as real / 1 as real) == weight;
    } else {
      y := 1.0;
      p, q := WeighedFraction(weight, MAX_AGE_BONUS - EPSILON, sum - MAX_AGE_BONUS + weight);
    }
  }

  /** Someone submitted this instant whose score is the veteran's and the tolerance, or slightly less. */
  lemma {:induction false} RecruitTies(policy: Option<Weights>, now: int, pressure: Pressure)
    returns (r: Candidate, score: real)
    requires LevelSum(policy, pressure) > MAX_AGE_BONUS - Effective(policy).affinityWeight
    ensures r.sequence == 1 && Offerable(r)
    ensures var w := Effective(policy);
      score == Score(w, Levels(pressure, w.fullWeight), now, r)
    ensures -Effective(policy).affinityWeight < score - EPSILON <= LevelSum(policy, pressure) - MAX_AGE_BONUS
  {
    var w := Effective(policy);
    var sum := LevelSum(policy, pressure);
    var y, p, q := RecruitFits(sum, w.affinityWeight);
    score := sum * y - w.affinityWeight * (p as real / q as real);
    RecruitScore(w, Levels(pressure, w.fullWeight), now, y, p, q, sum, score);
    assert 0.0 <= p as real / q as real <= 1.0 by { if p > 0 { DivideBack(p as real, q as real); } }
    r := Recruit(y, p, q, now);
  }

  /** Someone submitted this instant who beats a given score. */
  lemma {:induction false} NoviceBeats(policy: Option<Weights>, now: int, pressure: Pressure, bound: real)
    returns (r: Candidate)
    requires bound > -Effective(policy).affinityWeight
    ensures r.sequence == 3 && r.submittedAt == now && Offerable(r)
    ensures var w := Effective(policy);
      Score(w, Levels(pressure, w.fullWeight), now, r) < bound
  {
    var w := Effective(policy);
    var x := Portion(bound + w.affinityWeight);
    NoviceScore(w, Levels(pressure, w.fullWeight), now, x);
    r := Novice(x, now);
  }

  lemma {:induction false} VeteranTies(policy: Option<Weights>, now: int, pressure: Pressure) returns (r: Candidate)
    ensures r.sequence == 2 && r.submittedAt < now
    ensures Saturated(policy, now, r) && Offerable(r)
    ensures var w := Effective(policy);
      Score(w, Levels(pressure, w.fullWeight), now, r) == LevelSum(policy, pressure) - MAX_AGE_BONUS
  {
    var w := Effective(policy);
    r := Veteran(w, now);
    VeteranIsSaturated(w, now);
    VeteranScore(w, Levels(pressure, w.fullWeight), now);
  }

  lemma {:induction false} ThirdIsPicked(es: seq<Entry>)
    requires |es| == 3 && SubmissionOrder(es)
    requires es[1].score >= es[0].score - EPSILON && es[2].score < es[0].score - EPSILON
    ensures Pick(es, 3) == 2
  {
    assert Pick(es, 1) == 0;
    assert Pick(es, 2) == 0;
  }

  lemma {:induction false} ThirdScoresBest(w: Weights, levels: Demand, now: int, cs: seq<Candidate>, top: real)
    requires w.agingPerSecond > 0.0 && |cs| == 3
    requires cs[0].sequence < cs[1].sequence < cs[2].sequence
    requires Score(w, levels, now, cs[0]) - EPSILON <= top && Score(w, levels, now, cs[1]) == top
    requires Score(w, levels, now, cs[2]) < Score(w, levels, now, cs[0]) - EPSILON
    ensures Pick(Entries(w, levels, now, cs), 3) == 2
  {
    ThirdIsPicked(Entries(w, levels, now, cs));
  }

  lemma {:induction false} SecondIsPicked(es: seq<Entry>)
    requires |es| == 2 && es[1].score < es[0].score - EPSILON
    ensures Pick(es, 2) == 1
  {
    assert Pick(es, 1) == 0;
  }

  lemma {:induction false} SecondScoresBest(w: Weights, levels: Demand, now: int, cs: seq<Candidate>)
    requires w.agingPerSecond > 0.0 && |cs| == 2
    requires Score(w, levels, now, cs[1]) < Score(w, levels, now, cs[0]) - EPSILON
    ensures Pick(Entries(w, levels, now, cs), 2) == 1
  {
    SecondIsPicked(Entries(w, levels, now, cs));
  }

  lemma {:induction false} PressureAllowsInTime(policy: Option<Weights>, now: int, pressure: Pressure)
    returns (cs: seq<Candidate>)
    requires LevelSum(policy, pressure) > MAX_AGE_BONUS - Effective(policy).affinityWeight + EPSILON
    ensures Overtakes(policy, now, pressure, cs, 0, 1) && InTime(cs)
  {
    var w := Effective(policy);
    var veteran := VeteranTies(policy, now, pressure);
    var novice := NoviceBeats(policy, now, pressure, LevelSum(policy, pressure) - MAX_AGE_BONUS - EPSILON);
    cs := [veteran, novice];
    SecondScoresBest(w, Levels(pressure, w.fullWeight), now, cs);
  }

  /** The veteran ties with a recruit who came before him, and a novice beats the recruit. */
  lemma {:induction false} PressureAllowsOvertaking(policy: Option<Weights>, now: int, pressure: Pressure)
    returns (cs: seq<Candidate>)
    requires LevelSum(policy, pressure) > MAX_AGE_BONUS - Effective(policy).affinityWeight
    ensures Overtakes(policy, now, pressure, cs, 1, 2)
  {
    var w := Effective(policy);
    var recruit, score := RecruitTies(policy, now, pressure);
    var veteran := VeteranTies(policy, now, pressure);
    var novice := NoviceBeats(policy, now, pressure, score - EPSILON);
    cs := [recruit, veteran, novice];
    ThirdScoresBest(w, Levels(pressure, w.fullWeight), now, cs, LevelSum(policy, pressure) - MAX_AGE_BONUS);
  }

  lemma {:induction false} OvertakingNeedsPressure(policy: Option<Weights>, now: int, pressure: Pressure,
                                                   cs: seq<Candidate>, j: nat, k: nat)
    requires Overtakes(policy, now, pressure, cs, j, k)
    ensures LevelSum(policy, pressure) > MAX_AGE_BONUS - Effective(policy).affinityWeight
  {
    BoundedOvertaking(policy, now, cs, pressure, j, k);
    assert AgeBonus(Effective(policy), now, cs[k].submittedAt) == 0.0;
  }

  /** A job submitted this instant can overtake one with the full age bonus exactly when the pressure levels
      sum to more than 3 - affinityWeight. */
  lemma {:induction false} OvertakingThreshold(policy: Option<Weights>, now: int, pressure: Pressure)
    ensures (exists cs, j, k :: Overtakes(policy, now, pressure, cs, j, k))
      <==> LevelSum(policy, pressure) > MAX_AGE_BONUS - Effective(policy).affinityWeight
  {
    if LevelSum(policy, pressure) > MAX_AGE_BONUS - Effective(policy).affinityWeight {
      var cs := PressureAllowsOvertaking(policy, now, pressure);
    }
    forall cs: seq<Candidate>, j: nat, k: nat | Overtakes(policy, now, pressure, cs, j, k)
      ensures LevelSum(policy, pressure) > MAX_AGE_BONUS - Effective(policy).affinityWeight
    {
      OvertakingNeedsPressure(policy, now, pressure, cs, j, k);
    }
  }

  /** While times follow the sequence numbers it takes more than the tie tolerance on top. */
  lemma {:induction false} OvertakingInTimeThreshold(policy: Option<Weights>, now: int, pressure: Pressure)
    ensures (exists cs, j, k :: Overtakes(policy, now, pressure, cs, j, k) && InTime(cs))
      <==> LevelSum(policy, pressure) > MAX_AGE_BONUS - Effective(policy).affinityWeight + EPSILON
  {
    if LevelSum(policy, pressure) > MAX_AGE_BONUS - Effective(policy).affinityWeight + EPSILON {
      var cs := PressureAllowsInTime(policy, now, pressure);
    }
    forall cs: seq<Candidate>, j: nat, k: nat | Overtakes(policy, now, pressure, cs, j, k) && InTime(cs)
      ensures LevelSum(policy, pressure) > MAX_AGE_BONUS - Effective(policy).affinityWeight + EPSILON
    {
      OvertakingInTimeNeeds(policy, now, pressure, cs, j, k);
    }
  }

  /** Two jobs submitted at once that differ only in how much processor time they want. */
  function Alike(now: int): seq<Candidate> {
    [Candidate("first", now, 1, Demand(0.000000002, 0.0, 0.0), 0, 0, 0.0),
     Candidate("second", now, 2, Demand(0.000000001, 0.0, 0.0), 0, 0, 0.0)]
  }

  /** The tolerance is there to be used: in submission order a choice can miss the minimum by all of it. */
  lemma {:induction false} InOrderMayMissMinimum(policy: Option<Weights>, now: int)
    ensures Lineup(Alike(now)) && InTime(Alike(now))
    ensures CapsPick(policy, now, FULL_PRESSURE, Alike(now)) == 0
    ensures var score := Scoring(policy, now, FULL_PRESSURE);
      score(Alike(now)[0]) == score(Alike(now)[1]) + EPSILON
  {
    var w := Effective(policy);
    var levels := Levels(FULL_PRESSURE, w.fullWeight);
    assert levels == Demand(1.0, 1.0, 1.0);
    var es := Entries(w, levels, now, Alike(now));
    assert w.affinityWeight * 0.0 == 0.0;
    assert es[0].score == es[1].score + EPSILON;
    assert Pick(es, 1) == 0 && !Beats(es[1], es[0]);
  }

  const FULL_PRESSURE := Pressure(Resource(100.0, 0.0), Resource(100.0, 0.0), Resource(100.0, 0.0))
  /** Under full pressure a job that wants everything loses to a light, fully warm job submitted this instant,
      however long it has waited: ageing alone does not prevent starvation. */
  lemma {:induction false} AgeingDoesNotPreventStarvation(now: int, heavy: Candidate, light: Candidate)
    requires heavy.demand == Demand(1.0, 1.0, 1.0) && heavy.affinity == 0.0
    requires light.demand == Demand(0.1, 0.0, 0.0) && light.affinity == 1.0 && light.submittedAt == now
    ensures CapsPick(None, now, FULL_PRESSURE, [heavy, light]) == 1
  {
    var w := Effective(None);
    var levels := Levels(FULL_PRESSURE, w.fullWeight);
    assert levels == Demand(1.0, 1.0, 1.0);
    var cs := [heavy, light];
    var es := Entries(w, levels, now, cs);
    assert AgeBonus(w, now, light.submittedAt) == 0.0;
    assert es[0].score >= 0.0;
    assert es[1].score == 0.1 - 0.35;
    assert Pick(es, 1) == 0;
  }

  /** At no pressure at all, or any, it also loses to such a job that has its own full age bonus. */
  lemma {:induction false} AgedLightOvertakes(now: int, pressure: Pressure, heavy: Candidate, light: Candidate)
    requires heavy.demand == Demand(1.0, 1.0, 1.0) && heavy.affinity == 0.0
    requires light.demand == Demand(0.1, 0.0, 0.0) && light.affinity == 1.0 && Saturated(None, now, light)
    ensures CapsPick(None, now, pressure, [heavy, light]) == 1
  {
    var w := Effective(None);
    var levels := Levels(pressure, w.fullWeight);
    var cs := [heavy, light];
    var es := Entries(w, levels, now, cs);
    assert AgeBonus(w, now, light.submittedAt) == MAX_AGE_BONUS;
    assert es[0].score >= levels.cpu - AgeBonus(w, now, heavy.submittedAt);
    assert es[1].score == levels.cpu * 0.1 - 0.35 - MAX_AGE_BONUS;
    assert Pick(es, 1) == 0;
  }

  // ---------------------------------------------------------------- FIFO

  /** FIFOPolicy.Select: the first candidate with the smallest sequence number. */
  method SelectFIFO(cs: seq<Candidate>) returns (decision: Decision)
    ensures decision.score == 0.0
    ensures cs == [] ==> decision.index == 0
    ensures cs != [] ==> 0 <= decision.index < |cs|
    ensures forall i | 0 <= i < |cs| :: cs[decision.index].sequence <= cs[i].sequence
    ensures forall i | 0 <= i < decision.index && i < |cs| :: cs[decision.index].sequence < cs[i].sequence
  {
    var selected := 0;
    var index := 1;
    while index < |cs|
      invariant 0 <= selected < index
      invariant index == 1 || index <= |cs|
      invariant forall i | 0 <= i < index && i < |cs| :: cs[selected].sequence <= cs[i].sequence
      invariant forall i | 0 <= i < selected :: cs[selected].sequence < cs[i].sequence
    {
      if cs[index].sequence < cs[selected].sequence { selected := index; }
      index := index + 1;
    }
    decision := Decision(selected, 0.0);
  }
}
