/** `_compute_score`, the same expression in the three deadline schedulers
    (scheduler/model_deadline.py, tiered_deadline.py, deadline_aware.py). */
module Scoring {
  import opened Requests
  import opened ServiceOrder

  datatype Weights = Weights(cadence: real, urgency: real, steps: real, priority: real, age: real)

  ghost predicate NonNegative(w: Weights) {
    w.cadence >= 0.0 && w.urgency >= 0.0 && w.steps >= 0.0 && w.priority >= 0.0 && w.age >= 0.0
  }

  function Min(x: real, y: real): (m: real) {
    if x <= y then x else y
  }

  function Lateness(r: Request): (late: real) {
    (if -r.timeUntilNext > 0.0 then -r.timeUntilNext else 0.0) / 0.1
  }

  function StepsFactor(steps: Option<nat>): (factor: real) {
    match steps
    case None => 0.0
    case Some(n) => if n == 0 then 1.0 else if n <= 2 then 0.7 else if n <= 4 then 0.4 else 0.0
  }

  function PriorityLevels(priority: nat): (levels: real) {
    (10 - if priority < 10 then priority else 10) as real
  }

  /** Age as a fraction of the latency budget; not yet capped at 1. */
  function RelativeAge(r: Request, now: real): (age: real)
  {
    (now - r.receivedAt) * 1000.0 / r.budgetMs
  }

  function Score(w: Weights, r: Request, now: real): (score: real)
  {
    WeightedSum(w, Lateness(r), r.urgency, StepsFactor(r.steps), PriorityLevels(r.priority),
                Min(RelativeAge(r, now), 1.0))
  }

  function WeightedSum(w: Weights, late: real, urgency: real, steps: real, levels: real, age: real): (sum: real) {
    AddUp(late * w.cadence, urgency * w.urgency, steps * w.steps, levels * w.priority, age * w.age)
  }

  function AddUp(late: real, urgency: real, steps: real, priority: real, age: real): (sum: real) {
    late + urgency + steps + priority / 10.0 + age
  }

  // ---------- What each feature adds ----------

  lemma UrgencyAdds(w: Weights, r: Request, urgency: real, t: real)
    ensures Score(w, r.(urgency := urgency), t) - Score(w, r, t) == (urgency - r.urgency) * w.urgency
  {
    TimesDifference(urgency, r.urgency, w.urgency);
  }

  /** A client that is not overdue gains nothing; one that is gains ten times the weight for each second. */
  lemma LatenessAdds(w: Weights, r: Request, until: real, t: real)
    ensures Score(w, r.(timeUntilNext := until), t) - Score(w, r.(timeUntilNext := 0.0), t)
            == if until >= 0.0 then 0.0 else (-until * 10.0) * w.cadence
  {
    TimesDifference(Lateness(r.(timeUntilNext := until)), 0.0, w.cadence);
    assert until < 0.0 ==> Lateness(r.(timeUntilNext := until)) == -until * 10.0;
  }

  /** The whole weight at the end of an episode, 0.7 of it in the last two steps, 0.4 in the two before. */
  lemma StepsAdd(w: Weights, r: Request, n: nat, t: real)
    ensures Score(w, r.(steps := Some(n)), t) - Score(w, r.(steps := None), t)
            == if n == 0 then w.steps
               else if n == 1 || n == 2 then 0.7 * w.steps
               else if n == 3 || n == 4 then 0.4 * w.steps
               else 0.0
  {
  }

  /** The most urgent priority is 0 and gains the whole weight; each level less costs a tenth of it, and from
      the tenth on nothing is gained. */
  lemma PriorityAdds(w: Weights, r: Request, priority: nat, t: real)
    ensures Score(w, r.(priority := priority), t) - Score(w, r.(priority := 10), t)
            == if priority >= 10 then 0.0 else (10 - priority) as real * (w.priority / 10.0)
  {
    TimesDifference(PriorityLevels(priority), 0.0, w.priority);
    TimesTenth(PriorityLevels(priority), w.priority);
  }

  /** Age gains the part of the weight that it is of the latency budget, and never more than the weight. */
  lemma AgeAdds(w: Weights, r: Request, t: real)
    ensures Score(w, r, t) - Score(w, r, r.receivedAt)
            == if t >= r.receivedAt + r.budgetMs / 1000.0 then w.age
               else ((t - r.receivedAt) * 1000.0 / r.budgetMs) * w.age
  {
    AgeReachesBudget(r, t);
    assert RelativeAge(r, r.receivedAt) == 0.0;
    TimesDifference(Min(RelativeAge(r, t), 1.0), 0.0, w.age);
  }

  lemma AgeReachesBudget(r: Request, t: real)
    ensures RelativeAge(r, t) >= 1.0 <==> t >= r.receivedAt + r.budgetMs / 1000.0
  {
    var ms := (t - r.receivedAt) * 1000.0;
    FractionReachesOne(ms, r.budgetMs);
  }

  lemma FractionReachesOne(x: real, y: real)
    requires y > 0.0
    ensures x / y >= 1.0 <==> x >= y
  {
    assert x == (x / y) * y;
    if x / y >= 1.0 {
      MulMonotone(x / y, 1.0, y);
    } else {
      assert (1.0 - x / y) * y > 0.0;
    }
  }

  /** A request of which nothing is known and that has just arrived scores nothing. */
  lemma NothingScoresNothing(w: Weights, r: Request)
    requires r.timeUntilNext >= 0.0 && r.urgency == 0.0 && r.steps.None? && r.priority >= 10
    ensures Score(w, r, r.receivedAt) == 0.0
  {
    assert RelativeAge(r, r.receivedAt) == 0.0;
  }

  lemma TimesDifference(x: real, y: real, w: real)
    ensures x * w - y * w == (x - y) * w
  {
  }

  lemma TimesTenth(x: real, w: real)
    ensures x * w / 10.0 == x * (w / 10.0)
  {
  }

  ghost predicate NearerEnd(a: Option<nat>, b: Option<nat>) {
    b.None? || (a.Some? && a.value <= b.value)
  }

  /** Enqueued at `ta`, request `a` is at least as late, urgent, near its end, high-priority and aged
      (relative to its budget) as `b` enqueued at `tb`. */
  ghost predicate Dominates(a: Request, ta: real, b: Request, tb: real)
  {
    && a.timeUntilNext <= b.timeUntilNext
    && a.urgency >= b.urgency
    && NearerEnd(a.steps, b.steps)
    && a.priority <= b.priority
    && RelativeAge(a, ta) >= RelativeAge(b, tb)
  }

  lemma MulMonotone(x: real, y: real, w: real)
    requires x >= y && w >= 0.0
    ensures x * w >= y * w
  {
    assert (x - y) * w >= 0.0;
  }

  lemma WeightedSumMonotone(w: Weights, l: real, u: real, s: real, p: real, g: real,
                            l': real, u': real, s': real, p': real, g': real)
    requires NonNegative(w)
    requires l >= l' && u >= u' && s >= s' && p >= p' && g >= g'
    ensures WeightedSum(w, l, u, s, p, g) >= WeightedSum(w, l', u', s', p', g')
  {
    MulMonotone(l, l', w.cadence);
    MulMonotone(u, u', w.urgency);
    MulMonotone(s, s', w.steps);
    MulMonotone(p, p', w.priority);
    MulMonotone(g, g', w.age);
    SumMonotone(l * w.cadence, u * w.urgency, s * w.steps, p * w.priority, g * w.age,
                l' * w.cadence, u' * w.urgency, s' * w.steps, p' * w.priority, g' * w.age);
  }

  lemma SumMonotone(a: real, b: real, c: real, d: real, e: real,
                    a': real, b': real, c': real, d': real, e': real)
    requires a >= a' && b >= b' && c >= c' && d >= d' && e >= e'
    ensures AddUp(a, b, c, d, e) >= AddUp(a', b', c', d', e')
  {
  }

  lemma DominanceScores(w: Weights, a: Request, ta: real, b: Request, tb: real)
    requires NonNegative(w)
    requires Dominates(a, ta, b, tb)
    ensures Score(w, a, ta) >= Score(w, b, tb)
  {
    var la, sa, pa, ga := Lateness(a), StepsFactor(a.steps), PriorityLevels(a.priority), Min(RelativeAge(a, ta), 1.0);
    var lb, sb, pb, gb := Lateness(b), StepsFactor(b.steps), PriorityLevels(b.priority), Min(RelativeAge(b, tb), 1.0);
    assert la >= lb && sa >= sb && pa >= pb && ga >= gb;
    WeightedSumMonotone(w, la, a.urgency, sa, pa, ga, lb, b.urgency, sb, pb, gb);
    assert Score(w, a, ta) == WeightedSum(w, la, a.urgency, sa, pa, ga);
    assert Score(w, b, tb) == WeightedSum(w, lb, b.urgency, sb, pb, gb);
  }

  /** Score dominance decides service. `s` is what one heap holds; `a` and `b` were scored when they
      were enqueued, and neither is scored again while it waits. */
  lemma DominantServedFirst(w: Weights, s: set<Request>, a: Request, ta: real, b: Request, tb: real)
    requires NonNegative(w)
    requires Distinct(s) && a in s && b in s
    requires a.score == Score(w, a, ta) && b.score == Score(w, b, tb)
    requires Dominates(a, ta, b, tb)
    requires a.counter < b.counter || a.score > b.score
    ensures First(s) != b && |Order(s)| == |s|
    ensures exists i, j :: 0 <= i < j < |s| && Order(s)[i] == a && Order(s)[j] == b
  {
    DominanceScores(w, a, ta, b, tb);
    PrecedingServedFirst(s, a, b);
  }
}
