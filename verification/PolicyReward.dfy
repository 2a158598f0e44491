/**
 The escalation layer: the reward grid of policy/reward.py, the gate metrics of
 policy/train_policy.py and the promotion gate of policy/evaluate_policy.py.
 */
module PolicyReward {
  import opened Wrappers
  import opened CostMatrix

  datatype Truth = Benign | Fault

  function Reward(t: Truth, a: Action): real {
    match (t, a)
    case (Benign, Suppress) => 2.0
    case (Benign, Wait) => 0.5
    case (Benign, Triage) => -0.5
    case (Benign, Alert) => -3.0
    case (Fault, Suppress) => -10.0
    case (Fault, Wait) => -1.0
    case (Fault, Triage) => 2.0
    case (Fault, Alert) => 5.0
  }

  function Clamp(p: real): real {
    if p < 0.0 then 0.0 else if p > 1.0 then 1.0 else p
  }

  function ExpectedCost(pFault: real, a: Action): real {
    var p := Clamp(pFault);
    p * -Reward(Fault, a) + (1.0 - p) * -Reward(Benign, a)
  }

  const ESCALATION_ACTIONS := [Wait, Triage, Alert]

  /** The cheapest of the first `n` actions; the earliest of the cheapest when several tie. */
  function BestOf(pFault: real, acts: seq<Action>, n: nat): (a: Action)
    requires 0 < n <= |acts|
    ensures a in acts[..n]
    ensures forall i | 0 <= i < n :: ExpectedCost(pFault, a) <= ExpectedCost(pFault, acts[i])
  {
    if n == 1 then acts[0]
    else
      var a := BestOf(pFault, acts, n - 1);
      if ExpectedCost(pFault, acts[n - 1]) < ExpectedCost(pFault, a) then acts[n - 1] else a
  }

  function BestAction(pFault: real, allowed: seq<Action> := ESCALATION_ACTIONS): Action
    requires allowed != []
  {
    BestOf(pFault, allowed, |allowed|)
  }

  /** The lower envelope of the three escalation lines. */
  function Band(p: real): Action {
    if p <= 1.0 / 4.0 then Wait else if p <= 5.0 / 11.0 then Triage else Alert
  }

  lemma EscalationBands(p: real)
    ensures BestAction(p) == Band(p)
  {
    var two := BestOf(p, ESCALATION_ACTIONS, 2);
    assert two == if p <= 1.0 / 4.0 then Wait else Triage by { assert BestOf(p, ESCALATION_ACTIONS, 1) == Wait; }
  }

  /** With `suppress` allowed as well, it takes over below 1/7 and nothing else changes. */
  lemma FullBands(p: real)
    ensures BestAction(p, ACTIONS) == if p <= 1.0 / 7.0 then Suppress else Band(p)
  {
    var two := BestOf(p, ACTIONS, 2);
    assert two == if p <= 1.0 / 7.0 then Suppress else Wait by { assert BestOf(p, ACTIONS, 1) == Suppress; }
    var three := BestOf(p, ACTIONS, 3);
    assert three == if p <= 1.0 / 7.0 then Suppress else if p <= 1.0 / 4.0 then Wait else Triage;
  }

  // --------------------------------------------------------- gate metrics

  /** One cross-validated row: is it a fault, and the predicted probability. */
  datatype Row = Row(fault: bool, p: real)

  function Count(rows: seq<Row>, keep: Row -> bool): nat {
    if rows == [] then 0
    else Count(rows[..|rows| - 1], keep) + if keep(rows[|rows| - 1]) then 1 else 0
  }

  datatype Metrics = Metrics(
    nFault: nat, nBenign: nat,
    faultEscalateRate: real, faultMissRate: real,
    benignAlertRate: real, benignEscalateRate: real, triageOveruse: real)

  function AtLeastOne(n: nat): nat {
    if n < 1 then 1 else n
  }

  function Rate(hits: nat, total: nat): real {
    hits as real / AtLeastOne(total) as real
  }

  predicate IsFault(r: Row) { r.fault }
  predicate IsBenign(r: Row) { !r.fault }
  predicate EscalatedFault(r: Row) { r.fault && BestAction(r.p) in {Triage, Alert} }
  predicate MissedFault(r: Row) { r.fault && BestAction(r.p) == Wait }
  predicate AlertedBenign(r: Row) { !r.fault && BestAction(r.p) == Alert }
  predicate EscalatedBenign(r: Row) { !r.fault && BestAction(r.p) in {Triage, Alert} }
  predicate Triaged(r: Row) { BestAction(r.p) == Triage }

  function GateMetrics(rows: seq<Row>): Metrics {
    var nf, nb := Count(rows, IsFault), Count(rows, IsBenign);
    Metrics(nf, nb,
      Rate(Count(rows, EscalatedFault), nf),
      Rate(Count(rows, MissedFault), nf),
      Rate(Count(rows, AlertedBenign), nb),
      Rate(Count(rows, EscalatedBenign), nb),
      Rate(Count(rows, Triaged), |rows|))
  }

  // The same rows seen through their probability alone.
  predicate LowFault(r: Row) { r.fault && r.p <= 1.0 / 4.0 }
  predicate HighBenign(r: Row) { !r.fault && r.p > 5.0 / 11.0 }
  predicate Middling(r: Row) { 1.0 / 4.0 < r.p <= 5.0 / 11.0 }

  lemma {:induction false} CountSplit(rows: seq<Row>, whole: Row -> bool, left: Row -> bool, right: Row -> bool)
    requires forall r :: whole(r) <==> left(r) || right(r)
    requires forall r :: !(left(r) && right(r))
    ensures Count(rows, whole) == Count(rows, left) + Count(rows, right)
  {
    if rows != [] {
      CountSplit(rows[..|rows| - 1], whole, left, right);
    }
  }

  lemma {:induction false} CountSame(rows: seq<Row>, f: Row -> bool, g: Row -> bool)
    requires forall r :: f(r) <==> g(r)
    ensures Count(rows, f) == Count(rows, g)
  {
    if rows != [] {
      CountSame(rows[..|rows| - 1], f, g);
    }
  }

  /** A fault is either escalated or missed; on an empty fault set both rates are 0. */
  lemma EscalateOrMiss(rows: seq<Row>)
    ensures var m := GateMetrics(rows);
            m.faultEscalateRate + m.faultMissRate == if m.nFault == 0 then 0.0 else 1.0
  {
    CountSplit(rows, IsFault, EscalatedFault, MissedFault);
    SumOfRates(Count(rows, EscalatedFault), Count(rows, MissedFault));
  }

  /** The benign rows escalated are those above the wait band, whichever action they get there. */
  lemma BenignEscalation(rows: seq<Row>)
    ensures GateMetrics(rows).benignEscalateRate ==
            Rate(Count(rows, (r: Row) => !r.fault && r.p > 1.0 / 4.0), Count(rows, IsBenign))
  {
    forall r: Row ensures EscalatedBenign(r) <==> !r.fault && r.p > 1.0 / 4.0 {
      EscalationBands(r.p);
    }
    CountSame(rows, EscalatedBenign, (r: Row) => !r.fault && r.p > 1.0 / 4.0);
  }

  lemma SumOfRates(e: nat, w: nat)
    ensures Rate(e, e + w) + Rate(w, e + w) == if e + w == 0 then 0.0 else 1.0
  {
    if e + w > 0 {
      var d := (e + w) as real;
      assert e as real / d + w as real / d == (e as real + w as real) / d;
    }
  }

  // ----------------------------------------------------------------- gate

  datatype Compare = AtLeast | AtMost

  datatype Gate = Gate(key: string, cmp: Compare, env: string, default: real)

  const GATES := [
    Gate("fault_escalate_rate", AtLeast, "POLICY_MIN_FAULT_ESCALATE", 0.90),
    Gate("fault_miss_rate", AtMost, "POLICY_MAX_FAULT_MISS", 0.05),
    Gate("benign_alert_rate", AtMost, "POLICY_MAX_BENIGN_ALERT", 0.02),
    Gate("triage_overuse", AtMost, "POLICY_MAX_TRIAGE_OVERUSE", 0.40)]

  datatype Verdict = Missing(key: string) | Passed(key: string) | Failed(key: string)

  function Lookup(m: map<string, real>, k: string): Option<real> {
    if k in m then Some(m[k]) else None
  }

  function Judge(g: Gate, metrics: map<string, real>, env: map<string, real>): Verdict {
    var thr := Lookup(env, g.env).GetOr(g.default);
    match Lookup(metrics, g.key)
    case None => Missing(g.key)
    case Some(v) =>
      if (if g.cmp == AtLeast then v >= thr else v <= thr) then Passed(g.key) else Failed(g.key)
  }

  /** The threshold in force: the environment's where it is set. */
  function InForce(env: map<string, real>, name: string, default: real): real {
    if name in env then env[name] else default
  }

  /** All four metrics are there: enough faults escalated, few missed, few benign rows paged, triage not overused. */
  predicate Clears(metrics: map<string, real>, env: map<string, real>) {
    && "fault_escalate_rate" in metrics && "fault_miss_rate" in metrics
    && "benign_alert_rate" in metrics && "triage_overuse" in metrics
    && metrics["fault_escalate_rate"] >= InForce(env, "POLICY_MIN_FAULT_ESCALATE", 0.90)
    && metrics["fault_miss_rate"] <= InForce(env, "POLICY_MAX_FAULT_MISS", 0.05)
    && metrics["benign_alert_rate"] <= InForce(env, "POLICY_MAX_BENIGN_ALERT", 0.02)
    && metrics["triage_overuse"] <= InForce(env, "POLICY_MAX_TRIAGE_OVERUSE", 0.40)
  }

  lemma ClearsExactly(metrics: map<string, real>, env: map<string, real>)
    ensures Clears(metrics, env) <==> forall i | 0 <= i < |GATES| :: Judge(GATES[i], metrics, env).Passed?
  {
    assert Judge(GATES[0], metrics, env).Passed? && Judge(GATES[1], metrics, env).Passed?
        && Judge(GATES[2], metrics, env).Passed? && Judge(GATES[3], metrics, env).Passed?
      <==> Clears(metrics, env);
  }

  /** Every gate gets one line, in order, and the candidate passes only if every line does. */
  method Evaluate(metrics: map<string, real>, env: map<string, real>) returns (ok: bool, report: seq<Verdict>)
    ensures |report| == |GATES|
    ensures forall i | 0 <= i < |GATES| :: report[i] == Judge(GATES[i], metrics, env)
    ensures ok <==> forall i | 0 <= i < |GATES| :: Judge(GATES[i], metrics, env).Passed?
    ensures ok <==> Clears(metrics, env)
  {
    ok, report := true, [];
    for i := 0 to |GATES|
      invariant |report| == i
      invariant forall j | 0 <= j < i :: report[j] == Judge(GATES[j], metrics, env)
      invariant ok <==> forall j | 0 <= j < i :: Judge(GATES[j], metrics, env).Passed?
    {
      var g := GATES[i];
      var thr := Lookup(env, g.env).GetOr(g.default);
      var val := Lookup(metrics, g.key);
      if val == None {
        report := report + [Missing(g.key)];
        ok := false;
        continue;
      }
      var passed := if g.cmp == AtLeast then val.value >= thr else val.value <= thr;
      ok := ok && passed;
      report := report + [if passed then Passed(g.key) else Failed(g.key)];
    }
    ClearsExactly(metrics, env);
  }

  predicate Promoted(metrics: map<string, real>, env: map<string, real>) {
    forall i | 0 <= i < |GATES| :: Judge(GATES[i], metrics, env).Passed?
  }

  /** The metrics as the JSON file carries them. */
  function AsDict(m: Metrics): map<string, real> {
    map["fault_escalate_rate" := m.faultEscalateRate,
        "fault_miss_rate" := m.faultMissRate,
        "benign_alert_rate" := m.benignAlertRate,
        "benign_escalate_rate" := m.benignEscalateRate,
        "triage_overuse" := m.triageOveruse]
  }

  predicate ClearsDefaults(m: Metrics) {
    m.faultEscalateRate >= 0.90 && m.faultMissRate <= 0.05 && m.benignAlertRate <= 0.02 && m.triageOveruse <= 0.40
  }

  lemma PromotedUnfolded(m: Metrics)
    ensures Promoted(AsDict(m), map[])
       <==> ClearsDefaults(m)
  {
    var d := AsDict(m);
    assert Judge(GATES[0], d, map[]).Passed? <==> m.faultEscalateRate >= 0.90;
    assert Judge(GATES[1], d, map[]).Passed? <==> m.faultMissRate <= 0.05;
    assert Judge(GATES[2], d, map[]).Passed? <==> m.benignAlertRate <= 0.02;
    assert Judge(GATES[3], d, map[]).Passed? <==> m.triageOveruse <= 0.40;
  }

  lemma RateAtMost(hits: nat, total: nat, bound: real)
    ensures Rate(hits, total) <= bound <==> hits as real <= bound * AtLeastOne(total) as real
  {
    var t := AtLeastOne(total) as real;
    assert hits as real == Rate(hits, total) * t;
    if Rate(hits, total) <= bound {
      assert Rate(hits, total) * t <= bound * t;
    } else {
      assert Rate(hits, total) * t > bound * t;
    }
  }

  lemma BandCounts(rows: seq<Row>)
    ensures Count(rows, MissedFault) == Count(rows, LowFault)
    ensures Count(rows, AlertedBenign) == Count(rows, HighBenign)
    ensures Count(rows, Triaged) == Count(rows, Middling)
  {
    forall r: Row ensures BestAction(r.p) == Band(r.p) { EscalationBands(r.p); }
    CountSame(rows, MissedFault, LowFault);
    CountSame(rows, AlertedBenign, HighBenign);
    CountSame(rows, Triaged, Middling);
  }

  lemma ClearsDefaultsExact(m: Metrics, low: nat, high: nat, mid: nat, n: nat)
    requires m.faultMissRate == Rate(low, m.nFault) && m.benignAlertRate == Rate(high, m.nBenign)
    requires m.triageOveruse == Rate(mid, n)
    requires m.faultEscalateRate + m.faultMissRate == if m.nFault == 0 then 0.0 else 1.0
    requires low <= m.nFault
    ensures ClearsDefaults(m)
       <==> && m.nFault >= 1 && 20 * low <= m.nFault
            && 50 * high <= AtLeastOne(m.nBenign) && 5 * mid <= 2 * AtLeastOne(n)
  {
    RateAtMost(low, m.nFault, 0.05);
    RateAtMost(high, m.nBenign, 0.02);
    RateAtMost(mid, n, 0.40);
  }

  /** The gated rates in terms of the bands. */
  lemma GateCounts(rows: seq<Row>)
    ensures var m := GateMetrics(rows);
            && m.nFault == Count(rows, IsFault) && m.nBenign == Count(rows, IsBenign)
            && m.faultMissRate == Rate(Count(rows, LowFault), m.nFault)
            && m.benignAlertRate == Rate(Count(rows, HighBenign), m.nBenign)
            && m.triageOveruse == Rate(Count(rows, Middling), |rows|)
            && Count(rows, LowFault) <= m.nFault
            && m.faultEscalateRate + m.faultMissRate == if m.nFault == 0 then 0.0 else 1.0
  {
    BandCounts(rows);
    CountSplit(rows, IsFault, EscalatedFault, MissedFault);
    EscalateOrMiss(rows);
  }

  /** Promotion read as a condition on the raw probabilities alone: how many rows fall in each band. */
  lemma PromotionExact(rows: seq<Row>)
    ensures Promoted(AsDict(GateMetrics(rows)), map[])
       <==> && Count(rows, IsFault) >= 1
            && 20 * Count(rows, LowFault) <= Count(rows, IsFault)
            && 50 * Count(rows, HighBenign) <= AtLeastOne(Count(rows, IsBenign))
            && 5 * Count(rows, Middling) <= 2 * AtLeastOne(|rows|)
  {
    GateCounts(rows);
    var m := GateMetrics(rows);
    PromotedUnfolded(m);
    ClearsDefaultsExact(m, Count(rows, LowFault), Count(rows, HighBenign), Count(rows, Middling), |rows|);
  }

  /** What the 0.90 escalation gate adds to the 0.05 miss gate: the miss gate alone passes when there is no fault at all
      or at least 95 per cent are escalated, so the two together ask for one fault more and nothing else. */
  lemma EscalationGateAdds(rows: seq<Row>)
    ensures var m := GateMetrics(rows);
            && (m.faultMissRate <= 0.05 <==> m.nFault == 0 || m.faultEscalateRate >= 0.95)
            && (m.faultMissRate <= 0.05 ==> (m.faultEscalateRate >= 0.90 <==> m.nFault >= 1))
  {
    EscalateOrMiss(rows);
    RateNonNegative(Count(rows, EscalatedFault), Count(rows, IsFault));
    RateNonNegative(Count(rows, MissedFault), Count(rows, IsFault));
  }

  lemma RateNonNegative(hits: nat, total: nat)
    ensures Rate(hits, total) >= 0.0
  {
  }

  /** One benign row and no fault: every gate passes but the escalation gate. */
  lemma NoFaultFailsOneGate()
    ensures var d := AsDict(GateMetrics([Row(false, 0.0)]));
            && Judge(GATES[0], d, map[]).Failed?
            && forall i | 1 <= i < |GATES| :: Judge(GATES[i], d, map[]).Passed?
  {
    var rows := [Row(false, 0.0)];
    var m := GateMetrics(rows);
    var d := AsDict(m);
    EscalationBands(0.0);
    NoneCount(rows, EscalatedFault);
    NoneCount(rows, MissedFault);
    NoneCount(rows, AlertedBenign);
    NoneCount(rows, Triaged);
    assert Judge(GATES[0], d, map[]) == Failed("fault_escalate_rate");
    assert Judge(GATES[1], d, map[]) == Passed("fault_miss_rate");
    assert Judge(GATES[2], d, map[]) == Passed("benign_alert_rate");
    assert Judge(GATES[3], d, map[]) == Passed("triage_overuse");
  }

  lemma NoneCount(rows: seq<Row>, keep: Row -> bool)
    requires |rows| == 1 && !keep(rows[0])
    ensures Count(rows, keep) == 0
  {
    assert rows[..0] == [];
  }

  /** A default-threshold promotion really saw faults, and escalates more of them than the stated 0.90 floor. */
  lemma PromotionMeansEscalation(rows: seq<Row>)
    requires Promoted(AsDict(GateMetrics(rows)), map[])
    ensures Count(rows, IsFault) >= 1
    ensures GateMetrics(rows).faultEscalateRate >= 0.95
  {
    PromotedUnfolded(GateMetrics(rows));
    EscalateOrMiss(rows);
  }
}
