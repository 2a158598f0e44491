/**
 The cost-sensitive decision of src/triage/cost_matrix.py: the expected-cost
 argmin over four severity classes, and the guardrails that may raise it.
 */
module CostMatrix {
  import opened Wrappers
  import opened Argmin
  import Text

  datatype Class = Normal | Low | Medium | High
  datatype Action = Suppress | Wait | Triage | Alert

  const CLASSES := [Normal, Low, Medium, High]
  const ACTIONS := [Suppress, Wait, Triage, Alert]

  /** `_CLASS_ORDER` and `ACTION_SEVERITY`. */
  function ClassOrder(c: Class): nat {
    match c case Normal => 0 case Low => 1 case Medium => 2 case High => 3
  }

  function Severity(a: Action): nat {
    match a case Suppress => 0 case Wait => 1 case Triage => 2 case Alert => 3
  }

  function Stronger(a: Action, b: Action): Action {
    if Severity(a) < Severity(b) then b else a
  }

  /** One row per action, one column per class, both in ascending severity. */
  type Matrix = m: seq<seq<real>> | |m| == 4 && Rectangular(m, 4)
    witness seq(4, _ => [0.0, 0.0, 0.0, 0.0])

  const COST_MATRIX: Matrix := [
    [0.0, 1.0, 6.0, 20.0],
    [0.5, 0.0, 3.0, 12.0],
    [1.0, 0.5, 0.0, 4.0],
    [3.0, 2.0, 1.0, 0.0]]

  const RECALL_FIRST_COST_MATRIX: Matrix := [
    [0.0, 2.0, 15.0, 60.0],
    [0.5, 0.0, 8.0, 35.0],
    [1.0, 0.5, 0.0, 8.0],
    [3.0, 2.0, 1.0, 0.0]]

  ghost predicate Shipped(m: Matrix) {
    m == COST_MATRIX || m == RECALL_FIRST_COST_MATRIX
  }

  /** A class-probability dict; a missing class counts as 0. */
  type Prob = map<Class, real>

  function At(prob: Prob, c: Class): real {
    if c in prob then prob[c] else 0.0
  }

  function Vector(prob: Prob): (r: seq<real>)
    ensures |r| == 4
  {
    [At(prob, Normal), At(prob, Low), At(prob, Medium), At(prob, High)]
  }

  /** Non-negative and of total mass one. */
  ghost predicate Simplex(prob: Prob) {
    && (forall c | c in prob :: 0.0 <= prob[c])
    && At(prob, Normal) + At(prob, Low) + At(prob, Medium) + At(prob, High) == 1.0
  }

  function ExpectedCosts(prob: Prob, m: Matrix): (r: seq<real>)
    ensures |r| == 4
  {
    Costs(m, Vector(prob))
  }

  function RecommendedAction(prob: Prob, m: Matrix): Action {
    ACTIONS[FirstOf(ExpectedCosts(prob, m), 4)]
  }

  function Indicator(b: bool): real {
    if b then 1.0 else 0.0
  }

  function OneHot(c: Class): Prob {
    map[Normal := Indicator(c == Normal), Low := Indicator(c == Low),
        Medium := Indicator(c == Medium), High := Indicator(c == High)]
  }

  function ActionForPureClass(c: Class, m: Matrix := COST_MATRIX): Action {
    RecommendedAction(OneHot(c), m)
  }

  // ----------------------------------------------------------- guardrails

  datatype GuardrailConfig = GuardrailConfig(
    highScoreFloor: real, pHighAlert: real, pHighTriage: real, minConfidence: real,
    unknownWorkloadFloor: Action, enabled: bool)

  const GUARDRAILS := GuardrailConfig(0.9, 0.5, 0.25, 0.5, Triage, true)

  /** The two identity fields the guardrail reads; an absent field reads as "". */
  datatype Identity = Identity(namespace: string, pod: string)

  const UNKNOWN_TOKENS: set<string> := {"", "unknown", "none", "null", "n/a"}

  function IsUnknownWorkload(identity: Option<Identity>): bool {
    match identity
    case None => true
    case Some(id) =>
      || Text.Lower(Text.Strip(id.namespace)) in UNKNOWN_TOKENS
      || Text.Lower(Text.Strip(id.pod)) in UNKNOWN_TOKENS
  }

  /** One unattributed field is enough, whatever its case and however it is padded; with both attributed the workload is
      known. */
  lemma UnknownExactly(a: string, ns: string, b: string, c: string, pod: string, d: string)
    requires Text.Blank(a) && Text.Blank(b) && Text.Blank(c) && Text.Blank(d)
    requires ns != "" ==> !Text.IsSpace(ns[0]) && !Text.IsSpace(ns[|ns| - 1])
    requires pod != "" ==> !Text.IsSpace(pod[0]) && !Text.IsSpace(pod[|pod| - 1])
    ensures IsUnknownWorkload(None)
    ensures var tokens := ["", "unknown", "none", "null", "n/a"];
            IsUnknownWorkload(Some(Identity(a + ns + b, c + pod + d))) <==>
            Text.Lower(ns) in tokens || Text.Lower(pod) in tokens
  {
    Text.StripPadded(a, ns, b);
    Text.StripPadded(c, pod, d);
  }

  /** The larger of `x` and the probability of `c`, where either may be missing. */
  function Larger(x: Option<real>, prob: Prob, c: Class): (r: Option<real>)
    ensures r == x || (c in prob && r == Some(prob[c]))
    ensures x.Some? ==> r.Some? && x.value <= r.value
    ensures c in prob ==> r.Some? && prob[c] <= r.value
  {
    if c !in prob || (x.Some? && prob[c] <= x.value) then x else Some(prob[c])
  }

  /** The largest probability in the dict, 0 when it is empty. */
  function Confidence(prob: Prob): (r: real)
    ensures prob == map[] ==> r == 0.0
    ensures forall c | c in prob :: prob[c] <= r
    ensures prob != map[] ==> exists c | c in prob :: prob[c] == r
  {
    var x := Larger(Larger(Larger(Larger(None, prob, Normal), prob, Low), prob, Medium), prob, High);
    assert forall c | c in prob :: c == Normal || c == Low || c == Medium || c == High;
    assert prob != map[] ==> exists c :: c in prob;
    x.GetOr(0.0)
  }

  /** Why a guardrail fired. */
  datatype Reason = HighScore | PHighAlert | PHighTriage | LowConfidence | UnknownWorkload

  function FloorOf(r: Reason, cfg: GuardrailConfig): Action {
    match r
    case HighScore => Triage
    case PHighAlert => Alert
    case PHighTriage => Triage
    case LowConfidence => Wait
    case UnknownWorkload => cfg.unknownWorkloadFloor
  }

  /** What the guardrails look at. */
  datatype Signals = Signals(score: real, pHigh: real, confidence: real, unknown: bool)

  function SignalsOf(prob: Prob, score: real, identity: Option<Identity>): Signals {
    Signals(score, At(prob, High), Confidence(prob), IsUnknownWorkload(identity))
  }

  /** The condition under which guardrail `r` fires. */
  predicate Fires(r: Reason, s: Signals, cfg: GuardrailConfig) {
    && cfg.enabled
    && match r
       case HighScore => cfg.highScoreFloor <= s.score
       case PHighAlert => cfg.pHighAlert <= s.pHigh
       case PHighTriage => cfg.pHighTriage <= s.pHigh < cfg.pHighAlert
       case LowConfidence => s.confidence < cfg.minConfidence
       case UnknownWorkload => s.unknown
  }

  function When(b: bool, r: Reason): seq<Reason> {
    if b then [r] else []
  }

  function Rank(r: Reason): nat {
    match r
    case HighScore => 0
    case PHighAlert => 1
    case PHighTriage => 2
    case LowConfidence => 3
    case UnknownWorkload => 4
  }

  /** Listed in the order the guardrails are tried, each once. */
  ghost predicate InOrder(rs: seq<Reason>) {
    forall i, j | 0 <= i < j < |rs| :: Rank(rs[i]) < Rank(rs[j])
  }

  /** The guardrails that fire, in the order they are tried. */
  function Fired(s: Signals, cfg: GuardrailConfig): (rs: seq<Reason>)
    ensures InOrder(rs)
    ensures forall r :: r in rs <==> Fires(r, s, cfg)
  {
    When(Fires(HighScore, s, cfg), HighScore)
    + When(Fires(PHighAlert, s, cfg), PHighAlert)
    + When(Fires(PHighTriage, s, cfg), PHighTriage)
    + When(Fires(LowConfidence, s, cfg), LowConfidence)
    + When(Fires(UnknownWorkload, s, cfg), UnknownWorkload)
  }

  /** `a` is the strongest of the given reasons' floors. */
  ghost predicate IsFloor(a: Action, reasons: seq<Reason>, cfg: GuardrailConfig) {
    && (forall i | 0 <= i < |reasons| :: Severity(FloorOf(reasons[i], cfg)) <= Severity(a))
    && (a == Suppress || exists i | 0 <= i < |reasons| :: FloorOf(reasons[i], cfg) == a)
  }

  function Floor(reasons: seq<Reason>, cfg: GuardrailConfig): (a: Action)
    ensures IsFloor(a, reasons, cfg)
  {
    if reasons == [] then Suppress
    else
      var last := |reasons| - 1;
      var rest := Floor(reasons[..last], cfg);
      assert rest != Suppress ==> exists i | 0 <= i < last :: FloorOf(reasons[i], cfg) == rest;
      Stronger(rest, FloorOf(reasons[last], cfg))
  }

  /** `raise_to`: the floor only moves up, the reason is recorded either way. */
  method RaiseTo(floor: Action, reasons: seq<Reason>, r: Reason, cfg: GuardrailConfig)
    returns (floor': Action, reasons': seq<Reason>)
    requires IsFloor(floor, reasons, cfg)
    ensures reasons' == reasons + [r]
    ensures IsFloor(floor', reasons', cfg)
  {
    floor' := floor;
    if Severity(FloorOf(r, cfg)) > Severity(floor) {
      floor' := FloorOf(r, cfg);
    }
    reasons' := reasons + [r];
    assert forall i | 0 <= i < |reasons| :: reasons'[i] == reasons[i];
    assert reasons'[|reasons|] == r;
  }

  method GuardrailFloor(prob: Prob, score: real, identity: Option<Identity>, cfg: GuardrailConfig)
    returns (floor: Action, reasons: seq<Reason>)
    ensures reasons == Fired(SignalsOf(prob, score, identity), cfg)
    ensures IsFloor(floor, reasons, cfg)
    ensures !cfg.enabled ==> floor == Suppress && reasons == []
  {
    floor, reasons := FloorOfSignals(SignalsOf(prob, score, identity), cfg);
  }

  method FloorOfSignals(s: Signals, cfg: GuardrailConfig) returns (floor: Action, reasons: seq<Reason>)
    ensures reasons == Fired(s, cfg)
    ensures IsFloor(floor, reasons, cfg)
    ensures !cfg.enabled ==> floor == Suppress && reasons == []
  {
    floor, reasons := Suppress, [];
    if !cfg.enabled {
      return;
    }
    if s.score >= cfg.highScoreFloor {
      floor, reasons := RaiseTo(floor, reasons, HighScore, cfg);
    }
    ghost var first := When(Fires(HighScore, s, cfg), HighScore);
    assert reasons == first;
    if s.pHigh >= cfg.pHighAlert {
      floor, reasons := RaiseTo(floor, reasons, PHighAlert, cfg);
    } else if s.pHigh >= cfg.pHighTriage {
      floor, reasons := RaiseTo(floor, reasons, PHighTriage, cfg);
    }
    ghost var second := first + When(Fires(PHighAlert, s, cfg), PHighAlert);
    ghost var third := second + When(Fires(PHighTriage, s, cfg), PHighTriage);
    assert reasons == third;
    if s.confidence < cfg.minConfidence {
      floor, reasons := RaiseTo(floor, reasons, LowConfidence, cfg);
    }
    ghost var fourth := third + When(Fires(LowConfidence, s, cfg), LowConfidence);
    assert reasons == fourth;
    if s.unknown {
      floor, reasons := RaiseTo(floor, reasons, UnknownWorkload, cfg);
    }
    assert reasons == fourth + When(Fires(UnknownWorkload, s, cfg), UnknownWorkload);
  }

  // ------------------------------------------------------------- decision

  datatype Decision = Decision(action: Action, costs: seq<real>, reasons: seq<Reason>)

  function DecideAction(prob: Prob, score: real, identity: Option<Identity>,
                        m: Matrix := RECALL_FIRST_COST_MATRIX, cfg: GuardrailConfig := GUARDRAILS): Decision
  {
    var base := RecommendedAction(prob, m);
    var reasons := Fired(SignalsOf(prob, score, identity), cfg);
    var floor := Floor(reasons, cfg);
    if Severity(floor) > Severity(base)
    then Decision(floor, ExpectedCosts(prob, m), reasons)
    else Decision(base, ExpectedCosts(prob, m), [])
  }

  /** The floor is determined by the reasons. */
  lemma FloorUnique(a: Action, b: Action, reasons: seq<Reason>, cfg: GuardrailConfig)
    requires IsFloor(a, reasons, cfg) && IsFloor(b, reasons, cfg)
    ensures a == b
  {
    if a != Suppress {
      var i :| 0 <= i < |reasons| && FloorOf(reasons[i], cfg) == a;
    }
    if b != Suppress {
      var j :| 0 <= j < |reasons| && FloorOf(reasons[j], cfg) == b;
    }
  }

  /** The argmin, or the strongest action that a condition of the configuration calls for: alert for a likely enough
      high, triage for a possible high or a high score, wait for a flat distribution, the configured floor for an
      unknown workload. */
  lemma DecisionLadder(prob: Prob, score: real, identity: Option<Identity>, m: Matrix, cfg: GuardrailConfig)
    ensures var base, pHigh := Severity(RecommendedAction(prob, m)), At(prob, High);
            var rank := Severity(DecideAction(prob, score, identity, m, cfg).action);
            var unknown := if IsUnknownWorkload(identity) then Severity(cfg.unknownWorkloadFloor) else 0;
            if !cfg.enabled then rank == base
            else
              && (rank >= 3 <==> base >= 3 || unknown >= 3 || pHigh >= cfg.pHighAlert)
              && (rank >= 2 <==> base >= 2 || unknown >= 2 || pHigh >= cfg.pHighAlert || pHigh >= cfg.pHighTriage
                                 || score >= cfg.highScoreFloor)
              && (rank >= 1 <==> base >= 1 || unknown >= 1 || pHigh >= cfg.pHighAlert || pHigh >= cfg.pHighTriage
                                 || score >= cfg.highScoreFloor || Confidence(prob) < cfg.minConfidence)
  {
    FloorLadder(SignalsOf(prob, score, identity), cfg);
  }

  lemma FloorLadder(s: Signals, cfg: GuardrailConfig)
    ensures var rank := Severity(Floor(Fired(s, cfg), cfg));
            var unknown := if s.unknown then Severity(cfg.unknownWorkloadFloor) else 0;
            if !cfg.enabled then rank == 0
            else
              && (rank >= 3 <==> unknown >= 3 || s.pHigh >= cfg.pHighAlert)
              && (rank >= 2 <==> unknown >= 2 || s.pHigh >= cfg.pHighAlert || s.pHigh >= cfg.pHighTriage
                                 || s.score >= cfg.highScoreFloor)
              && (rank >= 1 <==> unknown >= 1 || s.pHigh >= cfg.pHighAlert || s.pHigh >= cfg.pHighTriage
                                 || s.score >= cfg.highScoreFloor || s.confidence < cfg.minConfidence)
  {
    var floor := Floor(Fired(s, cfg), cfg);
    FloorCovers(s, cfg, HighScore);
    FloorCovers(s, cfg, PHighAlert);
    FloorCovers(s, cfg, PHighTriage);
    FloorCovers(s, cfg, LowConfidence);
    FloorCovers(s, cfg, UnknownWorkload);
    if floor != Suppress {
      var r := FloorComesFrom(s, cfg);
    }
  }

  lemma FloorCovers(s: Signals, cfg: GuardrailConfig, r: Reason)
    ensures Fires(r, s, cfg) ==> Severity(FloorOf(r, cfg)) <= Severity(Floor(Fired(s, cfg), cfg))
  {
    assert Fires(r, s, cfg) ==> r in Fired(s, cfg);
  }

  lemma FloorComesFrom(s: Signals, cfg: GuardrailConfig) returns (r: Reason)
    requires Floor(Fired(s, cfg), cfg) != Suppress
    ensures Fires(r, s, cfg) && FloorOf(r, cfg) == Floor(Fired(s, cfg), cfg)
  {
    var fired := Fired(s, cfg);
    var i :| 0 <= i < |fired| && FloorOf(fired[i], cfg) == Floor(fired, cfg);
    r := fired[i];
  }

  /** The decision as it is computed: the argmin, then the guardrails tried one by one. */
  method Decide(prob: Prob, score: real, identity: Option<Identity>, m: Matrix, cfg: GuardrailConfig)
    returns (d: Decision)
    ensures d == DecideAction(prob, score, identity, m, cfg)
  {
    var base, costs := RecommendedAction(prob, m), ExpectedCosts(prob, m);
    var floor, reasons := GuardrailFloor(prob, score, identity, cfg);
    FloorUnique(floor, Floor(reasons, cfg), reasons, cfg);
    d := if Severity(floor) > Severity(base) then Decision(floor, costs, reasons) else Decision(base, costs, []);
  }

  // ------------------------------------------------------------ theorems

  lemma DotFour(p: seq<real>, f: seq<real>)
    requires |p| == |f| == 4
    ensures Dot(p, f) == p[0] * f[0] + p[1] * f[1] + p[2] * f[2] + p[3] * f[3]
  {
    assert Dot(p, f, 3) == p[3] * f[3];
    assert Dot(p, f, 2) == p[2] * f[2] + Dot(p, f, 3);
  }

  /** The four expected costs, written out for each shipped matrix. */
  ghost predicate CostsAre(prob: Prob, c: seq<real>, m: Matrix) {
    var n, l, d, h := At(prob, Normal), At(prob, Low), At(prob, Medium), At(prob, High);
    && |c| == 4
    && (m == COST_MATRIX ==>
      && c[0] == l + 6.0 * d + 20.0 * h
      && c[1] == 0.5 * n + 3.0 * d + 12.0 * h
      && c[2] == n + 0.5 * l + 4.0 * h
      && c[3] == 3.0 * n + 2.0 * l + d)
    && (m == RECALL_FIRST_COST_MATRIX ==>
      && c[0] == 2.0 * l + 15.0 * d + 60.0 * h
      && c[1] == 0.5 * n + 8.0 * d + 35.0 * h
      && c[2] == n + 0.5 * l + 8.0 * h
      && c[3] == 3.0 * n + 2.0 * l + d)
  }

  lemma CostRow(prob: Prob, m: Matrix, a: nat)
    requires a < 4
    ensures ExpectedCosts(prob, m)[a] == At(prob, Normal) * m[a][0] + At(prob, Low) * m[a][1]
                                         + At(prob, Medium) * m[a][2] + At(prob, High) * m[a][3]
  {
    DotFour(Vector(prob), m[a]);
  }

  lemma CostsByHand(prob: Prob, m: Matrix)
    ensures CostsAre(prob, ExpectedCosts(prob, m), m)
  {
    CostRow(prob, m, 0);
    CostRow(prob, m, 1);
    CostRow(prob, m, 2);
    CostRow(prob, m, 3);
  }

  /** The recommended action sits at the first minimum of the four costs. */
  lemma BestOfFour(prob: Prob, m: Matrix) returns (c: seq<real>, best: nat)
    ensures CostsAre(prob, c, m)
    ensures c == ExpectedCosts(prob, m)
    ensures best == Severity(RecommendedAction(prob, m)) < 4
    ensures c[best] <= c[0] && c[best] <= c[1] && c[best] <= c[2] && c[best] <= c[3]
    ensures forall j | 0 <= j < best :: c[best] < c[j]
  {
    CostsByHand(prob, m);
    c := ExpectedCosts(prob, m);
    best := FirstOf(c, 4);
  }

  lemma ShippedIncreasing(m: Matrix)
    requires Shipped(m)
    ensures IncreasingDifferences(m, 4)
  {
  }

  /** Knowing the class for certain, the action of the same rank is the cheapest. */
  lemma PureClassMatchesRank(c: Class, m: Matrix)
    requires Shipped(m)
    ensures Severity(ActionForPureClass(c, m)) == ClassOrder(c)
  {
    var prob := OneHot(c);
    var costs, best := BestOfFour(prob, m);
    assert At(prob, Normal) == Indicator(c == Normal) && At(prob, Low) == Indicator(c == Low);
    assert At(prob, Medium) == Indicator(c == Medium) && At(prob, High) == Indicator(c == High);
  }

  /** The expected-cost choice moves up with severity, for every matrix with increasing differences. */
  lemma RecommendedMonotone(p: Prob, q: Prob, m: Matrix)
    requires IncreasingDifferences(m, 4)
    requires Dominates(Vector(q), Vector(p))
    ensures Severity(RecommendedAction(p, m)) <= Severity(RecommendedAction(q, m))
  {
    ArgminMonotone(m, Vector(p), Vector(q));
  }

  /** On the simplex the three probability guardrails never ask for more than the argmin already gives. */
  lemma ProbabilityGuardrailsRedundant(prob: Prob, score: real, identity: Option<Identity>, m: Matrix, r: Reason)
    requires Simplex(prob) && Shipped(m)
    requires r in {PHighAlert, PHighTriage, LowConfidence}
    requires Fires(r, SignalsOf(prob, score, identity), GUARDRAILS)
    ensures Severity(FloorOf(r, GUARDRAILS)) <= Severity(RecommendedAction(prob, m))
  {
    var c, best := BestOfFour(prob, m);
  }

  /** The two guardrails that can matter. */
  predicate MustTriage(score: real, identity: Option<Identity>) {
    score >= 0.9 || IsUnknownWorkload(identity)
  }

  lemma FloorAboveBase(s: Signals, base: Action)
    requires forall r | r in {PHighAlert, PHighTriage, LowConfidence} && Fires(r, s, GUARDRAILS) ::
               Severity(FloorOf(r, GUARDRAILS)) <= Severity(base)
    ensures Stronger(base, Floor(Fired(s, GUARDRAILS), GUARDRAILS))
         == Stronger(base, if s.score >= 0.9 || s.unknown then Triage else Suppress)
  {
    var reasons, must := Fired(s, GUARDRAILS), s.score >= 0.9 || s.unknown;
    forall i | 0 <= i < |reasons|
      ensures Severity(FloorOf(reasons[i], GUARDRAILS)) <= Severity(base)
           || (must && FloorOf(reasons[i], GUARDRAILS) == Triage)
    {
      assert reasons[i] in reasons;
    }
    if must {
      assert (if s.score >= 0.9 then HighScore else UnknownWorkload) in reasons;
    }
    FloorBetween(reasons, Floor(reasons, GUARDRAILS), base, must);
  }

  lemma FloorBetween(reasons: seq<Reason>, floor: Action, base: Action, must: bool)
    requires IsFloor(floor, reasons, GUARDRAILS)
    requires forall i | 0 <= i < |reasons| :: Severity(FloorOf(reasons[i], GUARDRAILS)) <= Severity(base)
                                           || (must && FloorOf(reasons[i], GUARDRAILS) == Triage)
    requires must ==> exists i | 0 <= i < |reasons| :: FloorOf(reasons[i], GUARDRAILS) == Triage
    ensures Stronger(base, floor) == Stronger(base, if must then Triage else Suppress)
  {
  }

  /** The whole production decision in one line, and exactly when it carries reasons. */
  lemma DecisionExact(prob: Prob, score: real, identity: Option<Identity>, m: Matrix)
    requires Simplex(prob) && Shipped(m)
    ensures var d := DecideAction(prob, score, identity, m);
            var base := RecommendedAction(prob, m);
            && d.action == Stronger(base, if MustTriage(score, identity) then Triage else Suppress)
            && (d.reasons != [] <==> d.action != base)
  {
    var base := RecommendedAction(prob, m);
    forall r | r in {PHighAlert, PHighTriage, LowConfidence} && Fires(r, SignalsOf(prob, score, identity), GUARDRAILS)
      ensures Severity(FloorOf(r, GUARDRAILS)) <= Severity(base)
    {
      ProbabilityGuardrailsRedundant(prob, score, identity, m, r);
    }
    FloorAboveBase(SignalsOf(prob, score, identity), base);
  }

  /** More severe evidence, a higher score or a lost identity never weakens the action. */
  lemma DecisionMonotone(p: Prob, q: Prob, score: real, score': real,
                         identity: Option<Identity>, identity': Option<Identity>, m: Matrix)
    requires Simplex(p) && Simplex(q) && Shipped(m)
    requires Dominates(Vector(q), Vector(p))
    requires score <= score'
    requires IsUnknownWorkload(identity) ==> IsUnknownWorkload(identity')
    ensures Severity(DecideAction(p, score, identity, m).action)
         <= Severity(DecideAction(q, score', identity', m).action)
  {
    ShippedIncreasing(m);
    RecommendedMonotone(p, q, m);
    DecisionExact(p, score, identity, m);
    DecisionExact(q, score', identity', m);
  }

  /** A guardrail may only raise the action, whatever the configuration and the matrix. */
  lemma GuardrailsOnlyRaise(prob: Prob, score: real, identity: Option<Identity>, m: Matrix, cfg: GuardrailConfig)
    ensures var d := DecideAction(prob, score, identity, m, cfg);
            && Severity(RecommendedAction(prob, m)) <= Severity(d.action)
            && (forall r | Fires(r, SignalsOf(prob, score, identity), cfg) ::
                  Severity(FloorOf(r, cfg)) <= Severity(d.action))
            && (d.reasons != [] <==> d.action != RecommendedAction(prob, m))
  {
    var reasons := Fired(SignalsOf(prob, score, identity), cfg);
    forall r | Fires(r, SignalsOf(prob, score, identity), cfg)
      ensures Severity(FloorOf(r, cfg)) <= Severity(DecideAction(prob, score, identity, m, cfg).action)
    {
      assert r in reasons;
    }
  }

  /** A decision lists every guardrail that fired or none, and returns the costs that the argmin minimises. */
  lemma DecisionCarries(prob: Prob, score: real, identity: Option<Identity>, m: Matrix, cfg: GuardrailConfig)
    ensures var d := DecideAction(prob, score, identity, m, cfg);
            && (d.reasons != [] ==> forall r :: r in d.reasons <==> Fires(r, SignalsOf(prob, score, identity), cfg))
            && CheapestAt(d.costs, Severity(RecommendedAction(prob, m)))
  {
    CheapestFirst(ExpectedCosts(prob, m));
  }

  ghost predicate CheapestAt(costs: seq<real>, best: nat) {
    best < |costs| && forall a | 0 <= a < |costs| :: costs[best] <= costs[a]
  }

  lemma CheapestFirst(costs: seq<real>)
    requires |costs| == 4
    ensures CheapestAt(costs, Severity(ACTIONS[FirstOf(costs, 4)]))
  {
    var best := FirstOf(costs, 4);
    assert Severity(ACTIONS[best]) == best;
  }

  /** The stated invariant "a tripped guardrail is never suppressed" and the one configuration that escapes it. */
  lemma TrippedNeverSuppressed(prob: Prob, score: real, identity: Option<Identity>, m: Matrix, cfg: GuardrailConfig)
    requires Fired(SignalsOf(prob, score, identity), cfg) != []
    ensures DecideAction(prob, score, identity, m, cfg).action == Suppress
       <==> && RecommendedAction(prob, m) == Suppress
            && cfg.unknownWorkloadFloor == Suppress
            && Fired(SignalsOf(prob, score, identity), cfg) == [UnknownWorkload]
  {
    var reasons := Fired(SignalsOf(prob, score, identity), cfg);
    OnlyUnknownFloorsAtSuppress(reasons, cfg, Floor(reasons, cfg));
  }

  /** Such a configuration: an unknown workload, floored at suppress. */
  lemma TrippedAndSuppressed()
    ensures var prob: Prob, cfg := map[Normal := 1.0], GUARDRAILS.(unknownWorkloadFloor := Suppress);
            && Simplex(prob)
            && Fired(SignalsOf(prob, 0.0, None), cfg) == [UnknownWorkload]
            && DecideAction(prob, 0.0, None, RECALL_FIRST_COST_MATRIX, cfg).action == Suppress
  {
    var prob: Prob, cfg := map[Normal := 1.0], GUARDRAILS.(unknownWorkloadFloor := Suppress);
    var c, best := BestOfFour(prob, RECALL_FIRST_COST_MATRIX);
    assert RecommendedAction(prob, RECALL_FIRST_COST_MATRIX) == Suppress;
    assert SignalsOf(prob, 0.0, None) == Signals(0.0, 0.0, 1.0, true);
    OnlyUnknownFires(Signals(0.0, 0.0, 1.0, true), cfg);
    TrippedNeverSuppressed(prob, 0.0, None, RECALL_FIRST_COST_MATRIX, cfg);
  }

  lemma OnlyUnknownFires(s: Signals, cfg: GuardrailConfig)
    requires s == Signals(0.0, 0.0, 1.0, true) && cfg == GUARDRAILS.(unknownWorkloadFloor := Suppress)
    ensures Fired(s, cfg) == [UnknownWorkload]
  {
  }

  lemma OnlyUnknownFloorsAtSuppress(reasons: seq<Reason>, cfg: GuardrailConfig, floor: Action)
    requires reasons != [] && InOrder(reasons) && IsFloor(floor, reasons, cfg)
    ensures floor == Suppress <==> reasons == [UnknownWorkload] && cfg.unknownWorkloadFloor == Suppress
  {
    assert Severity(FloorOf(reasons[0], cfg)) <= Severity(floor);
    if |reasons| > 1 {
      assert Rank(reasons[0]) < Rank(reasons[1]);
    }
  }

  function MissBound(m: Matrix): real {
    if m == RECALL_FIRST_COST_MATRIX then 1.0 / 53.0 else 1.0 / 17.0
  }

  /** A case that is suppressed or deferred carries little chance of being a real incident. */
  lemma MissedIncidentBound(prob: Prob, score: real, identity: Option<Identity>, m: Matrix)
    requires Simplex(prob) && Shipped(m)
    requires DecideAction(prob, score, identity, m).action in {Suppress, Wait}
    ensures At(prob, High) <= MissBound(m)
  {
    GuardrailsOnlyRaise(prob, score, identity, m, GUARDRAILS);
    var c, best := BestOfFour(prob, m);
  }

  /** The bound is met: at the tie between suppress and its rivals, suppress wins. */
  lemma MissedIncidentBoundTight(m: Matrix, identity: Option<Identity>)
    requires Shipped(m) && !IsUnknownWorkload(identity)
    ensures var prob: Prob := map[Normal := 1.0 - MissBound(m), High := MissBound(m)];
            && Simplex(prob)
            && At(prob, High) == MissBound(m)
            && DecideAction(prob, 0.0, identity, m).action == Suppress
  {
    var prob: Prob := map[Normal := 1.0 - MissBound(m), High := MissBound(m)];
    var c, best := BestOfFour(prob, m);
    DecisionExact(prob, 0.0, identity, m);
  }
}
