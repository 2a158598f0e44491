/**
 The counting side of the detector service: the noise filter of
 detector/noise_filter.py, the policy filter of policy/policy_filter.py and the
 metric counters of detector/api.py, over any run of requests and reloads.
 */
module Detector {
  import opened Wrappers
  import opened CostMatrix
  import PolicyReward

  /** The metadata and features of one scored row. */
  datatype Input = Input(container: string, feats: map<string, real>)

  /** A result dict as the two annotate passes fill it in. */
  datatype Scored = Scored(
    isAnomaly: bool, score: real,
    suppressed: bool, suppressProba: real, effective: bool,
    policyAction: Option<Action>, policyPFault: real)

  // -------------------------------------------------------------- filters

  /** `predict` is the loaded model; None stands for an exception inside it. */
  datatype NoiseFilter = NoiseFilter(enabled: bool, threshold: real, predict: (Input, real) -> Option<real>) {
    function SuppressProba(x: Input, score: real): real {
      if !enabled then 0.0 else predict(x, score).GetOr(0.0)
    }

    function Mark(x: Input, r: Scored): Scored {
      if r.isAnomaly && enabled then
        var p := SuppressProba(x, r.score);
        r.(suppressed := p >= threshold, suppressProba := p)
      else r.(suppressed := false, suppressProba := 0.0)
    }
  }

  datatype PolicyFilter = PolicyFilter(enabled: bool, predict: (Input, real, real) -> Option<real>) {
    function PFault(x: Input, score: real, suppressProba: real): real {
      if !enabled then 0.0 else predict(x, score, suppressProba).GetOr(-1.0)
    }

    function Decide(x: Input, score: real, suppressProba: real): (Action, real) {
      var p := PFault(x, score, suppressProba);
      if p < 0.0 then (Alert, 1.0) else (PolicyReward.BestAction(p), p)
    }

    function Mark(x: Input, r: Scored): Scored {
      if !r.isAnomaly then r.(policyAction := None, policyPFault := 0.0)
      else if r.suppressed then r.(policyAction := Some(Suppress), policyPFault := 0.0)
      else if enabled then
        var (a, p) := Decide(x, r.score, r.suppressProba);
        r.(policyAction := Some(a), policyPFault := p)
      else r.(policyAction := None, policyPFault := 0.0)
    }
  }

  /** "On any error, never suppress" holds exactly for a positive threshold. */
  lemma NoiseFailsOpen(nf: NoiseFilter, x: Input, r: Scored)
    requires nf.predict(x, r.score).None?
    ensures nf.Mark(x, r).suppressed <==> nf.enabled && r.isAnomaly && nf.threshold <= 0.0
  {
  }

  /** An anomalous row that is suppressed although the model failed on it. */
  lemma ErrorSuppresses(x: Input, r: Scored)
    requires r.isAnomaly
    ensures var nf := NoiseFilter(true, 0.0, (_, _) => None);
            nf.predict(x, r.score).None? && nf.Mark(x, r).suppressed
  {
  }

  /** The policy never re-suppresses: a survivor is escalated when the policy is on, and untouched when off. */
  lemma PolicyNeverSuppresses(pf: PolicyFilter, x: Input, r: Scored)
    ensures pf.Mark(x, r).policyAction == Some(Suppress) <==> r.isAnomaly && r.suppressed
    ensures pf.Mark(x, r).policyAction in {Some(Wait), Some(Triage), Some(Alert)}
       <==> r.isAnomaly && !r.suppressed && pf.enabled
    ensures r.isAnomaly && !r.suppressed && pf.enabled && pf.predict(x, r.score, r.suppressProba).None?
       ==> pf.Mark(x, r).policyAction == Some(Alert)
  {
    PolicyReward.EscalationBands(pf.PFault(x, r.score, r.suppressProba));
  }

  /** The noise marks of one row: the model's probability and whether it reaches the threshold; a model that fails
      counts as probability 0, and a row nobody flagged is never suppressed. */
  predicate NoiseMarked(nf: NoiseFilter, x: Input, r: Scored, out: Scored) {
    && out.isAnomaly == r.isAnomaly && out.score == r.score
    && (!r.isAnomaly || !nf.enabled ==> !out.suppressed && out.suppressProba == 0.0)
    && (r.isAnomaly && nf.enabled ==>
          match nf.predict(x, r.score)
          case Some(p) => out.suppressProba == p && (out.suppressed <==> p >= nf.threshold)
          case None => out.suppressProba == 0.0 && (out.suppressed <==> nf.threshold <= 0.0))
  }

  /** The policy marks of one row: a survivor gets the probability of the model, and waits up to 1/4, is triaged up to
      5/11 and alerts above; a model that fails alerts. */
  predicate PolicyMarked(pf: PolicyFilter, x: Input, out: Scored) {
    && (!out.isAnomaly || (!out.suppressed && !pf.enabled) ==> out.policyAction == None && out.policyPFault == 0.0)
    && (out.isAnomaly && out.suppressed ==> out.policyAction == Some(Suppress) && out.policyPFault == 0.0)
    && (out.isAnomaly && !out.suppressed && pf.enabled ==>
          match pf.predict(x, out.score, out.suppressProba)
          case None => out.policyAction == Some(Alert) && out.policyPFault == 1.0
          case Some(p) =>
            if p < 0.0 then out.policyAction == Some(Alert) && out.policyPFault == 1.0
            else
              && out.policyPFault == p
              && (p <= 1.0 / 4.0 ==> out.policyAction == Some(Wait))
              && (1.0 / 4.0 < p <= 5.0 / 11.0 ==> out.policyAction == Some(Triage))
              && (p > 5.0 / 11.0 ==> out.policyAction == Some(Alert)))
  }

  lemma MarksAreRight(nf: NoiseFilter, pf: PolicyFilter, x: Input, r: Scored)
    ensures NoiseMarked(nf, x, r, nf.Mark(x, r))
    ensures PolicyMarked(pf, x, pf.Mark(x, r))
    ensures var out := pf.Mark(x, r);
            && out.isAnomaly == r.isAnomaly && out.score == r.score && out.effective == r.effective
            && out.suppressed == r.suppressed && out.suppressProba == r.suppressProba
  {
    PolicyReward.EscalationBands(pf.PFault(x, r.score, r.suppressProba));
  }

  /** Of two survivors the likelier fault never gets the milder action. */
  lemma PolicyMonotone(pf: PolicyFilter, x: Input, a: Scored, y: Input, b: Scored, p: real, q: real)
    requires pf.enabled && PolicyMarked(pf, x, a) && PolicyMarked(pf, y, b)
    requires a.isAnomaly && !a.suppressed && b.isAnomaly && !b.suppressed
    requires pf.predict(x, a.score, a.suppressProba) == Some(p) && pf.predict(y, b.score, b.suppressProba) == Some(q)
    requires 0.0 <= p <= q
    ensures a.policyAction.Some? && b.policyAction.Some?
    ensures Severity(a.policyAction.value) <= Severity(b.policyAction.value)
  {
  }

  /** Both passes and the flag between them. */
  predicate RowMarked(nf: NoiseFilter, pf: PolicyFilter, x: Input, r: Scored, out: Scored) {
    NoiseMarked(nf, x, r, out) && PolicyMarked(pf, x, out) && (out.effective <==> r.isAnomaly && !out.suppressed)
  }

  /** One count per action. */
  datatype Tally = Tally(suppress: nat, wait: nat, triage: nat, alert: nat) {
    function Plus(o: Tally): Tally {
      Tally(suppress + o.suppress, wait + o.wait, triage + o.triage, alert + o.alert)
    }

    function Bump(a: Action): Tally {
      match a
      case Suppress => this.(suppress := suppress + 1)
      case Wait => this.(wait := wait + 1)
      case Triage => this.(triage := triage + 1)
      case Alert => this.(alert := alert + 1)
    }

    function Escalations(): nat {
      wait + triage + alert
    }
  }

  const ZERO := Tally(0, 0, 0, 0)

  function NoiseAll(nf: NoiseFilter, xs: seq<Input>, rs: seq<Scored>): (out: seq<Scored>)
    requires |xs| == |rs|
    ensures |out| == |rs|
  {
    seq(|rs|, i requires 0 <= i < |rs| => nf.Mark(xs[i], rs[i]))
  }

  /** The flag the noise marks imply. */
  function EffectiveAll(rs: seq<Scored>): (out: seq<Scored>)
    ensures |out| == |rs|
  {
    seq(|rs|, i requires 0 <= i < |rs| => rs[i].(effective := rs[i].isAnomaly && !rs[i].suppressed))
  }

  function PolicyAll(pf: PolicyFilter, xs: seq<Input>, rs: seq<Scored>): (out: seq<Scored>)
    requires |xs| == |rs|
    ensures |out| == |rs|
  {
    seq(|rs|, i requires 0 <= i < |rs| => pf.Mark(xs[i], rs[i]))
  }

  function Anomalies(rs: seq<Scored>): nat {
    if rs == [] then 0 else Anomalies(rs[..|rs| - 1]) + if rs[|rs| - 1].isAnomaly then 1 else 0
  }

  function SuppressedCount(rs: seq<Scored>): nat {
    if rs == [] then 0 else SuppressedCount(rs[..|rs| - 1]) + if rs[|rs| - 1].suppressed then 1 else 0
  }

  function EffectiveCount(rs: seq<Scored>): nat {
    if rs == [] then 0 else EffectiveCount(rs[..|rs| - 1]) + if rs[|rs| - 1].effective then 1 else 0
  }

  function PolicyTally(rs: seq<Scored>): Tally {
    if rs == [] then ZERO
    else
      var rest, a := PolicyTally(rs[..|rs| - 1]), rs[|rs| - 1].policyAction;
      if a.Some? then rest.Bump(a.value) else rest
  }

  method NoiseAnnotate(nf: NoiseFilter, xs: seq<Input>, results: array<Scored>) returns (nSuppressed: nat)
    requires |xs| == results.Length
    modifies results
    ensures results[..] == NoiseAll(nf, xs, old(results[..]))
    ensures forall i | 0 <= i < |xs| :: NoiseMarked(nf, xs[i], old(results[i]), results[i])
    ensures nSuppressed == SuppressedCount(results[..])
  {
    nSuppressed := 0;
    for i := 0 to results.Length
      invariant forall j | 0 <= j < i :: results[j] == nf.Mark(xs[j], old(results[j]))
      invariant forall j | i <= j < results.Length :: results[j] == old(results[j])
      invariant nSuppressed == SuppressedCount(results[..i])
    {
      var supp, proba := false, 0.0;
      if results[i].isAnomaly && nf.enabled {
        proba := nf.SuppressProba(xs[i], results[i].score);
        supp := proba >= nf.threshold;
      }
      results[i] := results[i].(suppressed := supp, suppressProba := proba);
      assert results[..i + 1][..i] == results[..i];
      if supp {
        nSuppressed := nSuppressed + 1;
      }
    }
    assert results[..results.Length] == results[..];
    NoiseAllRight(nf, xs, old(results[..]));
  }

  method FlagEffective(results: array<Scored>)
    modifies results
    ensures results[..] == EffectiveAll(old(results[..]))
  {
    for i := 0 to results.Length
      invariant forall j | 0 <= j < i :: results[j] == old(results[..])[j].(
                  effective := old(results[j]).isAnomaly && !old(results[j]).suppressed)
      invariant forall j | i <= j < results.Length :: results[j] == old(results[j])
    {
      results[i] := results[i].(effective := results[i].isAnomaly && !results[i].suppressed);
    }
  }

  method PolicyAnnotate(pf: PolicyFilter, xs: seq<Input>, results: array<Scored>) returns (counts: Tally)
    requires |xs| == results.Length
    modifies results
    ensures results[..] == PolicyAll(pf, xs, old(results[..]))
    ensures forall i | 0 <= i < |xs| :: PolicyMarked(pf, xs[i], results[i])
    ensures counts == PolicyTally(results[..])
  {
    counts := ZERO;
    for i := 0 to results.Length
      invariant forall j | 0 <= j < i :: results[j] == pf.Mark(xs[j], old(results[j]))
      invariant forall j | i <= j < results.Length :: results[j] == old(results[j])
      invariant counts == PolicyTally(results[..i])
    {
      var action: Option<Action>, p := None, 0.0;
      if results[i].isAnomaly {
        if results[i].suppressed {
          action := Some(Suppress);
        } else if pf.enabled {
          var d := pf.Decide(xs[i], results[i].score, results[i].suppressProba);
          action, p := Some(d.0), d.1;
        }
      }
      results[i] := results[i].(policyAction := action, policyPFault := p);
      assert results[..i + 1][..i] == results[..i];
      if action.Some? {
        counts := counts.Bump(action.value);
      }
    }
    assert results[..results.Length] == results[..];
    PolicyAllRight(pf, xs, old(results[..]));
  }

  lemma NoiseAllRight(nf: NoiseFilter, xs: seq<Input>, rs: seq<Scored>)
    requires |xs| == |rs|
    ensures forall i | 0 <= i < |xs| :: NoiseMarked(nf, xs[i], rs[i], NoiseAll(nf, xs, rs)[i])
  {
  }

  lemma PolicyAllRight(pf: PolicyFilter, xs: seq<Input>, rs: seq<Scored>)
    requires |xs| == |rs|
    ensures forall i | 0 <= i < |xs| :: PolicyMarked(pf, xs[i], PolicyAll(pf, xs, rs)[i])
  {
    forall i | 0 <= i < |xs| ensures PolicyMarked(pf, xs[i], PolicyAll(pf, xs, rs)[i]) {
      MarksAreRight(NoiseFilter(false, 0.0, (_, _) => None), pf, xs[i], rs[i]);
    }
  }

  // -------------------------------------------------------------- metrics

  function MaxOf(s: seq<real>, floor: real): (m: real)
    ensures floor <= m && forall x | x in s :: x <= m
    ensures m == floor || m in s
  {
    if s == [] then floor
    else
      var rest := MaxOf(s[..|s| - 1], floor);
      assert s == s[..|s| - 1] + [s[|s| - 1]];
      if rest < s[|s| - 1] then s[|s| - 1] else rest
  }

  /** The values behind /metrics. */
  datatype Totals = Totals(
    scored: nat, anomalies: nat, suppressed: nat, last: real, max: real, policy: Tally, triage: Tally)
  {
    function Effective(): int {
      anomalies - suppressed
    }

    function Observe(scores: seq<real>, nAnom: nat, nSupp: nat, counts: Tally): Totals {
      Totals(scored + |scores|, anomalies + nAnom, suppressed + nSupp,
             if scores == [] then last else scores[|scores| - 1], MaxOf(scores, max),
             policy.Plus(counts), triage)
    }
  }

  const START := Totals(0, 0, 0, 0.0, 0.0, ZERO, ZERO)

  class Metrics {
    var scored: nat
    var anomalies: nat
    var suppressed: nat
    var last: real
    var max: real
    var policy: Tally
    var triage: Tally

    constructor ()
      ensures Value() == START
    {
      scored, anomalies, suppressed, last, max, policy, triage := 0, 0, 0, 0.0, 0.0, ZERO, ZERO;
    }

    ghost function Value(): Totals
      reads this
    {
      Totals(scored, anomalies, suppressed, last, max, policy, triage)
    }

    method Observe(scores: seq<real>, nAnom: nat, nSupp: nat, counts: Tally)
      modifies this
      ensures Value() == old(Value()).Observe(scores, nAnom, nSupp, counts)
    {
      scored := scored + |scores|;
      anomalies := anomalies + nAnom;
      suppressed := suppressed + nSupp;
      policy := policy.Plus(counts);
      if scores != [] {
        last := scores[|scores| - 1];
        max := MaxOf(scores, max);
      }
    }

    method ObserveTriage(a: Action)
      modifies this
      ensures Value() == old(Value()).(triage := old(triage).Bump(a))
    {
      triage := triage.Bump(a);
    }
  }

  // ------------------------------------------------------------- requests

  function Scores(rs: seq<Scored>): (s: seq<real>)
    ensures |s| == |rs|
  {
    seq(|rs|, i requires 0 <= i < |rs| => rs[i].score)
  }

  /** The actions the triage model gives to the effective anomalies, in order. */
  function TriageActions(decide: (Input, real) -> Action, xs: seq<Input>, rs: seq<Scored>): seq<Action>
    requires |xs| == |rs|
  {
    if rs == [] then []
    else
      var n := |rs| - 1;
      var rest := TriageActions(decide, xs[..n], rs[..n]);
      if rs[n].effective then rest + [decide(xs[n], rs[n].score)] else rest
  }

  /** That is one decision per effective anomaly; in a batch of nothing else, row by row. */
  lemma {:induction false} TriagesSurvivors(decide: (Input, real) -> Action, xs: seq<Input>, rs: seq<Scored>)
    requires |xs| == |rs|
    ensures var acts := TriageActions(decide, xs, rs);
            && |acts| == EffectiveCount(rs)
            && ((forall i | 0 <= i < |rs| :: rs[i].effective) ==>
                  |acts| == |rs| && forall i | 0 <= i < |rs| :: acts[i] == decide(xs[i], rs[i].score))
  {
    if rs != [] {
      TriagesSurvivors(decide, xs[..|rs| - 1], rs[..|rs| - 1]);
    }
  }

  /** One locked update of the counters: a scored request, with the filters loaded at that moment, or one triage
      decision. */
  datatype Event =
    | Scoring(noise: NoiseFilter, policy: PolicyFilter, xs: seq<Input>, rs: seq<Scored>)
    | Triaged(action: Action)

  predicate WellFormed(e: Event) {
    e.Scoring? ==> |e.xs| == |e.rs|
  }

  function Marked(e: Event): (rs: seq<Scored>)
    requires e.Scoring? && WellFormed(e)
  {
    PolicyAll(e.policy, e.xs, EffectiveAll(NoiseAll(e.noise, e.xs, e.rs)))
  }

  function Apply(t: Totals, e: Event): Totals
    requires WellFormed(e)
  {
    match e
    case Scoring(_, _, _, rs) =>
      var out := Marked(e);
      t.Observe(Scores(rs), Anomalies(rs), SuppressedCount(out), PolicyTally(out))
    case Triaged(a) => t.(triage := t.triage.Bump(a))
  }

  /** The counters after a run. Reloads need no event of their own: every scoring names the filters it met. */
  function Run(t: Totals, es: seq<Event>): Totals
    requires forall i | 0 <= i < |es| :: WellFormed(es[i])
  {
    if es == [] then t else Apply(Run(t, es[..|es| - 1]), es[|es| - 1])
  }

  function Decisions(acts: seq<Action>): (es: seq<Event>)
    ensures |es| == |acts| && forall i | 0 <= i < |es| :: WellFormed(es[i]) && es[i] == Triaged(acts[i])
  {
    seq(|acts|, i requires 0 <= i < |acts| => Triaged(acts[i]))
  }

  class Service {
    const metrics: Metrics
    var noise: NoiseFilter
    var policy: PolicyFilter

    constructor (noise: NoiseFilter, policy: PolicyFilter)
      ensures fresh(metrics) && metrics.Value() == START
      ensures this.noise == noise && this.policy == policy
    {
      metrics := new Metrics();
      this.noise, this.policy := noise, policy;
    }

    /** `/reload` swaps the filters and leaves every counter alone. */
    method Reload(noise: NoiseFilter, policy: PolicyFilter)
      modifies this
      ensures this.noise == noise && this.policy == policy
    {
      this.noise, this.policy := noise, policy;
    }

    /** `/detect` on one already scored row. */
    method Detect(x: Input, r: Scored) returns (out: Scored)
      modifies metrics
      ensures [out] == Marked(Scoring(noise, policy, [x], [r]))
      ensures RowMarked(noise, policy, x, r, out)
      ensures metrics.Value() == Run(old(metrics.Value()), [Scoring(noise, policy, [x], [r])])
    {
      ghost var t0, e := metrics.Value(), Scoring(noise, policy, [x], [r]);
      var results := new Scored[1][r];
      assert results[..] == e.rs;
      var counts, nSupp := AnnotateAll([x], results, e);
      out := results[0];
      assert results[..] == [out];
      MarkedRight(e, 0);
      metrics.Observe([r.score], if r.isAnomaly then 1 else 0, nSupp, counts);
      assert Anomalies(e.rs) == if r.isAnomaly then 1 else 0 by { assert e.rs[..0] == []; }
      assert Scores(e.rs) == [r.score];
      assert Run(t0, [e]) == Apply(t0, e) by { assert [e][..0] == []; }
    }

    /** The noise, effective and policy passes both endpoints share. */
    method AnnotateAll(xs: seq<Input>, results: array<Scored>, ghost e: Event) returns (counts: Tally, nSupp: nat)
      requires |xs| == results.Length && e == Scoring(noise, policy, xs, results[..])
      modifies results
      ensures results[..] == Marked(e)
      ensures nSupp == SuppressedCount(results[..]) && counts == PolicyTally(results[..])
    {
      nSupp := NoiseAnnotate(noise, xs, results);
      FlagEffective(results);
      EffectiveKeeps(NoiseAll(noise, xs, e.rs));
      counts := PolicyAnnotate(policy, xs, results);
      SuppressedKept(policy, xs, EffectiveAll(NoiseAll(noise, xs, e.rs)));
    }

    /** `/detect/batch` on already scored rows; an empty batch returns before touching anything. */
    method DetectBatch(xs: seq<Input>, results: array<Scored>, triage: Option<(Input, real) -> Action>)
      returns (nAnom: nat, nEff: int, nSupp: nat)
      requires |xs| == results.Length
      modifies results, metrics
      ensures results.Length > 0 ==> results[..] == Marked(Scoring(noise, policy, xs, old(results[..])))
      ensures forall i | 0 <= i < |xs| :: RowMarked(noise, policy, xs[i], old(results[i]), results[i])
      ensures nAnom == Anomalies(old(results[..]))
      ensures results.Length > 0 ==> nSupp == SuppressedCount(results[..]) && nEff == EffectiveCount(results[..])
      ensures results.Length == 0 ==> nSupp == nEff == 0 && metrics.Value() == old(metrics.Value())
      ensures results.Length > 0 ==>
                metrics.Value() == Run(old(metrics.Value()),
                  [Scoring(noise, policy, xs, old(results[..]))]
                  + Decisions(if triage.Some? then TriageActions(triage.value, xs, results[..]) else []))
    {
      if results.Length == 0 {
        return 0, 0, 0;
      }
      ghost var e := Scoring(noise, policy, xs, results[..]);
      ghost var t0 := metrics.Value();
      var scores := Scores(results[..]);
      nAnom := 0;
      for i := 0 to results.Length
        invariant nAnom == Anomalies(results[..i])
        invariant results[..] == e.rs && metrics.Value() == t0
      {
        assert results[..i + 1][..i] == results[..i];
        nAnom := nAnom + if results[i].isAnomaly then 1 else 0;
      }
      assert results[..results.Length] == results[..];
      var counts;
      counts, nSupp := AnnotateAll(xs, results, e);
      metrics.Observe(scores, nAnom, nSupp, counts);
      nEff := nAnom - nSupp;
      AllMarkedRight(e);
      BatchCounts(e);
      assert metrics.Value() == Run(t0, [e]) by { assert [e][..0] == []; }
      if triage.Some? {
        TriagePass(xs, results, triage.value, t0, e);
      } else {
        assert [e] + Decisions([]) == [e];
      }
    }

    /** The optional triage pass over the effective anomalies. */
    method TriagePass(xs: seq<Input>, results: array<Scored>, decide: (Input, real) -> Action,
                      ghost t0: Totals, ghost e: Event)
      requires |xs| == results.Length && WellFormed(e)
      requires metrics.Value() == Run(t0, [e])
      modifies metrics
      ensures metrics.Value() == Run(t0, [e] + Decisions(TriageActions(decide, xs, results[..])))
    {
      ghost var acts: seq<Action> := [];
      assert [e] + Decisions([]) == [e];
      for i := 0 to results.Length
        invariant acts == TriageActions(decide, xs[..i], results[..i])
        invariant metrics.Value() == Run(t0, [e] + Decisions(acts))
      {
        assert results[..i + 1][..i] == results[..i] && xs[..i + 1][..i] == xs[..i];
        if results[i].effective {
          var act := decide(xs[i], results[i].score);
          metrics.ObserveTriage(act);
          ghost var es := [e] + Decisions(acts);
          acts := acts + [act];
          assert [e] + Decisions(acts) == es + [Triaged(act)];
          assert (es + [Triaged(act)])[..|es|] == es;
        }
      }
      assert results[..results.Length] == results[..] && xs[..results.Length] == xs;
    }
  }

  lemma MarkedRight(e: Event, i: nat)
    requires e.Scoring? && WellFormed(e) && i < |e.rs|
    ensures RowMarked(e.noise, e.policy, e.xs[i], e.rs[i], Marked(e)[i])
  {
    var flagged := EffectiveAll(NoiseAll(e.noise, e.xs, e.rs))[i];
    MarksAreRight(e.noise, e.policy, e.xs[i], e.rs[i]);
    MarksAreRight(e.noise, e.policy, e.xs[i], flagged);
  }

  lemma AllMarkedRight(e: Event)
    requires e.Scoring? && WellFormed(e)
    ensures forall i | 0 <= i < |e.rs| :: RowMarked(e.noise, e.policy, e.xs[i], e.rs[i], Marked(e)[i])
  {
    forall i | 0 <= i < |e.rs| ensures RowMarked(e.noise, e.policy, e.xs[i], e.rs[i], Marked(e)[i]) {
      MarkedRight(e, i);
    }
  }

  lemma {:induction false} SuppressedKept(pf: PolicyFilter, xs: seq<Input>, rs: seq<Scored>)
    requires |xs| == |rs|
    ensures SuppressedCount(PolicyAll(pf, xs, rs)) == SuppressedCount(rs)
  {
    if rs != [] {
      var n := |rs| - 1;
      SuppressedKept(pf, xs[..n], rs[..n]);
      assert PolicyAll(pf, xs, rs)[..n] == PolicyAll(pf, xs[..n], rs[..n]);
    }
  }

  lemma {:induction false} EffectiveKeeps(rs: seq<Scored>)
    ensures SuppressedCount(EffectiveAll(rs)) == SuppressedCount(rs)
  {
    if rs != [] {
      var n := |rs| - 1;
      EffectiveKeeps(rs[..n]);
      assert EffectiveAll(rs)[..n] == EffectiveAll(rs[..n]);
    }
  }

  // ------------------------------------------------------------- theorems

  /** What every state of the counters satisfies. */
  ghost predicate Consistent(t: Totals) {
    && t.suppressed <= t.anomalies <= t.scored
    && t.policy.suppress == t.suppressed
    && t.policy.Escalations() <= t.Effective()
    && t.last <= t.max
  }

  ghost predicate AllWellFormed(es: seq<Event>) {
    forall i | 0 <= i < |es| :: WellFormed(es[i])
  }

  /** How a row's marks relate to the raw row. */
  ghost predicate RowMarks(r: Scored, out: Scored, policyEnabled: bool) {
    && (out.suppressed ==> r.isAnomaly)
    && (out.effective <==> r.isAnomaly && !out.suppressed)
    && (out.policyAction == Some(Suppress) <==> out.suppressed)
    && (out.policyAction.Some? && out.policyAction != Some(Suppress) <==>
          r.isAnomaly && !out.suppressed && policyEnabled)
  }

  lemma MarksRow(nf: NoiseFilter, pf: PolicyFilter, x: Input, r: Scored, noisy: Scored)
    requires noisy == nf.Mark(x, r).(effective := nf.Mark(x, r).isAnomaly && !nf.Mark(x, r).suppressed)
    ensures RowMarks(r, pf.Mark(x, noisy), pf.enabled)
  {
    PolicyNeverSuppresses(pf, x, noisy);
  }

  /** One more row moves the tally by exactly what its marks say. */
  lemma CountStep(t: Tally, r: Scored, out: Scored, policyEnabled: bool)
    requires RowMarks(r, out, policyEnabled)
    ensures var t' := if out.policyAction.Some? then t.Bump(out.policyAction.value) else t;
            && t'.suppress == t.suppress + (if out.suppressed then 1 else 0)
            && t'.Escalations() == t.Escalations() + (if r.isAnomaly && !out.suppressed && policyEnabled then 1 else 0)
  {
  }

  /** The counts of a raw batch of `n` rows and of its marked form fit together. */
  ghost predicate Fit(n: nat, nAnom: nat, nSupp: nat, nEff: nat, t: Tally, policyEnabled: bool) {
    && nSupp <= nAnom <= n
    && nEff == nAnom - nSupp
    && t.suppress == nSupp
    && t.Escalations() == if policyEnabled then nAnom - nSupp else 0
  }

  ghost predicate CountsFit(rs: seq<Scored>, out: seq<Scored>, policyEnabled: bool) {
    Fit(|rs|, Anomalies(rs), SuppressedCount(out), EffectiveCount(out), PolicyTally(out), policyEnabled)
  }

  lemma FitStep(n: nat, nAnom: nat, nSupp: nat, nEff: nat, t: Tally, r: Scored, o: Scored, policyEnabled: bool)
    requires Fit(n, nAnom, nSupp, nEff, t, policyEnabled) && RowMarks(r, o, policyEnabled)
    ensures Fit(n + 1, nAnom + (if r.isAnomaly then 1 else 0), nSupp + (if o.suppressed then 1 else 0),
                nEff + (if o.effective then 1 else 0),
                if o.policyAction.Some? then t.Bump(o.policyAction.value) else t, policyEnabled)
  {
    CountStep(t, r, o, policyEnabled);
  }

  lemma CountsFitStep(rs: seq<Scored>, out: seq<Scored>, r: Scored, o: Scored, policyEnabled: bool)
    requires CountsFit(rs, out, policyEnabled) && RowMarks(r, o, policyEnabled)
    ensures CountsFit(rs + [r], out + [o], policyEnabled)
  {
    AnomaliesStep(rs, r);
    MarkedStep(out, o);
    FitStep(|rs|, Anomalies(rs), SuppressedCount(out), EffectiveCount(out), PolicyTally(out), r, o, policyEnabled);
  }

  lemma AnomaliesStep(rs: seq<Scored>, r: Scored)
    ensures Anomalies(rs + [r]) == Anomalies(rs) + if r.isAnomaly then 1 else 0
  {
    assert (rs + [r])[..|rs|] == rs;
  }

  lemma MarkedStep(out: seq<Scored>, o: Scored)
    ensures SuppressedCount(out + [o]) == SuppressedCount(out) + if o.suppressed then 1 else 0
    ensures EffectiveCount(out + [o]) == EffectiveCount(out) + if o.effective then 1 else 0
    ensures PolicyTally(out + [o]) ==
            if o.policyAction.Some? then PolicyTally(out).Bump(o.policyAction.value) else PolicyTally(out)
  {
    assert (out + [o])[..|out|] == out;
  }

  lemma {:induction false} CountsOfMarks(rs: seq<Scored>, out: seq<Scored>, policyEnabled: bool, n: nat)
    requires n <= |rs| == |out| && forall i | 0 <= i < |rs| :: RowMarks(rs[i], out[i], policyEnabled)
    ensures CountsFit(rs[..n], out[..n], policyEnabled)
  {
    if n > 0 {
      CountsOfMarks(rs, out, policyEnabled, n - 1);
      CountsFitStep(rs[..n - 1], out[..n - 1], rs[n - 1], out[n - 1], policyEnabled);
      assert rs[..n] == rs[..n - 1] + [rs[n - 1]] && out[..n] == out[..n - 1] + [out[n - 1]];
    }
  }

  lemma MarksFit(e: Event, i: nat)
    requires e.Scoring? && WellFormed(e) && i < |e.rs|
    ensures RowMarks(e.rs[i], Marked(e)[i], e.policy.enabled)
  {
    MarksRow(e.noise, e.policy, e.xs[i], e.rs[i], EffectiveAll(NoiseAll(e.noise, e.xs, e.rs))[i]);
  }

  /** The counts of one marked batch. */
  lemma BatchCounts(e: Event)
    requires e.Scoring? && WellFormed(e)
    ensures CountsFit(e.rs, Marked(e), e.policy.enabled)
  {
    var out := Marked(e);
    forall i | 0 <= i < |e.rs| ensures RowMarks(e.rs[i], out[i], e.policy.enabled) {
      MarksFit(e, i);
    }
    CountsOfMarks(e.rs, out, e.policy.enabled, |e.rs|);
    assert e.rs[..|e.rs|] == e.rs && out[..|e.rs|] == out;
  }

  lemma ApplyConsistent(t: Totals, e: Event)
    requires Consistent(t) && WellFormed(e)
    ensures Consistent(Apply(t, e))
    ensures t.Effective() <= Apply(t, e).Effective()
    ensures t.max <= Apply(t, e).max && t.scored <= Apply(t, e).scored
  {
    if e.Scoring? {
      BatchCounts(e);
    }
  }

  /** Safety over every run of requests, triage decisions and reloads. */
  lemma {:induction false} RunConsistent(es: seq<Event>)
    requires AllWellFormed(es)
    ensures Consistent(Run(START, es))
  {
    if es != [] {
      RunConsistent(es[..|es| - 1]);
      ApplyConsistent(Run(START, es[..|es| - 1]), es[|es| - 1]);
    }
  }

  /** The exported effective counter, a difference of two counters, still never goes down. */
  lemma {:induction false} EffectiveMonotone(es: seq<Event>, more: seq<Event>)
    requires AllWellFormed(es) && AllWellFormed(more)
    ensures AllWellFormed(es + more)
    ensures Run(START, es).Effective() <= Run(START, es + more).Effective()
    ensures Run(START, es).max <= Run(START, es + more).max
  {
    if more == [] {
      assert es + more == es;
    } else {
      var n := |more| - 1;
      EffectiveMonotone(es, more[..n]);
      assert (es + more)[..|es + more| - 1] == es + more[..n];
      RunConsistent(es + more[..n]);
      ApplyConsistent(Run(START, es + more[..n]), more[n]);
    }
  }

  /** The batch had a surviving anomaly while the policy was off. */
  predicate Unjudged(e: Event)
    requires WellFormed(e)
  {
    e.Scoring? && !e.policy.enabled && Anomalies(e.rs) > SuppressedCount(Marked(e))
  }

  function Gap(t: Totals): int {
    t.Effective() - t.policy.Escalations()
  }

  lemma GapStep(t: Totals, e: Event)
    requires WellFormed(e)
    ensures Gap(t) <= Gap(Apply(t, e))
    ensures Gap(t) == Gap(Apply(t, e)) <==> !Unjudged(e)
  {
    if e.Scoring? {
      BatchCounts(e);
    }
  }

  lemma GapAt(es: seq<Event>, n: nat)
    requires AllWellFormed(es) && 0 < n <= |es|
    ensures Gap(Run(START, es[..n - 1])) <= Gap(Run(START, es[..n]))
    ensures Gap(Run(START, es[..n - 1])) == Gap(Run(START, es[..n])) <==> !Unjudged(es[n - 1])
  {
    assert es[..n][..n - 1] == es[..n - 1];
    GapStep(Run(START, es[..n - 1]), es[n - 1]);
  }

  ghost predicate NoneUnjudged(es: seq<Event>, n: nat)
    requires AllWellFormed(es) && n <= |es|
  {
    n == 0 || (NoneUnjudged(es, n - 1) && !Unjudged(es[n - 1]))
  }

  lemma {:induction false} NoneUnjudgedAt(es: seq<Event>, n: nat)
    requires AllWellFormed(es) && n <= |es|
    ensures NoneUnjudged(es, n) <==> forall i | 0 <= i < n :: !Unjudged(es[i])
  {
    if n > 0 {
      NoneUnjudgedAt(es, n - 1);
    }
  }

  lemma {:induction false} EscalationsUpTo(es: seq<Event>, n: nat)
    requires AllWellFormed(es) && n <= |es|
    ensures Gap(Run(START, es[..n])) >= 0
    ensures Gap(Run(START, es[..n])) == 0 <==> NoneUnjudged(es, n)
  {
    if n > 0 {
      EscalationsUpTo(es, n - 1);
      GapAt(es, n);
    }
  }

  /** Escalations account for every effective anomaly exactly when no survivor ever met a disabled policy. */
  lemma EscalationsExact(es: seq<Event>)
    requires AllWellFormed(es)
    ensures Gap(Run(START, es)) >= 0
    ensures Run(START, es).policy.Escalations() == Run(START, es).Effective()
       <==> forall i | 0 <= i < |es| :: !Unjudged(es[i])
  {
    EscalationsUpTo(es, |es|);
    NoneUnjudgedAt(es, |es|);
    assert es[..|es|] == es;
  }

  // ------------------------------------------------- counters, from the rows

  function Count(s: seq<Scored>, keep: Scored -> bool): nat {
    if s == [] then 0 else Count(s[..|s| - 1], keep) + if keep(s[|s| - 1]) then 1 else 0
  }

  lemma {:induction false} CountConcat(a: seq<Scored>, b: seq<Scored>, keep: Scored -> bool)
    ensures Count(a + b, keep) == Count(a, keep) + Count(b, keep)
  {
    if b == [] {
      assert a + b == a;
    } else {
      CountConcat(a, b[..|b| - 1], keep);
      assert (a + b)[..|a + b| - 1] == a + b[..|b| - 1];
    }
  }

  predicate IsAnomalous(r: Scored) { r.isAnomaly }
  predicate IsSuppressed(r: Scored) { r.suppressed }

  /** How many rows got the action, and how often it was decided. */
  function Got(rs: seq<Scored>, a: Action): nat {
    if rs == [] then 0 else Got(rs[..|rs| - 1], a) + if rs[|rs| - 1].policyAction == Some(a) then 1 else 0
  }

  function Decided(acts: seq<Action>, a: Action): nat {
    if acts == [] then 0 else Decided(acts[..|acts| - 1], a) + if acts[|acts| - 1] == a then 1 else 0
  }

  function MarkTally(rs: seq<Scored>): Tally {
    Tally(Got(rs, Suppress), Got(rs, Wait), Got(rs, Triage), Got(rs, Alert))
  }

  function ActTally(acts: seq<Action>): Tally {
    Tally(Decided(acts, Suppress), Decided(acts, Wait), Decided(acts, Triage), Decided(acts, Alert))
  }

  lemma {:induction false} CountsAreCounts(rs: seq<Scored>)
    ensures Anomalies(rs) == Count(rs, IsAnomalous) && SuppressedCount(rs) == Count(rs, IsSuppressed)
    ensures PolicyTally(rs) == MarkTally(rs)
  {
    if rs != [] {
      CountsAreCounts(rs[..|rs| - 1]);
    }
  }

  /** All rows ever scored, all rows as they were marked, and all triage decisions. */
  function AllRows(es: seq<Event>): seq<Scored> {
    if es == [] then []
    else match es[|es| - 1]
      case Scoring(_, _, _, rs) => AllRows(es[..|es| - 1]) + rs
      case Triaged(_) => AllRows(es[..|es| - 1])
  }

  function AllMarks(es: seq<Event>): seq<Scored>
    requires AllWellFormed(es)
  {
    if es == [] then []
    else if es[|es| - 1].Scoring? then AllMarks(es[..|es| - 1]) + Marked(es[|es| - 1])
    else AllMarks(es[..|es| - 1])
  }

  function AllDecisions(es: seq<Event>): seq<Action> {
    if es == [] then []
    else match es[|es| - 1]
      case Scoring(_, _, _, _) => AllDecisions(es[..|es| - 1])
      case Triaged(a) => AllDecisions(es[..|es| - 1]) + [a]
  }

  /** `t` counts exactly these rows, marks and decisions. */
  ghost predicate Counts(t: Totals, rows: seq<Scored>, marks: seq<Scored>, acts: seq<Action>) {
    && t.scored == |rows| && t.anomalies == Count(rows, IsAnomalous) && t.suppressed == Count(marks, IsSuppressed)
    && t.policy == MarkTally(marks) && t.triage == ActTally(acts) && ScoresOf(t.last, t.max, rows)
  }

  /** The score of the latest row, and the highest of all or 0. */
  ghost predicate ScoresOf(last: real, max: real, rows: seq<Scored>) {
    && last == (if rows == [] then 0.0 else rows[|rows| - 1].score)
    && (forall i | 0 <= i < |rows| :: rows[i].score <= max)
    && 0.0 <= max && (max == 0.0 || exists i | 0 <= i < |rows| :: rows[i].score == max)
  }

  lemma CountsScoring(t: Totals, rows: seq<Scored>, marks: seq<Scored>, acts: seq<Action>, e: Event)
    requires Counts(t, rows, marks, acts) && e.Scoring? && WellFormed(e)
    ensures Counts(Apply(t, e), rows + e.rs, marks + Marked(e), acts)
  {
    BatchCounted(t, rows, marks, acts, e.rs, Marked(e));
  }

  lemma BatchCounted(t: Totals, rows: seq<Scored>, marks: seq<Scored>, acts: seq<Action>, rs: seq<Scored>,
                     out: seq<Scored>)
    requires Counts(t, rows, marks, acts)
    ensures Counts(t.Observe(Scores(rs), Anomalies(rs), SuppressedCount(out), PolicyTally(out)), rows + rs, marks + out,
                   acts)
  {
    CountsAreCounts(rs);
    CountsAreCounts(out);
    CountConcat(rows, rs, IsAnomalous);
    CountConcat(marks, out, IsSuppressed);
    TallyConcat(marks, out);
    MaxCounts(t.last, t.max, rows, rs);
    Combined(t, acts, rs, out, rows + rs, marks + out);
  }

  lemma Combined(t: Totals, acts: seq<Action>, rs: seq<Scored>, out: seq<Scored>, rows: seq<Scored>,
                 marks: seq<Scored>)
    requires |rows| == t.scored + |rs| && Count(rows, IsAnomalous) == t.anomalies + Anomalies(rs)
    requires Count(marks, IsSuppressed) == t.suppressed + SuppressedCount(out)
    requires MarkTally(marks) == t.policy.Plus(PolicyTally(out)) && t.triage == ActTally(acts)
    requires ScoresOf(if rs == [] then t.last else rs[|rs| - 1].score, MaxOf(Scores(rs), t.max), rows)
    ensures Counts(t.Observe(Scores(rs), Anomalies(rs), SuppressedCount(out), PolicyTally(out)), rows, marks, acts)
  {
    assert Scores(rs) == [] <==> rs == [];
  }

  lemma TallyConcat(a: seq<Scored>, b: seq<Scored>)
    ensures MarkTally(a + b) == MarkTally(a).Plus(MarkTally(b))
  {
    GotConcat(a, b, Suppress);
    GotConcat(a, b, Wait);
    GotConcat(a, b, Triage);
    GotConcat(a, b, Alert);
  }

  lemma {:induction false} GotConcat(a: seq<Scored>, b: seq<Scored>, x: Action)
    ensures Got(a + b, x) == Got(a, x) + Got(b, x)
  {
    if b == [] {
      assert a + b == a;
    } else {
      GotConcat(a, b[..|b| - 1], x);
      assert (a + b)[..|a + b| - 1] == a + b[..|b| - 1];
    }
  }

  lemma MaxCounts(last: real, max: real, rows: seq<Scored>, more: seq<Scored>)
    requires ScoresOf(last, max, rows)
    ensures ScoresOf(if more == [] then last else more[|more| - 1].score, MaxOf(Scores(more), max), rows + more)
  {
    var all, m, s := rows + more, MaxOf(Scores(more), max), Scores(more);
    forall i | 0 <= i < |all| ensures all[i].score <= m {
      if i >= |rows| {
        assert s[i - |rows|] in s;
      }
    }
    if m in s {
      var j :| 0 <= j < |s| && s[j] == m;
      assert all[|rows| + j].score == m;
    } else if m != 0.0 {
      var i :| 0 <= i < |rows| && rows[i].score == max;
      assert all[i].score == m;
    }
  }

  lemma CountsDecision(t: Totals, rows: seq<Scored>, marks: seq<Scored>, acts: seq<Action>, a: Action)
    requires Counts(t, rows, marks, acts)
    ensures Counts(Apply(t, Triaged(a)), rows, marks, acts + [a])
  {
    DecidedOne(acts, a);
  }

  lemma DecidedOne(acts: seq<Action>, a: Action)
    ensures ActTally(acts + [a]) == ActTally(acts).Bump(a)
  {
    DecidedStep(acts, a, Suppress);
    DecidedStep(acts, a, Wait);
    DecidedStep(acts, a, Triage);
    DecidedStep(acts, a, Alert);
  }

  lemma DecidedStep(acts: seq<Action>, a: Action, x: Action)
    ensures Decided(acts + [a], x) == Decided(acts, x) + if a == x then 1 else 0
  {
    assert (acts + [a])[..|acts|] == acts;
  }

  /** Over every run each exported number is what its name says of the rows scored, the marks given and the decisions
      taken. */
  lemma {:induction false} CountersAreTotals(es: seq<Event>)
    requires AllWellFormed(es)
    ensures Counts(Run(START, es), AllRows(es), AllMarks(es), AllDecisions(es))
  {
    if es != [] {
      var front, e := es[..|es| - 1], es[|es| - 1];
      CountersAreTotals(front);
      if e.Scoring? {
        CountsScoring(Run(START, front), AllRows(front), AllMarks(front), AllDecisions(front), e);
      } else {
        CountsDecision(Run(START, front), AllRows(front), AllMarks(front), AllDecisions(front), e.action);
      }
    }
  }
}
