/** The rule list of src/triage/weak_labeler.py. */
module WeakLabeler {
  import opened Wrappers
  import opened CostMatrix
  import opened CaseBundle
  import LabelStore
  import Text

  const HARD_NEGATIVE_HINTS: seq<string> := [
    "jupyter", "image-pull", "imagepull", "registry", "cron", "backup", "prometheus", "grafana",
    "fluent", "promtail", "kube-proxy", "coredns", "calico", "cilium", "longhorn", "kaniko"]

  /** `FAULT_CLASS_FLOOR`, with "medium" for a fault type that is not listed. */
  function FaultFloor(faultType: string): Class {
    match faultType
    case "controlplane_pressure" => High
    case "unknown" => Low
    case "none" => Normal
    case _ => Medium
  }

  function Escalate(c: Class, to: Class): Class {
    if ClassOrder(to) > ClassOrder(c) then to else c
  }

  predicate HardNegative(id: Key) {
    var ident := Text.Lower(id.namespace + " " + id.pod + " " + id.container);
    exists i | 0 <= i < |HARD_NEGATIVE_HINTS| :: Text.Contains(ident, HARD_NEGATIVE_HINTS[i])
  }

  function SyscallBreach(rate: real, base: real): bool {
    rate > if base * 3.0 < 100.0 then 100.0 else base * 3.0
  }

  function InferFaultType(f: Features, base: Means): string {
    if LatencyBreach(f.diskLatency, base.diskLatency) then "disk_io_latency"
    else if f.tcpRetrans > 0.0 && f.anomalyScore >= 0.85 then "tcp_retrans"
    else if SyscallBreach(f.syscallRate, base.syscallRate) then "syscall_spike"
    else if f.ctxSwitchRate > 0.0 && f.anomalyScore >= 0.9 then "cpu_pressure"
    else "unknown"
  }

  /** Where a case comes from: the facts the monotonicity theorem holds fixed. */
  datatype Origin = Origin(hardNegative: bool, injected: Option<string>, base: Means)

  /** A known injection is one flagged as injected with a fault type other than "none" or "". */
  function OriginOf(b: Bundle): Origin {
    Origin(HardNegative(b.id),
           if b.injected && b.faultType != "" && b.faultType != "none" then Some(b.faultType) else None,
           b.baseline)
  }

  /** The rule that speaks, with the class it settles on. */
  datatype Rule =
    | Injection(faultType: string, c: Class)
    | Routine
    | SlowDisk(c: Class)
    | SyscallStorm(c: Class)
    | SingleSpike
    | Sustained(faultType: string)
    | ScoreBand(c: Class)
  {
    function Class(): CostMatrix.Class {
      match this
      case Injection(_, c) => c
      case Routine => Normal
      case SlowDisk(c) => c
      case SyscallStorm(c) => c
      case SingleSpike => Low
      case Sustained(_) => Medium
      case ScoreBand(c) => c
    }

    /** Three rules name their action outright, the others take the cheapest for their class. */
    function Action(): CostMatrix.Action {
      match this
      case Routine => Suppress
      case SingleSpike => Wait
      case Sustained(_) => Triage
      case _ => ActionForPureClass(Class())
    }

    function FaultType(): string {
      match this
      case Injection(ft, _) => ft
      case Routine => "none"
      case SlowDisk(_) => "disk_io_latency"
      case SyscallStorm(_) => "syscall_spike"
      case SingleSpike => "unknown"
      case Sustained(ft) => ft
      case ScoreBand(_) => "none"
    }

    function Source(): string {
      if Injection? then "fault_metadata" else "weak_rule"
    }

    function Confidence(): real {
      match this
      case Injection(_, _) => 0.9
      case Routine => 0.6
      case SlowDisk(_) => 0.7
      case SyscallStorm(_) => 0.7
      case SingleSpike => 0.55
      case Sustained(_) => 0.6
      case ScoreBand(_) => 0.5
    }
  }

  /** The first rule that applies; a stored duration of 0 reads as 1. */
  function FirstRule(o: Origin, f: Features, storedDuration: nat): Rule {
    var duration := if storedDuration == 0 then 1 else storedDuration;
    var score := f.anomalyScore;
    if o.injected.Some? then
      var floor := FaultFloor(o.injected.value);
      Injection(o.injected.value, if score >= 0.9 || duration >= 3 then Escalate(floor, High) else floor)
    else if o.hardNegative && score < 0.9 then Routine
    else if score >= 0.8 && LatencyBreach(f.diskLatency, o.base.diskLatency) then
      SlowDisk(if score >= 0.9 then High else Medium)
    else if score >= 0.8 && SyscallBreach(f.syscallRate, o.base.syscallRate) then
      SyscallStorm(if score >= 0.95 then High else Medium)
    else if score >= 0.7 && duration <= 1 then SingleSpike
    else if score >= 0.75 && duration >= 3 then Sustained(InferFaultType(f, o.base))
    else ScoreBand(if score >= 0.7 then Low else Normal)
  }

  function ClassName(c: Class): string {
    match c case Normal => "normal" case Low => "low" case Medium => "medium" case High => "high"
  }

  function ActionName(a: Action): string {
    match a case Suppress => "suppress" case Wait => "wait" case Triage => "triage" case Alert => "alert"
  }

  function AsLabel(eventId: string, r: Rule, now: string): Result<LabelStore.Label, LabelStore.LabelError> {
    LabelStore.MakeLabel(eventId, r.Source(), ClassName(r.Class()), Some(ActionName(r.Action())),
                         r.FaultType(), r.Confidence(), "", now)
  }

  function LabelForBundle(eventId: string, b: Bundle, now: string): Result<LabelStore.Label, LabelStore.LabelError> {
    AsLabel(eventId, FirstRule(OriginOf(b), b.feats, b.duration), now)
  }

  // ------------------------------------------------------------- theorems

  /** More evidence on the axes the rules look at. */
  predicate Worse(f: Features, d: nat, f': Features, d': nat) {
    && f.anomalyScore <= f'.anomalyScore && d <= d'
    && f.diskLatency <= f'.diskLatency && f.syscallRate <= f'.syscallRate
  }

  /** Across the whole first-match rule list, more evidence never lowers the class. */
  lemma ClassMonotone(o: Origin, f: Features, d: nat, f': Features, d': nat)
    requires Worse(f, d, f', d')
    ensures ClassOrder(FirstRule(o, f, d).Class()) <= ClassOrder(FirstRule(o, f', d').Class())
  {
    if o.injected.None? {
      assert LatencyBreach(f.diskLatency, o.base.diskLatency) ==> LatencyBreach(f'.diskLatency, o.base.diskLatency);
      assert SyscallBreach(f.syscallRate, o.base.syscallRate) ==> SyscallBreach(f'.syscallRate, o.base.syscallRate);
    }
  }

  /** Every rule, the three hard-wired ones included, attaches the cheapest action for its class under either matrix. */
  lemma ActionIsArgmin(r: Rule, m: Matrix)
    requires Shipped(m)
    ensures Severity(r.Action()) == ClassOrder(r.Class())
    ensures r.Action() == ActionForPureClass(r.Class(), m)
  {
    RuleActionRank(r);
    PureClassMatchesRank(r.Class(), m);
    SeverityTells(r.Action(), ActionForPureClass(r.Class(), m));
  }

  lemma RuleActionRank(r: Rule)
    ensures Severity(r.Action()) == ClassOrder(r.Class())
  {
    RankOfPure(r.Class());
  }

  lemma SeverityTells(a: Action, b: Action)
    requires Severity(a) == Severity(b)
    ensures a == b
  {
  }

  /** A rule's label never fails validation, keeps class and action, and says which source it came from. */
  lemma LabelAlwaysValid(eventId: string, r: Rule, now: string)
    ensures AsLabel(eventId, r, now).Ok?
    ensures var l := AsLabel(eventId, r, now).value;
            && l.eventId == eventId && l.trueClass == r.Class() && l.action == r.Action()
            && l.createdAt == now && l.source == r.Source() && l.confidence == r.Confidence()
            && l.faultType == if r.FaultType() in LabelStore.FAULT_TYPES then r.FaultType() else "unknown"
  {
    var c, a := r.Class(), r.Action();
    NamesRoundTrip(c, a);
    LabelStore.MakeLabelOk(eventId, r.Source(), ClassName(c), c, ActionName(a), a,
                           r.FaultType(), r.Confidence(), "", now);
  }

  lemma NamesRoundTrip(c: CostMatrix.Class, a: CostMatrix.Action)
    ensures LabelStore.ParseClass(ClassName(c)) == Some(c)
    ensures LabelStore.ParseAction(ActionName(a)) == Some(a)
  {
  }

  function RuleOf(b: Bundle): Rule {
    FirstRule(OriginOf(b), b.feats, b.duration)
  }

  /** The label the rules give a bundle; it always validates. */
  function LabelOf(eventId: string, b: Bundle, now: string): (l: LabelStore.Label)
    ensures LabelForBundle(eventId, b, now) == Ok(l)
    ensures l.trueClass == RuleOf(b).Class() && l.source == RuleOf(b).Source()
    ensures l.confidence == RuleOf(b).Confidence()
    ensures Severity(l.action) == ClassOrder(RuleOf(b).Class())
    ensures RuleOf(b).FaultType() in LabelStore.FAULT_TYPES ==> l.faultType == RuleOf(b).FaultType()
  {
    LabelAlwaysValid(eventId, RuleOf(b), now);
    RuleActionRank(RuleOf(b));
    LabelForBundle(eventId, b, now).value
  }

  predicate KnownInjection(b: Bundle) {
    b.injected && b.faultType != "" && b.faultType != "none"
  }

  lemma InjectionRule(b: Bundle)
    ensures var r, c := RuleOf(b), RuleOf(b).Class();
            var severe := b.feats.anomalyScore >= 0.9 || b.duration >= 3 || b.faultType == "controlplane_pressure";
            && (r.Source() == if KnownInjection(b) then "fault_metadata" else "weak_rule")
            && (if KnownInjection(b) then r.Confidence() == 0.9 else 0.5 <= r.Confidence() <= 0.7)
            && (KnownInjection(b) ==>
                  && r.FaultType() == b.faultType
                  && c == if severe then High else if b.faultType == "unknown" then Low else Medium)
  {
  }

  /** A known injection speaks first: it is labelled as ground truth, high when the score or the duration says so or the
      control plane is hit, low when the fault is unknown, medium otherwise; nothing else is labelled so. */
  lemma InjectionSpeaks(eventId: string, b: Bundle, now: string)
    ensures var l := LabelOf(eventId, b, now);
            var severe := b.feats.anomalyScore >= 0.9 || b.duration >= 3 || b.faultType == "controlplane_pressure";
            && (l.source == if KnownInjection(b) then "fault_metadata" else "weak_rule")
            && (if KnownInjection(b) then l.confidence == 0.9 else 0.5 <= l.confidence <= 0.7)
            && (KnownInjection(b) && b.faultType in LabelStore.FAULT_TYPES ==> l.faultType == b.faultType)
            && (KnownInjection(b) ==>
                  if severe then l.trueClass == High && l.action == Alert
                  else if b.faultType == "unknown" then l.trueClass == Low && l.action == Wait
                  else l.trueClass == Medium && l.action == Triage)
  {
    InjectionRule(b);
  }

  /** The evidence of a single feature against its baseline. */
  predicate SlowDisks(b: Bundle) {
    b.feats.diskLatency > 50.0 && b.feats.diskLatency > 3.0 * b.baseline.diskLatency
  }

  predicate SyscallHeavy(b: Bundle) {
    b.feats.syscallRate > 100.0 && b.feats.syscallRate > 3.0 * b.baseline.syscallRate
  }

  /** Without a known injection: routine workloads below 0.9 are suppressed; for all others the action climbs with the
      score, and with a slow disk, a syscall storm or a third window. */
  lemma RuleLadder(eventId: string, b: Bundle, now: string)
    requires !KnownInjection(b)
    ensures var l, score := LabelOf(eventId, b, now), b.feats.anomalyScore;
            Severity(l.action) == ClassOrder(l.trueClass) && Climbs(b, Severity(l.action), score)
  {
    ClassLadder(b);
  }

  predicate Climbs(b: Bundle, rank: nat, score: real) {
    if HardNegative(b.id) && score < 0.9 then rank == 0
    else
      && (rank >= 1 <==> score >= 0.7)
      && (rank >= 2 <==> (score >= 0.8 && (SlowDisks(b) || SyscallHeavy(b))) || (score >= 0.75 && b.duration >= 3))
      && (rank >= 3 <==> (score >= 0.9 && SlowDisks(b)) || (score >= 0.95 && SyscallHeavy(b)))
  }

  lemma ClassLadder(b: Bundle)
    requires !KnownInjection(b)
    ensures Climbs(b, ClassOrder(RuleOf(b).Class()), b.feats.anomalyScore)
  {
  }

  /** The fault a rule names: the breached feature first; in a third window without a breach, retransmits from 0.85,
      context switches from 0.9, else unknown. */
  lemma FaultNamed(eventId: string, b: Bundle, now: string)
    requires !KnownInjection(b) && (HardNegative(b.id) ==> b.feats.anomalyScore >= 0.9)
    requires b.feats.anomalyScore >= 0.8
    ensures LabelOf(eventId, b, now).faultType == NamedFault(b)
  {
    RuleFault(b);
    Listed(NamedFault(b));
  }

  function NamedFault(b: Bundle): string {
    if SlowDisks(b) then "disk_io_latency"
    else if SyscallHeavy(b) then "syscall_spike"
    else if b.duration <= 1 then "unknown"
    else if b.duration == 2 then "none"
    else if b.feats.tcpRetrans > 0.0 && b.feats.anomalyScore >= 0.85 then "tcp_retrans"
    else if b.feats.ctxSwitchRate > 0.0 && b.feats.anomalyScore >= 0.9 then "cpu_pressure"
    else "unknown"
  }

  lemma RuleFault(b: Bundle)
    requires !KnownInjection(b) && (HardNegative(b.id) ==> b.feats.anomalyScore >= 0.9)
    requires b.feats.anomalyScore >= 0.8
    ensures RuleOf(b).FaultType() == NamedFault(b)
  {
  }

  lemma Listed(ft: string)
    requires ft in {"none", "unknown", "tcp_retrans", "cpu_pressure", "syscall_spike", "disk_io_latency"}
    ensures ft in LabelStore.FAULT_TYPES
  {
    var fts := LabelStore.FAULT_TYPES;
    assert fts[0] == "none" && fts[1] == "syscall_spike" && fts[2] == "tcp_retrans" && fts[3] == "disk_io_latency";
    assert fts[4] == "cpu_pressure" && fts[9] == "unknown";
  }

  // ------------------------------------------------------------ hard negatives

  /** An occurrence that is in neither part covers the blank between them. */
  lemma AcrossTheBlank(a: string, b: string, sub: string, i: nat)
    requires Text.StartsAt(a + " " + b, sub, i)
    ensures i + |sub| <= |a| || i > |a| || ' ' in sub
  {
    var s := a + " " + b;
    if i <= |a| < i + |sub| {
      assert s[i..i + |sub|][|a| - i] == s[|a|] == ' ';
    }
  }

  /** A word without blanks is in a text joined by a blank exactly if it is in one of the parts. */
  lemma ContainsAround(a: string, b: string, sub: string)
    requires sub != "" && ' ' !in sub
    ensures Text.Contains(a + " " + b, sub) <==> Text.Contains(a, sub) || Text.Contains(b, sub)
  {
    var s := a + " " + b;
    if Text.Contains(s, sub) {
      var i :| 0 <= i <= |s| && Text.StartsAt(s, sub, i);
      AcrossTheBlank(a, b, sub, i);
      if i + |sub| <= |a| {
        assert a[i..i + |sub|] == sub;
        assert Text.StartsAt(a, sub, i);
      } else {
        var k := i - |a| - 1;
        assert b[k..k + |sub|] == sub;
        assert Text.StartsAt(b, sub, k);
      }
    }
    if Text.Contains(a, sub) {
      var i :| 0 <= i <= |a| && Text.StartsAt(a, sub, i);
      assert s[i..i + |sub|] == a[i..i + |sub|];
      assert Text.StartsAt(s, sub, i);
    }
    if Text.Contains(b, sub) {
      var i :| 0 <= i <= |b| && Text.StartsAt(b, sub, i);
      assert s[|a| + 1 + i..|a| + 1 + i + |sub|] == b[i..i + |sub|];
      assert Text.StartsAt(s, sub, |a| + 1 + i);
    }
  }

  lemma LowerJoined(a: string, b: string)
    ensures Text.Lower(a + " " + b) == Text.Lower(a) + " " + Text.Lower(b)
  {
  }

  predicate Mentions(id: Key, hint: string) {
    || Text.Contains(Text.Lower(id.namespace), hint)
    || Text.Contains(Text.Lower(id.pod), hint)
    || Text.Contains(Text.Lower(id.container), hint)
  }

  lemma HintsAreWords(i: nat)
    requires i < |HARD_NEGATIVE_HINTS|
    ensures HARD_NEGATIVE_HINTS[i] != "" && ' ' !in HARD_NEGATIVE_HINTS[i]
  {
  }

  /** A workload is routine exactly if its namespace, pod or container mentions one of the hints, in any case. */
  lemma RoutineExactly(id: Key)
    ensures HardNegative(id) <==> exists i | 0 <= i < |HARD_NEGATIVE_HINTS| :: Mentions(id, HARD_NEGATIVE_HINTS[i])
  {
    var ident := Text.Lower(id.namespace + " " + id.pod + " " + id.container);
    LowerJoined(id.namespace + " " + id.pod, id.container);
    LowerJoined(id.namespace, id.pod);
    forall i | 0 <= i < |HARD_NEGATIVE_HINTS|
      ensures Text.Contains(ident, HARD_NEGATIVE_HINTS[i]) <==> Mentions(id, HARD_NEGATIVE_HINTS[i])
    {
      var h := HARD_NEGATIVE_HINTS[i];
      HintsAreWords(i);
      ContainsAround(Text.Lower(id.namespace) + " " + Text.Lower(id.pod), Text.Lower(id.container), h);
      ContainsAround(Text.Lower(id.namespace), Text.Lower(id.pod), h);
    }
  }

  /** Once a known injection is logged for an event, no weak-rule label of any time changes the resolution. */
  lemma InjectionOutranksRules(log: seq<LabelStore.Label>, i: nat, b: Bundle, now: string)
    requires OriginOf(b).injected.None?
    requires i < |log| && log[i].source == "fault_metadata"
    ensures LabelForBundle(log[i].eventId, b, now).Ok?
    ensures LabelStore.Resolve(log + [LabelForBundle(log[i].eventId, b, now).value]) == LabelStore.Resolve(log)
  {
    RuleSpeaks(log[i].eventId, b, now);
    LabelStore.WeakerThanALine(log, i, LabelForBundle(log[i].eventId, b, now).value);
  }

  lemma RuleSpeaks(eventId: string, b: Bundle, now: string)
    requires OriginOf(b).injected.None?
    ensures LabelForBundle(eventId, b, now).Ok?
    ensures var l := LabelForBundle(eventId, b, now).value; l.eventId == eventId && l.source == "weak_rule"
  {
    LabelAlwaysValid(eventId, FirstRule(OriginOf(b), b.feats, b.duration), now);
  }
}
