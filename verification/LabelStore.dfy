/** The append-only label log of src/triage/label_store.py and its resolution. */
module LabelStore {
  import opened Wrappers
  import opened CostMatrix

  const FAULT_TYPES: seq<string> := [
    "none", "syscall_spike", "tcp_retrans", "disk_io_latency", "cpu_pressure", "memory_pressure",
    "pvc_io_latency", "controlplane_pressure", "gpu_pressure", "unknown"]

  /** One log line; an absent field reads as "". */
  datatype Label = Label(
    eventId: string, source: string, trueClass: Class, action: Action,
    faultType: string, confidence: real, createdAt: string)

  datatype LabelError = UnknownSource | UnknownClass | UnknownAction

  /** `SOURCE_PRIORITY`, with -1 for a source that is not listed. */
  function Priority(source: string): int {
    match source
    case "weak_rule" => 0
    case "fault_metadata" => 1
    case "llm_adjudicator" => 2
    case "operator_feedback" => 3
    case _ => -1
  }

  function ParseClass(s: string): Option<Class> {
    match s
    case "normal" => Some(Normal)
    case "low" => Some(Low)
    case "medium" => Some(Medium)
    case "high" => Some(High)
    case _ => None
  }

  function ParseAction(s: string): Option<Action> {
    match s
    case "suppress" => Some(Suppress)
    case "wait" => Some(Wait)
    case "triage" => Some(Triage)
    case "alert" => Some(Alert)
    case _ => None
  }

  function Clip(x: real): real {
    if x < 0.0 then 0.0 else if x > 1.0 then 1.0 else x
  }

  /** A normalised, validated label; the first failing check names the error. */
  function MakeLabel(eventId: string, source: string, trueClass: string, action: Option<string>,
                     faultType: string, confidence: real, createdAt: string, now: string)
    : (r: Result<Label, LabelError>)
    ensures r.Ok? <==> && Priority(source) >= 0 && ParseClass(trueClass).Some?
                       && (action.Some? ==> ParseAction(action.value).Some?)
    ensures r.Ok? ==> 0.0 <= r.value.confidence <= 1.0 && r.value.faultType in FAULT_TYPES
    ensures r.Ok? && action.None? ==> Severity(r.value.action) == ClassOrder(r.value.trueClass)
    ensures r.Err? ==> (r.error == UnknownSource <==> Priority(source) < 0)
    ensures r.Ok? ==> && r.value.eventId == eventId && r.value.source == source
                      && r.value.createdAt == (if createdAt == "" then now else createdAt)
                      && (faultType in FAULT_TYPES ==> r.value.faultType == faultType)
                      && (0.0 <= confidence <= 1.0 ==> r.value.confidence == confidence)
                      && (confidence < 0.0 ==> r.value.confidence == 0.0)
                      && (confidence > 1.0 ==> r.value.confidence == 1.0)
  {
    if Priority(source) < 0 then Err(UnknownSource)
    else match ParseClass(trueClass)
      case None => Err(UnknownClass)
      case Some(c) =>
        PureClassMatchesRank(c, COST_MATRIX);
        var act := if action.None? then Some(ActionForPureClass(c)) else ParseAction(action.value);
        if act.None? then Err(UnknownAction)
        else Ok(Label(eventId, source, c, act.value,
                      if faultType in FAULT_TYPES then faultType else "unknown",
                      Clip(confidence), if createdAt == "" then now else createdAt))
  }

  /** The four sources, and no other, are accepted. */
  lemma SourcesNamed(source: string)
    ensures Priority(source) >= 0 <==>
            source in {"operator_feedback", "llm_adjudicator", "fault_metadata", "weak_rule"}
  {
  }

  /** Each class name without an action takes the action of the same rank. */
  lemma ClassesNamed(eventId: string, name: string, now: string)
    ensures var r := MakeLabel(eventId, "weak_rule", name, None, "none", 0.5, "", now);
            && (r.Ok? <==> name in {"normal", "low", "medium", "high"})
            && (name == "normal" ==> r.value.trueClass == Normal && r.value.action == Suppress)
            && (name == "low" ==> r.value.trueClass == Low && r.value.action == Wait)
            && (name == "medium" ==> r.value.trueClass == Medium && r.value.action == Triage)
            && (name == "high" ==> r.value.trueClass == High && r.value.action == Alert)
  {
  }

  /** An explicit action is taken by its name. */
  lemma ActionsNamed(eventId: string, action: string, now: string)
    ensures var r := MakeLabel(eventId, "weak_rule", "normal", Some(action), "none", 0.5, "", now);
            && (r.Ok? <==> action in {"suppress", "wait", "triage", "alert"})
            && (action == "suppress" ==> r.value.action == Suppress)
            && (action == "wait" ==> r.value.action == Wait)
            && (action == "triage" ==> r.value.action == Triage)
            && (action == "alert" ==> r.value.action == Alert)
  {
  }

  /** What a successful call returns. */
  lemma MakeLabelOk(eventId: string, source: string, className: string, c: Class, actionName: string, a: Action,
                    faultType: string, confidence: real, createdAt: string, now: string)
    requires Priority(source) >= 0 && ParseClass(className) == Some(c) && ParseAction(actionName) == Some(a)
    ensures MakeLabel(eventId, source, className, Some(actionName), faultType, confidence, createdAt, now)
      == Ok(Label(eventId, source, c, a, if faultType in FAULT_TYPES then faultType else "unknown",
                  Clip(confidence), if createdAt == "" then now else createdAt))
  {
  }

  // ----------------------------------------------------------------- rank

  /** Python's order on strings. */
  predicate Less(a: string, b: string) {
    if b == "" then false
    else if a == "" then true
    else a[0] < b[0] || (a[0] == b[0] && Less(a[1..], b[1..]))
  }

  /** A time that agrees with another up to some character is before it exactly if it ends there or has the smaller
      character next. */
  lemma {:induction false} LessAt(p: string, c: char, s: string, d: char, t: string)
    requires c != d
    ensures Less(p + [c] + s, p + [d] + t) <==> c < d
    ensures Less(p, p + [c] + s) && !Less(p + [c] + s, p)
  {
    var x, y := p + [c] + s, p + [d] + t;
    if p != "" {
      LessAt(p[1..], c, s, d, t);
      assert x[1..] == p[1..] + [c] + s && y[1..] == p[1..] + [d] + t && x[0] == y[0] == p[0];
    }
  }

  lemma {:induction false} LessIrreflexive(a: string)
    ensures !Less(a, a)
  {
    if a != "" {
      LessIrreflexive(a[1..]);
    }
  }

  lemma {:induction false} LessTotal(a: string, b: string)
    ensures a == b || Less(a, b) || Less(b, a)
  {
    if a != "" && b != "" && a[0] == b[0] {
      LessTotal(a[1..], b[1..]);
      assert a == [a[0]] + a[1..] && b == [b[0]] + b[1..];
    }
  }

  lemma {:induction false} LessTransitive(a: string, b: string, c: string)
    requires Less(a, b) && Less(b, c)
    ensures Less(a, c)
  {
    if a != "" && a[0] == b[0] == c[0] {
      LessTransitive(a[1..], b[1..], c[1..]);
    }
  }

  /** `_rank(x) < _rank(y)`: source priority first, then the creation time as a string. */
  predicate Below(x: Label, y: Label) {
    || Priority(x.source) < Priority(y.source)
    || (Priority(x.source) == Priority(y.source) && Less(x.createdAt, y.createdAt))
  }

  predicate SameRank(x: Label, y: Label) {
    Priority(x.source) == Priority(y.source) && x.createdAt == y.createdAt
  }

  /** The rank order is a strict weak order. */
  lemma BelowIsWeakOrder(x: Label, y: Label, z: Label)
    ensures !Below(x, x)
    ensures Below(x, y) && Below(y, z) ==> Below(x, z)
    ensures !Below(x, y) && !Below(y, z) ==> !Below(x, z)
    ensures Below(x, y) ==> !Below(y, x)
    ensures SameRank(x, y) <==> !Below(x, y) && !Below(y, x)
  {
    var a, b, c := x.createdAt, y.createdAt, z.createdAt;
    LessIrreflexive(a);
    LessTotal(a, b);
    LessTotal(b, c);
    LessTotal(a, c);
    if Less(a, b) && Less(b, c) { LessTransitive(a, b, c); }
    if Less(a, b) && Less(b, a) { LessTransitive(a, b, a); }
    if Less(c, b) && Less(b, a) { LessTransitive(c, b, a); }
    if Less(a, c) && Less(c, b) { LessTransitive(a, c, b); }
    if Less(b, a) && Less(a, c) { LessTransitive(b, a, c); }
  }

  // ----------------------------------------------------------- resolution

  /** One step of the resolution loop. */
  function Absorb(best: map<string, Label>, l: Label): map<string, Label> {
    if l.eventId != "" && (l.eventId !in best || Below(best[l.eventId], l)) then best[l.eventId := l] else best
  }

  function Resolve(log: seq<Label>): map<string, Label> {
    if log == [] then map[] else Absorb(Resolve(log[..|log| - 1]), log[|log| - 1])
  }

  class LabelLog {
    var lines: seq<Label>

    constructor ()
      ensures lines == []
    {
      lines := [];
    }

    method AppendMany(labels: seq<Label>) returns (n: nat)
      modifies this
      ensures lines == old(lines) + labels && n == |labels|
      ensures Resolve(lines) == Merge(Resolve(old(lines)), Resolve(labels))
    {
      ResolveMerges(lines, labels);
      if labels == [] {
        assert lines + labels == lines;
        return 0;
      }
      var i := 0;
      while i < |labels|
        invariant 0 <= i <= |labels|
        invariant lines == old(lines) + labels[..i]
      {
        lines := lines + [labels[i]];
        i := i + 1;
      }
      assert labels[..i] == labels;
      n := |labels|;
    }

    method ResolveAll() returns (best: map<string, Label>)
      ensures best == Resolve(lines)
    {
      best := map[];
      var i := 0;
      while i < |lines|
        invariant 0 <= i <= |lines|
        invariant best == Resolve(lines[..i])
      {
        var l := lines[i];
        assert lines[..i + 1][..i] == lines[..i];
        i := i + 1;
        if l.eventId == "" {
          continue;
        }
        if l.eventId !in best || Below(best[l.eventId], l) {
          best := best[l.eventId := l];
        }
      }
      assert lines[..i] == lines;
    }
  }

  // ------------------------------------------------------------- theorems

  /** Line `i` carries event `e`, outranks every earlier line of `e` and is outranked by none. */
  ghost predicate Wins(log: seq<Label>, e: string, i: nat) {
    && i < |log| && log[i].eventId == e
    && (forall j | 0 <= j < |log| && log[j].eventId == e :: !Below(log[i], log[j]))
    && (forall j | 0 <= j < i && log[j].eventId == e :: Below(log[j], log[i]))
  }

  lemma WinsStep(log: seq<Label>, e: string, i: nat)
    requires log != [] && Wins(log[..|log| - 1], e, i)
    ensures var n := |log| - 1;
            Wins(log, e, if log[n].eventId == e && Below(log[i], log[n]) then n else i)
  {
    var n := |log| - 1;
    var front, l := log[..n], log[n];
    forall j | 0 <= j < n && log[j].eventId == e
      ensures !Below(front[i], front[j])
      ensures Below(log[i], l) ==> Below(log[j], l) && !Below(l, log[j])
    {
      assert front[j] == log[j];
      BelowIsWeakOrder(l, log[j], log[i]);
      BelowIsWeakOrder(l, log[i], log[j]);
      BelowIsWeakOrder(log[j], l, log[i]);
    }
    BelowIsWeakOrder(l, l, l);
    assert forall j | 0 <= j < i && log[j].eventId == e :: Below(front[j], front[i]);
  }

  /** Resolution returns, per event, the earliest label of the highest rank, and nothing for other keys. */
  lemma {:induction false} ResolveIsArgmax(log: seq<Label>, e: string)
    ensures e in Resolve(log) <==> e != "" && exists i | 0 <= i < |log| :: log[i].eventId == e
    ensures e in Resolve(log) ==> exists i: nat :: Wins(log, e, i) && Resolve(log)[e] == log[i]
  {
    if log != [] {
      var n := |log| - 1;
      var front, l := log[..n], log[n];
      ResolveIsArgmax(front, e);
      assert forall j | 0 <= j < n :: log[j] == front[j];
      if e in Resolve(front) {
        var i: nat :| Wins(front, e, i) && Resolve(front)[e] == front[i];
        WinsStep(log, e, i);
      } else if l.eventId == e && e != "" {
        BelowIsWeakOrder(l, l, l);
        assert Wins(log, e, n);
      }
    }
  }

  /** There is only one such line. */
  lemma WinnerUnique(log: seq<Label>, e: string, i: nat, j: nat)
    requires Wins(log, e, i) && Wins(log, e, j)
    ensures i == j
  {
  }

  /** The left-biased merge of two resolutions. */
  function Merge(x: map<string, Label>, y: map<string, Label>): map<string, Label> {
    map e | e in x.Keys + y.Keys :: if e !in x || (e in y && Below(x[e], y[e])) then y[e] else x[e]
  }

  /** Resolving a log in two parts and merging gives the resolution of the whole. */
  lemma {:induction false} ResolveMerges(a: seq<Label>, b: seq<Label>)
    ensures Resolve(a + b) == Merge(Resolve(a), Resolve(b))
  {
    if b == [] {
      assert a + b == a;
    } else {
      var n := |b| - 1;
      ResolveMerges(a, b[..n]);
      assert (a + b)[..|a + b| - 1] == a + b[..n];
      AbsorbMerges(Resolve(a), Resolve(b[..n]), b[n]);
    }
  }

  lemma AbsorbMerges(x: map<string, Label>, y: map<string, Label>, l: Label)
    ensures Absorb(Merge(x, y), l) == Merge(x, Absorb(y, l))
  {
    var e := l.eventId;
    if e in x && e in y {
      BelowIsWeakOrder(x[e], y[e], l);
      BelowIsWeakOrder(x[e], l, y[e]);
    }
  }

  /** `c` lists each entry of `best` once, in any order. */
  ghost predicate Lists(c: seq<Label>, best: map<string, Label>) {
    && (forall i | 0 <= i < |c| :: c[i].eventId in best && best[c[i].eventId] == c[i])
    && (forall i, j | 0 <= i < j < |c| :: c[i].eventId != c[j].eventId)
    && (forall e | e in best :: exists i | 0 <= i < |c| :: c[i].eventId == e)
  }

  /** A log may be replaced by its resolved labels: no later append can tell. */
  lemma CompactionSafe(a: seq<Label>, compact: seq<Label>, later: seq<Label>)
    requires Lists(compact, Resolve(a))
    ensures Resolve(compact + later) == Resolve(a + later)
  {
    var best := Resolve(a);
    forall e
      ensures e in Resolve(compact) <==> e in best
      ensures e in best ==> Resolve(compact)[e] == best[e]
    {
      ResolveIsArgmax(compact, e);
      ResolveIsArgmax(a, e);
    }
    assert Resolve(compact) == best;
    ResolveMerges(compact, later);
    ResolveMerges(a, later);
  }

  /** No two lines of one event share a rank. */
  ghost predicate DistinctRanks(log: seq<Label>) {
    forall i, j | 0 <= i < j < |log| && log[i].eventId == log[j].eventId :: !SameRank(log[i], log[j])
  }

  /** The resolved label of an event is in the log, and no label of the event outranks it. */
  lemma TopRanked(log: seq<Label>, e: string)
    ensures e in Resolve(log) <==> e != "" && exists l :: l in log && l.eventId == e
    ensures e in Resolve(log) ==>
              && Resolve(log)[e] in log && Resolve(log)[e].eventId == e
              && forall l | l in log && l.eventId == e :: !Below(Resolve(log)[e], l)
  {
    ResolveIsArgmax(log, e);
    if exists l :: l in log && l.eventId == e {
      var l :| l in log && l.eventId == e;
      var i :| 0 <= i < |log| && log[i] == l;
      assert log[i].eventId == e;
    }
  }

  /** The event has a line of this source. */
  ghost predicate Has(log: seq<Label>, e: string, source: string) {
    exists l :: l in log && l.eventId == e && l.source == source
  }

  /** An operator's label beats the adjudicator's, that beats a known injection's, and that beats a weak rule's; within
      a source no line of the event is later than the one that wins. */
  lemma SourcesInOrder(log: seq<Label>, e: string)
    requires e in Resolve(log)
    ensures var won := Resolve(log)[e].source;
            var operator, llm := Has(log, e, "operator_feedback"), Has(log, e, "llm_adjudicator");
            var fault, weak := Has(log, e, "fault_metadata"), Has(log, e, "weak_rule");
            && (won == "operator_feedback" <==> operator)
            && (won == "llm_adjudicator" <==> llm && !operator)
            && (won == "fault_metadata" <==> fault && !llm && !operator)
            && (won == "weak_rule" <==> weak && !fault && !llm && !operator)
    ensures forall l | l in log && l.eventId == e && l.source == Resolve(log)[e].source ::
              !Less(Resolve(log)[e].createdAt, l.createdAt)
  {
    TopRanked(log, e);
    var w := Resolve(log)[e];
    assert Has(log, e, w.source);
    forall l | l in log && l.eventId == e ensures Priority(l.source) <= Priority(w.source) {
      assert !Below(w, l);
    }
  }

  lemma RankIdentifies(log: seq<Label>, x: Label, y: Label)
    requires DistinctRanks(log) && x in log && y in log && x.eventId == y.eventId && SameRank(x, y)
    ensures x == y
  {
    var i :| 0 <= i < |log| && log[i] == x;
    var j :| 0 <= j < |log| && log[j] == y;
    assert i == j;
  }

  lemma OrderIrrelevantAt(a: seq<Label>, b: seq<Label>, e: string)
    requires (forall l :: l in a <==> l in b) && DistinctRanks(a)
    ensures e in Resolve(a) <==> e in Resolve(b)
    ensures e in Resolve(a) ==> Resolve(a)[e] == Resolve(b)[e]
  {
    TopRanked(a, e);
    TopRanked(b, e);
    if e in Resolve(a) && e in Resolve(b) {
      var x, y := Resolve(a)[e], Resolve(b)[e];
      BelowIsWeakOrder(x, y, x);
      RankIdentifies(a, x, y);
    }
  }

  lemma SameElements<T>(a: seq<T>, b: seq<T>, x: T)
    requires multiset(a) == multiset(b)
    ensures x in a <==> x in b
  {
    assert x in a <==> x in multiset(a);
    assert x in b <==> x in multiset(b);
  }

  /** With distinct ranks the order of the log is irrelevant. */
  lemma OrderIrrelevant(a: seq<Label>, b: seq<Label>)
    requires multiset(a) == multiset(b) && DistinctRanks(a)
    ensures Resolve(a) == Resolve(b)
  {
    forall l ensures l in a <==> l in b {
      SameElements(a, b, l);
    }
    forall e
      ensures e in Resolve(a) <==> e in Resolve(b)
      ensures e in Resolve(a) ==> Resolve(a)[e] == Resolve(b)[e]
    {
      OrderIrrelevantAt(a, b, e);
    }
  }

  /** A label of a weaker source leaves the resolution alone, whenever it is created. */
  lemma WeakerSourceIgnored(log: seq<Label>, l: Label)
    requires l.eventId in Resolve(log) && Priority(l.source) < Priority(Resolve(log)[l.eventId].source)
    ensures Resolve(log + [l]) == Resolve(log)
  {
    assert (log + [l])[..|log|] == log;
  }

  /** A label of a weaker source than any line of its event changes nothing either. */
  lemma WeakerThanALine(log: seq<Label>, i: nat, l: Label)
    requires i < |log| && l.eventId == log[i].eventId && Priority(l.source) < Priority(log[i].source)
    ensures Resolve(log + [l]) == Resolve(log)
  {
    if l.eventId == "" {
      assert (log + [l])[..|log|] == log;
    } else {
      TopRanked(log, l.eventId);
      assert log[i] in log;
      WeakerSourceIgnored(log, l);
    }
  }

  /** Appending never replaces an event's label by one of a weaker source, nor drops an event. */
  lemma PriorityNeverDrops(log: seq<Label>, later: seq<Label>, e: string)
    requires e in Resolve(log)
    ensures e in Resolve(log + later)
    ensures Priority(Resolve(log)[e].source) <= Priority(Resolve(log + later)[e].source)
    ensures Resolve(log + later)[e] == Resolve(log)[e] || Below(Resolve(log)[e], Resolve(log + later)[e])
  {
    ResolveMerges(log, later);
  }
}
