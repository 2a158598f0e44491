/**
 The streaming case builder of src/triage/case_bundle.py: window rows of many
 interleaved identities in, one bundle per anomalous window out.
 */
module CaseBundle {
  import opened Wrappers
  import opened CostMatrix
  import Text

  datatype Key = Key(node: string, namespace: string, pod: string, container: string)

  datatype Features = Features(
    anomalyScore: real, syscallRate: real, tcpRetrans: real, diskReadBytes: real, diskWriteBytes: real,
    diskLatency: real, ctxSwitchRate: real, netRxBytes: real, netTxBytes: real)

  /** The row's own verdict: a bool, a string, or anything else. */
  datatype Flag = Bool(b: bool) | Str(s: string) | Other

  /** One window row, its features already reduced to the nine case features and its times to epoch seconds. */
  datatype Row = Row(
    id: Key, feats: Features, ts: Option<real>, end: Option<real>, flag: Flag,
    cluster: string, logs: string, injected: bool, faultType: string)

  datatype Config = Config(scoreThreshold: real, hi: real, mid: real, windowSeconds: real, allWindows: bool)

  datatype Means = Means(anomalyScore: real, diskLatency: real, syscallRate: real)

  datatype Votes = Votes(threshold: Action, weakLabel: Action)

  datatype Bundle = Bundle(
    id: Key, cluster: string, windowStart: Option<real>, windowEnd: Option<real>,
    feats: Features, baseline: Means, duration: nat, logs: string,
    injected: bool, faultType: string, votes: Votes)

  const BASELINE_WINDOW_S := 300.0

  predicate IsAnomaly(row: Row, threshold: real) {
    match row.flag
    case Bool(b) => b
    case Str(s) => Text.Lower(Text.Strip(s)) in ["true", "1", "1.0"]
    case Other => row.feats.anomalyScore >= threshold
  }

  /** A bool flag is the verdict; a text flag is one however it is padded; anything else leaves it to the score, whose
      threshold is inclusive. */
  lemma VerdictAt(row: Row, threshold: real, a: string, w: string, b: string)
    requires Text.Blank(a) && Text.Blank(b) && (w != "" ==> !Text.IsSpace(w[0]) && !Text.IsSpace(w[|w| - 1]))
    ensures row.flag == Bool(true) ==> IsAnomaly(row, threshold)
    ensures row.flag == Bool(false) ==> !IsAnomaly(row, threshold)
    ensures row.flag == Str(a + w + b) && Text.Lower(w) in {"true", "1", "1.0"} ==> IsAnomaly(row, threshold)
    ensures row.flag == Str(a + w + b) && Text.Lower(w) in {"", "false", "0", "0.0"} ==> !IsAnomaly(row, threshold)
    ensures row.flag == Other && row.feats.anomalyScore == threshold ==> IsAnomaly(row, threshold)
    ensures row.flag == Other && row.feats.anomalyScore < threshold ==> !IsAnomaly(row, threshold)
  {
    Text.StripPadded(a, w, b);
    assert "false"[0] == 'f' && "true"[0] == 't' && "0"[0] == '0' && "1"[0] == '1' && "0.0"[0] == '0';
  }

  /** The texts rows carry in practice. */
  lemma TextVerdicts(row: Row, threshold: real)
    ensures row.flag in {Str("True"), Str(" 1 ")} ==> IsAnomaly(row, threshold)
    ensures row.flag in {Str("False"), Str("0"), Str("")} ==> !IsAnomaly(row, threshold)
  {
    PlainText(row, threshold, "True", "true");
    PlainText(row, threshold, "False", "false");
    PlainText(row, threshold, "0", "0");
    PlainText(row, threshold, "", "");
    TextVerdict(row, threshold, " ", "1", " ", "1");
    assert " " + "1" + " " == " 1 ";
  }

  lemma PlainText(row: Row, threshold: real, w: string, low: string)
    requires w != "" ==> !Text.IsSpace(w[0]) && !Text.IsSpace(w[|w| - 1])
    requires |w| == |low| && forall i | 0 <= i < |w| :: Text.LowerChar(w[i]) == low[i]
    ensures row.flag == Str(w) && low in {"true", "1", "1.0"} ==> IsAnomaly(row, threshold)
    ensures row.flag == Str(w) && low in {"", "false", "0", "0.0"} ==> !IsAnomaly(row, threshold)
  {
    TextVerdict(row, threshold, "", w, "", low);
    assert "" + w + "" == w;
  }

  lemma TextVerdict(row: Row, threshold: real, a: string, w: string, b: string, low: string)
    requires Text.Blank(a) && Text.Blank(b) && (w != "" ==> !Text.IsSpace(w[0]) && !Text.IsSpace(w[|w| - 1]))
    requires |w| == |low| && forall i | 0 <= i < |w| :: Text.LowerChar(w[i]) == low[i]
    ensures row.flag == Str(a + w + b) && low in {"true", "1", "1.0"} ==> IsAnomaly(row, threshold)
    ensures row.flag == Str(a + w + b) && low in {"", "false", "0", "0.0"} ==> !IsAnomaly(row, threshold)
  {
    VerdictAt(row, threshold, a, w, b);
    assert Text.Lower(w) == low;
  }

  // ---------------------------------------------------------------- votes

  function ThresholdVote(score: real, hi: real, mid: real): Action {
    if score >= hi then Alert
    else if score >= mid then Triage
    else if score >= mid * 0.7 then Wait
    else Suppress
  }

  function LatencyBreach(lat: real, base: real): bool {
    lat > if base * 3.0 < 50.0 then 50.0 else base * 3.0
  }

  function QuickClass(feats: Features, base: Means, duration: nat): Class {
    if feats.anomalyScore >= 0.9 && LatencyBreach(feats.diskLatency, base.diskLatency) then High
    else if feats.anomalyScore >= 0.85 && duration >= 2 then Medium
    else if feats.anomalyScore >= 0.7 then (if duration <= 1 then Low else Medium)
    else Normal
  }

  function QuickWeakVote(feats: Features, base: Means, duration: nat): (a: Action)
    ensures Severity(a) == ClassOrder(QuickClass(feats, base, duration))
  {
    RankOfPure(QuickClass(feats, base, duration));
    ActionForPureClass(QuickClass(feats, base, duration))
  }

  /** The threshold vote climbs at 0.7 of `mid`, at `mid` and at `hi`, each inclusive. */
  lemma ThresholdLadder(score: real, hi: real, mid: real)
    requires 0.0 <= mid <= hi
    ensures Severity(ThresholdVote(score, hi, mid)) >= 1 <==> score >= 0.7 * mid
    ensures Severity(ThresholdVote(score, hi, mid)) >= 2 <==> score >= mid
    ensures Severity(ThresholdVote(score, hi, mid)) >= 3 <==> score >= hi
  {
  }

  /** The quick vote: wait from 0.7, triage when that lasts a second window, alert from 0.9 with a latency above 50 ms
      and three times the baseline. */
  lemma QuickLadder(feats: Features, base: Means, duration: nat)
    ensures var score, lat := feats.anomalyScore, feats.diskLatency;
            var rank := Severity(QuickWeakVote(feats, base, duration));
            var alarming := score >= 0.9 && lat > 50.0 && lat > 3.0 * base.diskLatency;
            && (rank >= 1 <==> score >= 0.7)
            && (rank >= 2 <==> alarming || (score >= 0.7 && duration >= 2))
            && (rank >= 3 <==> alarming)
  {
  }

  lemma QuickClassMonotone(f: Features, f': Features, base: Means, d: nat, d': nat)
    requires f.anomalyScore <= f'.anomalyScore && f.diskLatency <= f'.diskLatency && d <= d'
    ensures ClassOrder(QuickClass(f, base, d)) <= ClassOrder(QuickClass(f', base, d'))
  {
  }

  /** Both cheap votes move up with the evidence. */
  lemma VotesMonotone(f: Features, f': Features, base: Means, d: nat, d': nat, hi: real, mid: real)
    requires f.anomalyScore <= f'.anomalyScore && f.diskLatency <= f'.diskLatency && d <= d'
    ensures Severity(ThresholdVote(f.anomalyScore, hi, mid)) <= Severity(ThresholdVote(f'.anomalyScore, hi, mid))
    ensures Severity(QuickWeakVote(f, base, d)) <= Severity(QuickWeakVote(f', base, d'))
  {
    QuickClassMonotone(f, f', base, d, d');
  }

  lemma RankOfPure(c: Class)
    ensures Severity(ActionForPureClass(c)) == ClassOrder(c)
  {
    PureClassMatchesRank(c, COST_MATRIX);
  }

  // ------------------------------------------------- per-identity machine

  datatype Sample = Sample(ts: real, feats: Features)

  datatype State = State(samples: seq<Sample>, run: nat)

  /** The samples left after popping stale ones off the front. */
  function DropStale(s: seq<Sample>, cutoff: real): seq<Sample> {
    if s != [] && s[0].ts < cutoff then DropStale(s[1..], cutoff) else s
  }

  function Push(st: State, ts: Option<real>, feats: Features): State {
    match ts
    case None => State(st.samples, 0)
    case Some(t) => State(DropStale(st.samples + [Sample(t, feats)], t - BASELINE_WINDOW_S), 0)
  }

  function SumOf(s: seq<Sample>, f: Features -> real): real {
    if s == [] then 0.0 else SumOf(s[..|s| - 1], f) + f(s[|s| - 1].feats)
  }

  function ScoreOf(f: Features): real { f.anomalyScore }
  function LatencyOf(f: Features): real { f.diskLatency }
  function SyscallOf(f: Features): real { f.syscallRate }

  /** Per-feature means; all zero without samples. */
  function MeanOf(s: seq<Sample>): Means {
    if s == [] then Means(0.0, 0.0, 0.0)
    else
      var n := |s| as real;
      Means(SumOf(s, ScoreOf) / n, SumOf(s, LatencyOf) / n, SumOf(s, SyscallOf) / n)
  }

  lemma {:induction false} SumOfConcat(a: seq<Sample>, b: seq<Sample>, f: Features -> real)
    ensures SumOf(a + b, f) == SumOf(a, f) + SumOf(b, f)
  {
    if b == [] {
      assert a + b == a;
    } else {
      SumOfConcat(a, b[..|b| - 1], f);
      assert (a + b)[..|a + b| - 1] == a + b[..|b| - 1];
    }
  }

  function Scale(m: Means, n: nat): Means {
    Means(m.anomalyScore * n as real, m.diskLatency * n as real, m.syscallRate * n as real)
  }

  function Plus(x: Means, y: Means): Means {
    Means(x.anomalyScore + y.anomalyScore, x.diskLatency + y.diskLatency, x.syscallRate + y.syscallRate)
  }

  lemma ScaledMean(s: seq<Sample>)
    ensures Scale(MeanOf(s), |s|) == Means(SumOf(s, ScoreOf), SumOf(s, LatencyOf), SumOf(s, SyscallOf))
  {
    if s != [] {
      Undivide(SumOf(s, ScoreOf), SumOf(s, LatencyOf), SumOf(s, SyscallOf), |s|);
    } else {
      NothingSums(s);
    }
  }

  lemma NothingSums(s: seq<Sample>)
    requires s == []
    ensures SumOf(s, ScoreOf) == SumOf(s, LatencyOf) == SumOf(s, SyscallOf) == 0.0
  {
  }

  lemma Undivide(x: real, y: real, z: real, n: nat)
    requires n > 0
    ensures Scale(Means(x / n as real, y / n as real, z / n as real), n) == Means(x, y, z)
  {
    var r := n as real;
    assert x / r * r == x && y / r * r == y && z / r * r == z;
  }

  /** The baseline of one sample is that sample's score, disk latency and syscall rate. */
  lemma MeanOfOne(x: Sample)
    ensures MeanOf([x]) == Means(x.feats.anomalyScore, x.feats.diskLatency, x.feats.syscallRate)
  {
    OneSum(x, ScoreOf);
    OneSum(x, LatencyOf);
    OneSum(x, SyscallOf);
  }

  lemma OneSum(x: Sample, f: Features -> real)
    ensures SumOf([x], f) == f(x.feats)
  {
    assert SumOf([x][..0], f) == 0.0;
  }

  /** Times the number of samples, baselines add up. */
  lemma MeanIsMean(s: seq<Sample>, t: seq<Sample>)
    ensures Scale(MeanOf(s + t), |s| + |t|) == Plus(Scale(MeanOf(s), |s|), Scale(MeanOf(t), |t|))
  {
    var u := s + t;
    SumOfConcat(s, t, ScoreOf);
    SumOfConcat(s, t, LatencyOf);
    SumOfConcat(s, t, SyscallOf);
    ScaledMean(s);
    ScaledMean(t);
    ScaledMean(u);
  }

  class IdentityState {
    var samples: seq<Sample>
    var run: nat

    constructor ()
      ensures Value() == State([], 0)
    {
      samples, run := [], 0;
    }

    ghost function Value(): State
      reads this
    {
      State(samples, run)
    }

    method Baseline() returns (b: Means)
      ensures b == MeanOf(samples)
    {
      if samples == [] {
        return Means(0.0, 0.0, 0.0);
      }
      var n := |samples|;
      var score, latency, syscalls := 0.0, 0.0, 0.0;
      for i := 0 to n
        invariant score == SumOf(samples[..i], ScoreOf)
        invariant latency == SumOf(samples[..i], LatencyOf)
        invariant syscalls == SumOf(samples[..i], SyscallOf)
      {
        assert samples[..i + 1][..i] == samples[..i];
        score := score + samples[i].feats.anomalyScore;
        latency := latency + samples[i].feats.diskLatency;
        syscalls := syscalls + samples[i].feats.syscallRate;
      }
      assert samples[..n] == samples;
      b := Means(score / n as real, latency / n as real, syscalls / n as real);
    }

    method PushNormal(ts: Option<real>, feats: Features)
      modifies this
      ensures Value() == Push(old(Value()), ts, feats)
    {
      run := 0;
      if ts == None {
        return;
      }
      samples := samples + [Sample(ts.value, feats)];
      var cutoff := ts.value - BASELINE_WINDOW_S;
      while samples != [] && samples[0].ts < cutoff
        invariant run == 0
        invariant DropStale(samples, cutoff) == DropStale(old(samples) + [Sample(ts.value, feats)], cutoff)
        decreases |samples|
      {
        samples := samples[1..];
      }
    }
  }

  predicate Emits(row: Row, cfg: Config) {
    IsAnomaly(row, cfg.scoreThreshold) || cfg.allWindows
  }

  function Step(st: State, row: Row, cfg: Config): State {
    if Emits(row, cfg) then st.(run := st.run + 1) else Push(st, row.ts, row.feats)
  }

  /** The machine after a row sequence of one identity. */
  function Fold(rows: seq<Row>, cfg: Config): State {
    if rows == [] then State([], 0) else Step(Fold(rows[..|rows| - 1], cfg), rows[|rows| - 1], cfg)
  }

  /** The end is the row's own, else start plus window length; a zero epoch is falsy and falls back to the start. */
  function WindowEnd(row: Row, cfg: Config): Option<real> {
    if row.end.Some? then row.end
    else if row.ts.Some? && row.ts.value + cfg.windowSeconds != 0.0 then Some(row.ts.value + cfg.windowSeconds)
    else row.ts
  }

  /** A row worth a bundle, with what its identity's history contributes. */
  datatype Case = Case(row: Row, baseline: Means, duration: nat)

  function MakeBundle(c: Case, cfg: Config): Bundle {
    var feats := c.row.feats;
    Bundle(c.row.id, c.row.cluster, c.row.ts, WindowEnd(c.row, cfg), feats, c.baseline, c.duration,
           c.row.logs, c.row.injected, c.row.faultType,
           Votes(ThresholdVote(feats.anomalyScore, cfg.hi, cfg.mid), QuickWeakVote(feats, c.baseline, c.duration)))
  }

  function Bundles(cases: seq<Case>, cfg: Config): seq<Bundle> {
    seq(|cases|, i requires 0 <= i < |cases| => MakeBundle(cases[i], cfg))
  }

  /** The rows of one identity, in order. */
  function Own(rows: seq<Row>, k: Key): seq<Row> {
    if rows == [] then []
    else
      var rest := Own(rows[..|rows| - 1], k);
      if rows[|rows| - 1].id == k then rest + [rows[|rows| - 1]] else rest
  }

  /** The cases the machine makes of a row sequence, each identity looked at on its own. */
  function Stream(rows: seq<Row>, cfg: Config): seq<Case> {
    if rows == [] then []
    else
      var front, row := rows[..|rows| - 1], rows[|rows| - 1];
      if Emits(row, cfg) then
        var st := Step(Fold(Own(front, row.id), cfg), row, cfg);
        Stream(front, cfg) + [Case(row, MeanOf(st.samples), st.run)]
      else Stream(front, cfg)
  }

  /** One row against its identity's state. */
  method Advance(st: IdentityState, row: Row, cfg: Config) returns (c: Option<Case>)
    modifies st
    ensures st.Value() == Step(old(st.Value()), row, cfg)
    ensures c == if Emits(row, cfg) then Some(Case(row, MeanOf(st.samples), st.run)) else None
    ensures row.flag == Bool(true) || cfg.allWindows ==> c.Some? && st.run == old(st.run) + 1
    ensures row.flag == Bool(false) && !cfg.allWindows ==> c.None? && st.run == 0
  {
    VerdictAt(row, cfg.scoreThreshold, "", "", "");
    if !IsAnomaly(row, cfg.scoreThreshold) && !cfg.allWindows {
      st.PushNormal(row.ts, row.feats);
      return None;
    }
    st.run := st.run + 1;
    var base := st.Baseline();
    c := Some(Case(row, base, st.run));
  }

  lemma BundlesAppend(cases: seq<Case>, c: Case, cfg: Config)
    ensures Bundles(cases + [c], cfg) == Bundles(cases, cfg) + [MakeBundle(c, cfg)]
  {
  }

  lemma OwnStep(rows: seq<Row>, row: Row, k: Key)
    ensures Own(rows + [row], k) == if k == row.id then Own(rows, k) + [row] else Own(rows, k)
  {
    assert (rows + [row])[..|rows|] == rows;
  }

  lemma StreamStep(rows: seq<Row>, row: Row, cfg: Config)
    ensures Stream(rows + [row], cfg) ==
            if Emits(row, cfg) then
              var st := Step(Fold(Own(rows, row.id), cfg), row, cfg);
              Stream(rows, cfg) + [Case(row, MeanOf(st.samples), st.run)]
            else Stream(rows, cfg)
  {
    assert (rows + [row])[..|rows|] == rows;
  }

  lemma FoldStep(rows: seq<Row>, row: Row, cfg: Config)
    ensures Fold(rows + [row], cfg) == Step(Fold(rows, cfg), row, cfg)
  {
    assert (rows + [row])[..|rows|] == rows;
  }

  lemma OwnFold(rows: seq<Row>, row: Row, k: Key, cfg: Config)
    ensures Fold(Own(rows + [row], k), cfg) ==
            if k == row.id then Step(Fold(Own(rows, k), cfg), row, cfg) else Fold(Own(rows, k), cfg)
    ensures k != row.id ==> Own(rows + [row], k) == Own(rows, k)
  {
    OwnStep(rows, row, k);
    FoldStep(Own(rows, k), row, cfg);
  }

  /** Each identity's machine has folded that identity's rows, and no two identities share a machine. */
  ghost predicate Tracks(state: map<Key, IdentityState>, seen: seq<Row>, cfg: Config)
    reads state.Values
  {
    && (forall k | k in state :: state[k].Value() == Fold(Own(seen, k), cfg))
    && (forall k | k !in state :: Own(seen, k) == [])
    && (forall k, l | k in state && l in state && k != l :: state[k] != state[l])
  }

  /** `state.setdefault(key, _IdentityState())`. */
  method SetDefault(state: map<Key, IdentityState>, k: Key, cfg: Config, ghost seen: seq<Row>)
    returns (state': map<Key, IdentityState>)
    requires Tracks(state, seen, cfg)
    ensures fresh(state'.Values - state.Values) && Tracks(state', seen, cfg)
    ensures k in state'
  {
    state' := state;
    if k !in state' {
      var created := new IdentityState();
      state' := state'[k := created];
    }
  }

  /** `state[ident]`, created on first use, fed with the row. */
  method Feed(state: map<Key, IdentityState>, row: Row, cfg: Config, ghost seen: seq<Row>)
    returns (state': map<Key, IdentityState>, c: Option<Case>)
    requires Tracks(state, seen, cfg)
    modifies state.Values
    ensures fresh(state'.Values - state.Values) && Tracks(state', seen + [row], cfg)
    ensures Stream(seen + [row], cfg) == Stream(seen, cfg) + if c.Some? then [c.value] else []
  {
    state' := SetDefault(state, row.id, cfg, seen);
    c := Advance(state'[row.id], row, cfg);
    StreamStep(seen, row, cfg);
    forall k
      ensures k in state' ==> state'[k].Value() == Fold(Own(seen + [row], k), cfg)
      ensures k !in state' ==> Own(seen + [row], k) == []
    {
      OwnFold(seen, row, k, cfg);
    }
  }

  /** The rows that become bundles. */
  function Emitted(rows: seq<Row>, cfg: Config): seq<Row> {
    if rows == [] then []
    else
      var rest, row := Emitted(rows[..|rows| - 1], cfg), rows[|rows| - 1];
      if Emits(row, cfg) then rest + [row] else rest
  }

  /** The rows whose own verdict is true. */
  function Flagged(rows: seq<Row>): seq<Row> {
    if rows == [] then []
    else
      var rest, row := Flagged(rows[..|rows| - 1]), rows[|rows| - 1];
      if row.flag == Bool(true) then rest + [row] else rest
  }

  predicate AllBool(rows: seq<Row>) {
    forall i | 0 <= i < |rows| :: rows[i].flag.Bool?
  }

  lemma {:induction false} EmittedIsFlagged(rows: seq<Row>, cfg: Config)
    requires AllBool(rows) && !cfg.allWindows
    ensures Emitted(rows, cfg) == Flagged(rows)
  {
    if rows != [] {
      EmittedIsFlagged(rows[..|rows| - 1], cfg);
      VerdictAt(rows[|rows| - 1], cfg.scoreThreshold, "", "", "");
    }
  }

  /** Raising the threshold never adds a bundle: what it lets through is what it would let through of the rest. */
  lemma {:induction false} RaisingThreshold(rows: seq<Row>, cfg: Config, higher: real)
    requires cfg.scoreThreshold <= higher
    ensures var strict := cfg.(scoreThreshold := higher);
            && Emitted(Emitted(rows, cfg), strict) == Emitted(rows, strict)
            && |Emitted(rows, strict)| <= |Emitted(rows, cfg)|
  {
    if rows != [] {
      var front, row := rows[..|rows| - 1], rows[|rows| - 1];
      RaisingThreshold(front, cfg, higher);
      assert (Emitted(front, cfg) + [row])[..|Emitted(front, cfg)|] == Emitted(front, cfg);
    }
  }

  /** The bundle says of its row what the row says of itself. */
  predicate Tells(b: Bundle, row: Row, cfg: Config) {
    && b.id == row.id && b.feats == row.feats && b.windowStart == row.ts
    && b.cluster == row.cluster && b.logs == row.logs && b.injected == row.injected && b.faultType == row.faultType
    && (row.end.Some? ==> b.windowEnd == row.end)
    && (row.end.None? && row.ts.Some? && row.ts.value + cfg.windowSeconds > 0.0 ==>
          b.windowEnd == Some(row.ts.value + cfg.windowSeconds))
    && b.votes.threshold == ThresholdVote(row.feats.anomalyScore, cfg.hi, cfg.mid)
    && b.votes.weakLabel == QuickWeakVote(row.feats, b.baseline, b.duration)
  }

  predicate AllTell(out: seq<Bundle>, rows: seq<Row>, cfg: Config) {
    |out| == |rows| && forall i | 0 <= i < |rows| :: Tells(out[i], rows[i], cfg)
  }

  lemma {:induction false} StreamTells(rows: seq<Row>, cfg: Config)
    ensures |Stream(rows, cfg)| == |Emitted(rows, cfg)|
    ensures forall i | 0 <= i < |Emitted(rows, cfg)| :: Stream(rows, cfg)[i].row == Emitted(rows, cfg)[i]
  {
    if rows != [] {
      StreamTells(rows[..|rows| - 1], cfg);
    }
  }

  /** The builder: one mutable state per identity, shared by all the interleaved rows. */
  method BundlesFromRows(rows: seq<Row>, cfg: Config) returns (out: seq<Bundle>)
    ensures out == Bundles(Stream(rows, cfg), cfg)
    ensures AllTell(out, Emitted(rows, cfg), cfg)
    ensures AllBool(rows) && !cfg.allWindows ==> AllTell(out, Flagged(rows), cfg)
    ensures cfg.allWindows ==> AllTell(out, rows, cfg)
  {
    out := [];
    var state: map<Key, IdentityState> := map[];
    for i := 0 to |rows|
      invariant out == Bundles(Stream(rows[..i], cfg), cfg)
      invariant fresh(state.Values) && Tracks(state, rows[..i], cfg)
    {
      var c;
      state, c := Feed(state, rows[i], cfg, rows[..i]);
      assert rows[..i + 1] == rows[..i] + [rows[i]];
      if c.Some? {
        BundlesAppend(Stream(rows[..i], cfg), c.value, cfg);
        out := out + [MakeBundle(c.value, cfg)];
      }
    }
    assert rows[..|rows|] == rows;
    BundlesTell(rows, cfg);
  }

  lemma BundleTells(c: Case, cfg: Config)
    ensures Tells(MakeBundle(c, cfg), c.row, cfg)
  {
  }

  lemma CasesTell(cases: seq<Case>, rows: seq<Row>, cfg: Config)
    requires |cases| == |rows| && forall i | 0 <= i < |rows| :: cases[i].row == rows[i]
    ensures AllTell(Bundles(cases, cfg), rows, cfg)
  {
    forall i | 0 <= i < |rows| ensures Tells(Bundles(cases, cfg)[i], rows[i], cfg) {
      BundleTells(cases[i], cfg);
    }
  }

  lemma BundlesTell(rows: seq<Row>, cfg: Config)
    ensures var out := Bundles(Stream(rows, cfg), cfg);
            && AllTell(out, Emitted(rows, cfg), cfg)
            && (AllBool(rows) && !cfg.allWindows ==> AllTell(out, Flagged(rows), cfg))
            && (cfg.allWindows ==> AllTell(out, rows, cfg))
  {
    StreamTells(rows, cfg);
    CasesTell(Stream(rows, cfg), Emitted(rows, cfg), cfg);
    if AllBool(rows) && !cfg.allWindows {
      EmittedIsFlagged(rows, cfg);
    }
    if cfg.allWindows {
      AllEmitted(rows, cfg);
    }
  }

  lemma {:induction false} AllEmitted(rows: seq<Row>, cfg: Config)
    requires cfg.allWindows
    ensures Emitted(rows, cfg) == rows
  {
    if rows != [] {
      AllEmitted(rows[..|rows| - 1], cfg);
    }
  }

  // ------------------------------------------------------ non-interference

  function OwnCases(cs: seq<Case>, k: Key): seq<Case> {
    if cs == [] then []
    else
      var rest := OwnCases(cs[..|cs| - 1], k);
      if cs[|cs| - 1].row.id == k then rest + [cs[|cs| - 1]] else rest
  }

  lemma {:induction false} OwnIdempotent(rows: seq<Row>, k: Key)
    ensures Own(Own(rows, k), k) == Own(rows, k)
  {
    if rows != [] {
      var front, row := rows[..|rows| - 1], rows[|rows| - 1];
      OwnIdempotent(front, k);
      if row.id == k {
        assert (Own(front, k) + [row])[..|Own(front, k)|] == Own(front, k);
      }
    }
  }

  /** The cases of one identity are those of a run on that identity's rows alone. */
  lemma {:induction false} NonInterference(rows: seq<Row>, k: Key, cfg: Config)
    ensures OwnCases(Stream(rows, cfg), k) == Stream(Own(rows, k), cfg)
  {
    if rows != [] {
      var front, row := rows[..|rows| - 1], rows[|rows| - 1];
      NonInterference(front, k, cfg);
      var cs := Stream(front, cfg);
      if Emits(row, cfg) {
        var st := Step(Fold(Own(front, row.id), cfg), row, cfg);
        var c := Case(row, MeanOf(st.samples), st.run);
        assert (cs + [c])[..|cs|] == cs;
      }
      if row.id == k {
        var mine := Own(front, k) + [row];
        assert mine[..|mine| - 1] == Own(front, k);
        OwnIdempotent(front, k);
      }
    }
  }

  /** How the identities interleave does not matter. */
  lemma InterleavingIrrelevant(rows: seq<Row>, other: seq<Row>, k: Key, cfg: Config)
    requires Own(rows, k) == Own(other, k)
    ensures OwnCases(Stream(rows, cfg), k) == OwnCases(Stream(other, cfg), k)
  {
    NonInterference(rows, k, cfg);
    NonInterference(other, k, cfg);
  }

  // ------------------------------------------------ declarative reference

  /** The timestamped normal rows, as samples. */
  function Normals(rows: seq<Row>, cfg: Config): seq<Sample> {
    if rows == [] then []
    else
      var rest, row := Normals(rows[..|rows| - 1], cfg), rows[|rows| - 1];
      if !Emits(row, cfg) && row.ts.Some? then rest + [Sample(row.ts.value, row.feats)] else rest
  }

  function Since(s: seq<Sample>, cutoff: real): seq<Sample> {
    if s == [] then []
    else
      var rest, x := Since(s[..|s| - 1], cutoff), s[|s| - 1];
      if x.ts >= cutoff then rest + [x] else rest
  }

  /** Every sample within five minutes of the latest one. */
  function Recent(s: seq<Sample>): seq<Sample> {
    if s == [] then [] else Since(s, s[|s| - 1].ts - BASELINE_WINDOW_S)
  }

  /** Length of the block of emitting rows that ends the history. */
  function Block(rows: seq<Row>, cfg: Config): (n: nat)
    ensures n <= |rows|
    ensures forall i | |rows| - n <= i < |rows| :: Emits(rows[i], cfg)
    ensures n < |rows| ==> !Emits(rows[|rows| - n - 1], cfg)
  {
    if rows == [] || !Emits(rows[|rows| - 1], cfg) then 0 else 1 + Block(rows[..|rows| - 1], cfg)
  }

  ghost predicate Ordered(s: seq<Sample>) {
    forall i, j | 0 <= i < j < |s| :: s[i].ts <= s[j].ts
  }

  /** Each identity's timestamped normal rows come in time order. */
  ghost predicate TimeOrdered(rows: seq<Row>, cfg: Config) {
    forall k :: Ordered(Normals(Own(rows, k), cfg))
  }

  /** The reference output: every case computed from the history by definition, not by a machine. */
  function Reference(rows: seq<Row>, cfg: Config): seq<Case> {
    if rows == [] then []
    else
      var front, row := rows[..|rows| - 1], rows[|rows| - 1];
      if Emits(row, cfg) then
        var history := Own(front, row.id);
        Reference(front, cfg) + [Case(row, MeanOf(Recent(Normals(history, cfg))), Block(history, cfg) + 1)]
      else Reference(front, cfg)
  }

  lemma {:induction false} RunIsBlock(rows: seq<Row>, cfg: Config)
    ensures Fold(rows, cfg).run == Block(rows, cfg)
  {
    if rows != [] {
      RunIsBlock(rows[..|rows| - 1], cfg);
    }
  }

  lemma {:induction false} SinceAll(s: seq<Sample>, cutoff: real)
    requires forall i | 0 <= i < |s| :: s[i].ts >= cutoff
    ensures Since(s, cutoff) == s
  {
    if s != [] {
      SinceAll(s[..|s| - 1], cutoff);
    }
  }

  lemma {:induction false} SinceConcat(a: seq<Sample>, b: seq<Sample>, cutoff: real)
    ensures Since(a + b, cutoff) == Since(a, cutoff) + Since(b, cutoff)
  {
    if b == [] {
      assert a + b == a;
    } else {
      SinceConcat(a, b[..|b| - 1], cutoff);
      assert (a + b)[..|a + b| - 1] == a + b[..|b| - 1];
    }
  }

  /** On ordered samples, popping the stale front keeps exactly the recent ones. */
  lemma {:induction false} DropStaleIsSince(s: seq<Sample>, cutoff: real)
    requires Ordered(s)
    ensures DropStale(s, cutoff) == Since(s, cutoff)
  {
    if s != [] && s[0].ts < cutoff {
      DropStaleIsSince(s[1..], cutoff);
      SinceConcat(s[..1], s[1..], cutoff);
      assert s == s[..1] + s[1..];
      assert s[..1][..0] == [];
    } else if s != [] {
      assert forall i | 0 < i < |s| :: s[0].ts <= s[i].ts;
      SinceAll(s, cutoff);
    }
  }

  lemma {:induction false} SinceTwice(s: seq<Sample>, early: real, late: real)
    requires early <= late
    ensures Since(Since(s, early), late) == Since(s, late)
  {
    if s != [] {
      var front, x := s[..|s| - 1], s[|s| - 1];
      SinceTwice(front, early, late);
      if x.ts >= early {
        assert (Since(front, early) + [x])[..|Since(front, early)|] == Since(front, early);
      }
    }
  }

  lemma {:induction false} SinceOrdered(s: seq<Sample>, cutoff: real)
    requires Ordered(s)
    ensures Ordered(Since(s, cutoff))
    ensures forall x | x in Since(s, cutoff) :: x in s
  {
    if s != [] {
      var front := s[..|s| - 1];
      SinceOrdered(front, cutoff);
      forall x | x in Since(front, cutoff) ensures x.ts <= s[|s| - 1].ts { }
    }
  }

  /** Pushing the next sample onto a recent window gives the recent window again. */
  lemma RecentStep(before: seq<Sample>, x: Sample)
    requires Ordered(before + [x])
    ensures DropStale(Recent(before) + [x], x.ts - BASELINE_WINDOW_S) == Recent(before + [x])
  {
    var cutoff, kept := x.ts - BASELINE_WINDOW_S, Recent(before);
    OrderedFront(before, x);
    KeptOrdered(before, x);
    DropStaleIsSince(kept + [x], cutoff);
    SinceConcat(kept, [x], cutoff);
    SinceConcat(before, [x], cutoff);
    KeptSince(before, x);
  }

  lemma KeptSince(before: seq<Sample>, x: Sample)
    requires forall y | y in before :: y.ts <= x.ts
    ensures Since(Recent(before), x.ts - BASELINE_WINDOW_S) == Since(before, x.ts - BASELINE_WINDOW_S)
  {
    if before != [] {
      SinceTwice(before, before[|before| - 1].ts - BASELINE_WINDOW_S, x.ts - BASELINE_WINDOW_S);
    }
  }

  lemma OrderedFront(before: seq<Sample>, x: Sample)
    requires Ordered(before + [x])
    ensures Ordered(before) && forall y | y in before :: y.ts <= x.ts
  {
    var all := before + [x];
    assert forall i | 0 <= i < |before| :: all[i] == before[i] && all[i].ts <= all[|before|].ts;
  }

  lemma KeptOrdered(before: seq<Sample>, x: Sample)
    requires Ordered(before) && forall y | y in before :: y.ts <= x.ts
    ensures Ordered(Recent(before) + [x])
  {
    if before != [] {
      SinceOrdered(before, before[|before| - 1].ts - BASELINE_WINDOW_S);
    }
  }

  /** The deque holds the recent normals, anchored at the latest normal row and not at the anomaly. */
  lemma {:induction false} WindowIsRecent(rows: seq<Row>, cfg: Config)
    requires Ordered(Normals(rows, cfg))
    ensures Fold(rows, cfg).samples == Recent(Normals(rows, cfg))
  {
    if rows != [] {
      var front, row := rows[..|rows| - 1], rows[|rows| - 1];
      var before := Normals(front, cfg);
      if !Emits(row, cfg) && row.ts.Some? {
        var x := Sample(row.ts.value, row.feats);
        assert Ordered(before) by {
          assert forall i | 0 <= i < |before| :: before[i] == (before + [x])[i];
        }
        WindowIsRecent(front, cfg);
        RecentStep(before, x);
      } else {
        WindowIsRecent(front, cfg);
      }
    }
  }

  lemma NormalsPrefix(rows: seq<Row>, k: Key, cfg: Config)
    requires rows != []
    requires Ordered(Normals(Own(rows, k), cfg))
    ensures Ordered(Normals(Own(rows[..|rows| - 1], k), cfg))
  {
    var mine, before := Own(rows, k), Own(rows[..|rows| - 1], k);
    if mine != before {
      assert mine[..|mine| - 1] == before;
      var a, b := Normals(before, cfg), Normals(mine, cfg);
      assert forall i | 0 <= i < |a| :: a[i] == b[i];
    }
  }

  /** Main theorem: on time-ordered rows the streaming builder meets the reference, bundle by bundle and in order. */
  lemma {:induction false} StreamMeetsReference(rows: seq<Row>, cfg: Config)
    requires TimeOrdered(rows, cfg)
    ensures Stream(rows, cfg) == Reference(rows, cfg)
  {
    if rows != [] {
      var front, row := rows[..|rows| - 1], rows[|rows| - 1];
      forall k ensures Ordered(Normals(Own(front, k), cfg)) { NormalsPrefix(rows, k, cfg); }
      StreamMeetsReference(front, cfg);
      RunIsBlock(Own(front, row.id), cfg);
      WindowIsRecent(Own(front, row.id), cfg);
    }
  }

  /** A sample leaves the window when it is more than five minutes older than the row that is pushed. */
  lemma WindowEdge(x: Sample, ts: real, f: Features)
    ensures var st := Push(State([x], 0), Some(ts), f);
            st.samples == if ts - x.ts <= 300.0 then [x, Sample(ts, f)] else [Sample(ts, f)]
  {
    var y := Sample(ts, f);
    assert [x] + [y] == [x, y] && [x, y][1..] == [y];
    assert DropStale([y], ts - BASELINE_WINDOW_S) == [y];
  }

  /** Time order is needed: one late row and a stale sample outlives the window. */
  lemma StaleSampleSurvives(f: Features)
    ensures var late, early, last := Sample(400.0, f), Sample(0.0, f), Sample(350.0, f);
            var st := Push(Push(Push(State([], 0), Some(400.0), f), Some(0.0), f), Some(350.0), f);
            && st.samples == [late, early, last]
            && Recent([late, early, last]) == [late, last]
  {
    var late, early, last := Sample(400.0, f), Sample(0.0, f), Sample(350.0, f);
    var all := [late, early, last];
    var s1 := Push(State([], 0), Some(400.0), f);
    assert s1.samples == [late] by { assert [] + [late] == [late]; }
    var s2 := Push(s1, Some(0.0), f);
    assert s2.samples == [late, early] by { assert [late] + [early] == [late, early]; }
    var s3 := Push(s2, Some(350.0), f);
    assert s3.samples == all by { assert [late, early] + [last] == all; }
    assert Since([late], 50.0) == [late];
    assert Since([late, early], 50.0) == [late] by { assert [late, early][..1] == [late]; }
    assert all[..2] == [late, early];
  }

  /** With every window emitted nothing is ever a baseline, and the duration just counts the identity's windows. */
  lemma {:induction false} AllWindowsLearnsNothing(rows: seq<Row>, cfg: Config)
    requires cfg.allWindows
    ensures Fold(rows, cfg) == State([], |rows|)
  {
    if rows != [] {
      AllWindowsLearnsNothing(rows[..|rows| - 1], cfg);
    }
  }
}
