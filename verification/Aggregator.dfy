/** The window aggregator of collector/feature_aggregator.py. */
module Aggregator {
  import Text

  datatype Id = Id(namespace: string, pod: string, container: string)

  type Bucket = map<string, real>

  datatype Record = Record(id: Id, windowStart: real, features: Bucket)

  datatype State = State(acc: map<Id, Bucket>, windowStart: real)

  function Get(b: Bucket, name: string): real {
    if name in b then b[name] else 0.0
  }

  predicate IsRate(col: string) {
    Text.EndsWith(col, "_rate")
  }

  /** The columns divided by the window are those whose name ends in "_rate"; of the collector's columns, the first
      five. */
  lemma RateColumns(stem: string, col: string)
    ensures IsRate(stem + "_rate")
    ensures IsRate(col) ==> |col| >= 5 && col == col[..|col| - 5] + "_rate"
    ensures var rates := {"syscall_read_rate", "syscall_write_rate", "syscall_open_rate", "tcp_connect_rate",
                          "tcp_retransmit_rate"};
            col in rates ==> IsRate(col)
    ensures var sums := {"network_rx_bytes", "network_tx_bytes", "disk_read_bytes", "disk_write_bytes",
                         "disk_io_latency_ms", "process_exec_count", "process_fork_count", "context_switch_count",
                         "cpu_utilization"};
            col in sums ==> !IsRate(col)
  {
    assert (stem + "_rate")[|stem|..] == "_rate";
    assert "syscall_read_rate"[12..] == "_rate" && "syscall_write_rate"[13..] == "_rate";
    assert "syscall_open_rate"[12..] == "_rate" && "tcp_connect_rate"[11..] == "_rate";
    assert "tcp_retransmit_rate"[14..] == "_rate";
    if IsRate(col) {
      assert col[|col| - 1] == col[|col| - 5..][4] == 'e' && col[|col| - 3] == col[|col| - 5..][2] == 'a';
    }
  }

  /** Name-wise sum of a bucket and a sample. */
  function Sum(b: Bucket, values: Bucket): Bucket {
    map name | name in b.Keys + values.Keys :: Get(b, name) + Get(values, name)
  }

  function BucketOf(st: State, id: Id): Bucket {
    if id in st.acc then st.acc[id] else map[]
  }

  function Add(st: State, id: Id, values: Bucket): State {
    st.(acc := st.acc[id := Sum(BucketOf(st, id), values)])
  }

  /** The divisor of a flush that reads the clock at `c`. */
  function WindowLen(st: State, c: real): (len: real)
    ensures len > 0.0
  {
    if c - st.windowStart < 0.000000001 then 0.000000001 else c - st.windowStart
  }

  /** One identity's feature vector: rates per second, everything else summed. */
  function Vector(b: Bucket, order: seq<string>, len: real): Bucket
    requires len > 0.0
  {
    map col | col in order :: if IsRate(col) then Get(b, col) / len else Get(b, col)
  }

  class WindowAggregator {
    const windowSeconds: real
    const order: seq<string>
    var acc: map<Id, Bucket>
    var windowStart: real

    constructor (windowSeconds: real, order: seq<string>, now: real)
      ensures this.windowSeconds == windowSeconds && this.order == order
      ensures Value() == State(map[], now)
    {
      this.windowSeconds, this.order := windowSeconds, order;
      acc, windowStart := map[], now;
    }

    ghost function Value(): State
      reads this
    {
      State(acc, windowStart)
    }

    method AddSample(id: Id, values: Bucket)
      modifies this
      ensures Value() == Add(old(Value()), id, values)
    {
      var bucket: Bucket := if id in acc then acc[id] else map[];
      ghost var before := bucket;
      var todo := values.Keys;
      while todo != {}
        invariant todo <= values.Keys
        invariant bucket.Keys == before.Keys + (values.Keys - todo)
        invariant forall name | name in bucket ::
            bucket[name] == Get(before, name) + if name in todo then 0.0 else Get(values, name)
        decreases todo
      {
        var name :| name in todo;
        bucket := bucket[name := Get(bucket, name) + values[name]];
        todo := todo - {name};
      }
      assert bucket == Sum(before, values);
      acc := acc[id := bucket];
    }

    /** `c1`, `c2` and `c3` are the clock readings of the window test, of the divisor and of the new window start. */
    method MaybeFlush(force: bool, c1: real, c2: real, c3: real) returns (out: seq<Record>)
      modifies this
      ensures Value() == After(old(Value()), windowSeconds, force, c1, c3)
      ensures !force && c1 < old(windowStart) + windowSeconds ==> out == [] && Value() == old(Value())
      ensures force || c1 >= old(windowStart) + windowSeconds ==> acc == map[] && windowStart == c3
      ensures !Due(old(Value()), windowSeconds, force, c1) ==> out == []
      ensures Due(old(Value()), windowSeconds, force, c1) ==>
              Emits(out, old(Value()), order, WindowLen(old(Value()), c2))
    {
      assert Value() == State(acc, windowStart);
      if !force && c1 - windowStart < windowSeconds {
        return [];
      }
      out := Flush(c2, c3);
    }

    method Features(bucket: Bucket, windowLen: real) returns (feats: Bucket)
      requires windowLen > 0.0
      ensures feats == Vector(bucket, order, windowLen)
    {
      feats := map[];
      for k := 0 to |order|
        invariant feats == Vector(bucket, order[..k], windowLen)
      {
        var raw := Get(bucket, order[k]);
        feats := feats[order[k] := if IsRate(order[k]) then raw / windowLen else raw];
        assert order[..k + 1] == order[..k] + [order[k]];
      }
      assert order[..|order|] == order;
    }

    method Flush(c2: real, c3: real) returns (out: seq<Record>)
      modifies this
      ensures Value() == State(map[], c3)
      ensures Emits(out, old(Value()), order, WindowLen(old(Value()), c2))
    {
      var windowLen := if c2 - windowStart < 0.000000001 then 0.000000001 else c2 - windowStart;
      ghost var st := Value();
      out := [];
      var todo := acc.Keys;
      while todo != {}
        invariant Value() == st
        invariant todo <= acc.Keys && EmitsAllBut(out, st, order, windowLen, todo)
        decreases todo
      {
        var id :| id in todo;
        var feats := Features(acc[id], windowLen);
        EmitStep(out, st, order, windowLen, todo, id);
        out := out + [Record(id, windowStart, feats)];
        todo := todo - {id};
      }
      acc := map[];
      windowStart := c3;
    }
  }

  /** One record per accumulated identity outside `todo`, and no other. */
  ghost predicate EmitsAllBut(out: seq<Record>, st: State, order: seq<string>, len: real, todo: set<Id>)
    requires len > 0.0
  {
    && (forall i | 0 <= i < |out| :: out[i].id in st.acc && out[i].id !in todo)
    && (forall i | 0 <= i < |out| ::
          out[i] == Record(out[i].id, st.windowStart, Vector(BucketOf(st, out[i].id), order, len)))
    && (forall i, j | 0 <= i < j < |out| :: out[i].id != out[j].id)
    && (forall id | id in st.acc && id !in todo :: exists i | 0 <= i < |out| :: out[i].id == id)
  }

  lemma EmitStep(out: seq<Record>, st: State, order: seq<string>, len: real, todo: set<Id>, id: Id)
    requires len > 0.0 && id in todo && todo <= st.acc.Keys && EmitsAllBut(out, st, order, len, todo)
    ensures EmitsAllBut(out + [Record(id, st.windowStart, Vector(BucketOf(st, id), order, len))],
                        st, order, len, todo - {id})
  {
    var more := out + [Record(id, st.windowStart, Vector(BucketOf(st, id), order, len))];
    assert more[|out|].id == id;
    forall x | x in st.acc && x !in todo - {id} ensures exists i | 0 <= i < |more| :: more[i].id == x {
      if x != id {
        var i :| 0 <= i < |out| && out[i].id == x;
        assert more[i].id == x;
      }
    }
  }

  /** Whether a call closes the window. */
  predicate Due(st: State, windowSeconds: real, force: bool, c1: real) {
    force || c1 - st.windowStart >= windowSeconds
  }

  function After(st: State, windowSeconds: real, force: bool, c1: real, c3: real): State {
    if Due(st, windowSeconds, force, c1) then State(map[], c3) else st
  }

  /** One record per accumulated identity, and no other. */
  ghost predicate Emits(out: seq<Record>, st: State, order: seq<string>, len: real)
    requires len > 0.0
  {
    EmitsAllBut(out, st, order, len, {})
  }

  /** What a flushed record says of a listed column: the identity's sum, per second for a rate. */
  lemma RecordSays(out: seq<Record>, st: State, order: seq<string>, len: real, i: nat, stem: string, col: string)
    requires len > 0.0 && Emits(out, st, order, len) && i < |out|
    ensures stem + "_rate" in order ==>
              && stem + "_rate" in out[i].features
              && out[i].features[stem + "_rate"] == Get(BucketOf(st, out[i].id), stem + "_rate") / len
    ensures col in order && (|col| < 5 || col[|col| - 5..] != "_rate") ==>
              col in out[i].features && out[i].features[col] == Get(BucketOf(st, out[i].id), col)
  {
    RateColumns(stem, col);
  }

  // ----------------------------------------------------------------- runs

  datatype Op =
    | Sample(id: Id, values: Bucket)
    | Tick(force: bool, c1: real, c2: real, c3: real, out: seq<Record>)

  function Next(st: State, op: Op, windowSeconds: real): State {
    match op
    case Sample(id, values) => Add(st, id, values)
    case Tick(force, c1, _, c3, _) => After(st, windowSeconds, force, c1, c3)
  }

  /** The records listed in the step are ones the aggregator may return there. */
  ghost predicate Possible(st: State, op: Op, windowSeconds: real, order: seq<string>) {
    op.Tick? ==>
      if Due(st, windowSeconds, op.force, op.c1) then Emits(op.out, st, order, WindowLen(st, op.c2)) else op.out == []
  }

  function Run(ops: seq<Op>, start: State, windowSeconds: real): State {
    if ops == [] then start
    else Next(Run(ops[..|ops| - 1], start, windowSeconds), ops[|ops| - 1], windowSeconds)
  }

  ghost predicate Legal(ops: seq<Op>, start: State, windowSeconds: real, order: seq<string>) {
    forall i | 0 <= i < |ops| :: Possible(Run(ops[..i], start, windowSeconds), ops[i], windowSeconds, order)
  }

  /** What the samples put in for one identity and feature. */
  function AddedBy(ops: seq<Op>, id: Id, col: string): real {
    if ops == [] then 0.0
    else
      var op := ops[|ops| - 1];
      AddedBy(ops[..|ops| - 1], id, col) + if op.Sample? && op.id == id then Get(op.values, col) else 0.0
  }

  /** A feature value turned back into what was summed: rates times the window length. */
  function Unscaled(x: real, col: string, len: real): real {
    if IsRate(col) then x * len else x
  }

  /** What one batch of records carries for an identity and feature, rates multiplied back by the window length. */
  function Carried(out: seq<Record>, id: Id, col: string, len: real): real {
    if out == [] then 0.0
    else
      var r := out[|out| - 1];
      Carried(out[..|out| - 1], id, col, len)
      + if r.id == id then Unscaled(Get(r.features, col), col, len) else 0.0
  }

  function EmittedBy(ops: seq<Op>, start: State, windowSeconds: real, id: Id, col: string): real {
    if ops == [] then 0.0
    else
      var front, op := ops[..|ops| - 1], ops[|ops| - 1];
      EmittedBy(front, start, windowSeconds, id, col)
      + if op.Tick? then Carried(op.out, id, col, WindowLen(Run(front, start, windowSeconds), op.c2)) else 0.0
  }

  lemma DivMul(x: real, len: real)
    requires len > 0.0
    ensures x / len * len == x
  {
  }

  /** A batch without the identity carries nothing for it. */
  lemma {:induction false} CarriesNothing(out: seq<Record>, id: Id, col: string, len: real)
    requires forall i | 0 <= i < |out| :: out[i].id != id
    ensures Carried(out, id, col, len) == 0.0
  {
    if out != [] {
      CarriesNothing(out[..|out| - 1], id, col, len);
    }
  }

  /** A batch with the identity once carries exactly that record's share. */
  lemma {:induction false} CarriesOne(out: seq<Record>, i: nat, id: Id, col: string, len: real)
    requires i < |out| && out[i].id == id
    requires forall a, b | 0 <= a < b < |out| :: out[a].id != out[b].id
    ensures Carried(out, id, col, len)
         == Unscaled(Get(out[i].features, col), col, len)
  {
    var n := |out| - 1;
    if i == n {
      CarriesNothing(out[..n], id, col, len);
    } else {
      CarriesOne(out[..n], i, id, col, len);
    }
  }

  lemma VectorUnscaled(b: Bucket, order: seq<string>, len: real, col: string)
    requires len > 0.0 && col in order
    ensures Unscaled(Get(Vector(b, order, len), col), col, len) == Get(b, col)
  {
    DivMul(Get(b, col), len);
  }

  /** A flush hands over exactly what was resident. */
  lemma FlushCarriesResident(out: seq<Record>, st: State, order: seq<string>, len: real, id: Id, col: string)
    requires len > 0.0 && Emits(out, st, order, len) && col in order
    ensures Carried(out, id, col, len) == Get(BucketOf(st, id), col)
  {
    if id in st.acc {
      var i :| 0 <= i < |out| && out[i].id == id;
      CarriesOne(out, i, id, col, len);
      VectorUnscaled(st.acc[id], order, len, col);
    } else {
      CarriesNothing(out, id, col, len);
    }
  }

  /** Conservation over every run: what was added for a listed feature is emitted or still resident. */
  lemma {:induction false} Conservation(ops: seq<Op>, start: State, windowSeconds: real, order: seq<string>,
                                        id: Id, col: string)
    requires start.acc == map[] && col in order
    requires Legal(ops, start, windowSeconds, order)
    ensures AddedBy(ops, id, col)
         == EmittedBy(ops, start, windowSeconds, id, col) + Get(BucketOf(Run(ops, start, windowSeconds), id), col)
  {
    if ops != [] {
      var n := |ops| - 1;
      var front, op := ops[..n], ops[n];
      forall i | 0 <= i < n ensures Possible(Run(front[..i], start, windowSeconds), front[i], windowSeconds, order) {
        assert front[..i] == ops[..i];
      }
      Conservation(front, start, windowSeconds, order, id, col);
      var st := Run(front, start, windowSeconds);
      assert Possible(st, op, windowSeconds, order);
      if op.Tick? && Due(st, windowSeconds, op.force, op.c1) {
        FlushCarriesResident(op.out, st, order, WindowLen(st, op.c2), id, col);
      }
    }
  }

  /** With a clock that does not run backwards, an unforced flush divides by a full window at least. */
  lemma UnforcedWindowFull(st: State, windowSeconds: real, c1: real, c2: real)
    requires c1 <= c2 && Due(st, windowSeconds, false, c1)
    ensures WindowLen(st, c2) >= windowSeconds
  {
  }

  /** A feature outside the listed order is dropped by the first flush that meets it. */
  lemma UnlistedDropped(out: seq<Record>, st: State, order: seq<string>, len: real, id: Id, col: string)
    requires len > 0.0 && Emits(out, st, order, len) && col !in order
    ensures Carried(out, id, col, len) == 0.0
  {
    if id in st.acc {
      var i :| 0 <= i < |out| && out[i].id == id;
      CarriesOne(out, i, id, col, len);
    } else {
      CarriesNothing(out, id, col, len);
    }
  }
}
