/**
 What each counter is credited, from the events alone: whatever the handlers
 and the drains do in between, over any stretch of any run.
 */
module Attribution {
  import opened CounterMap
  import opened DiskWindows
  import opened Kernel
  import opened OnCpu
  import opened Windows

  // ------------------------------------------------------ amounts of events

  /** The sum of an amount over the events in [a, b). */
  function Amount(es: seq<Event>, a: nat, b: nat, of: Event -> nat): nat
    requires b <= |es|
  {
    if b <= a then 0 else Amount(es, a, b - 1, of) + of(es[b - 1])
  }

  /** The bytes of the requests that cgroup `k` issued: its writes, or all its others. */
  function Moved(k: nat, write: bool): Event -> nat {
    (e: Event) => match e case Issue(cg, _, _, bytes, w) => (if cg == k && w == write then bytes else 0) case _ => 0
  }

  function DiskSig(write: bool): Sig {
    if write then CDiskW else CDiskR
  }

  /** Its context switches. */
  function Switches(k: nat): Event -> nat {
    (e: Event) => match e case Switch(cg, _, _) => (if cg == k then 1 else 0) case _ => 0
  }

  /** What the one-counter handlers counted of signal `s`. */
  function Bumped(s: Sig, k: nat): Event -> nat {
    (e: Event) => match e case Bump(s', cg, d) => (if s' == s && cg == k then d else 0) case _ => 0
  }

  // ----------------------------------------------------------- attribution

  function Credit(op: Op, k: nat): nat {
    if Hits(op, k) then op.d else 0
  }

  lemma {:induction false} SumIsAmount(ops: seq<Op>, es: seq<Event>, a: nat, b: nat, k: nat, of: Event -> nat)
    requires |ops| == |es| && a <= b <= |es| && forall n | a <= n < b :: Credit(ops[n], k) == of(es[n])
    ensures SumIn(ops, a, b, k) == Amount(es, a, b, of)
  {
    if a < b {
      SumIsAmount(ops, es, a, b - 1, k, of);
      SumStep(ops, a, b, k);
    }
  }

  lemma SumStep(ops: seq<Op>, a: nat, b: nat, k: nat)
    requires a < b <= |ops|
    ensures SumIn(ops, a, b, k) == SumIn(ops, a, b - 1, k) + Credit(ops[b - 1], k)
  {
  }

  lemma EventCredits(f: Flight, e: Event, k: nat)
    requires (e.Bump? ==> PlainSig(e.sig)) && (e.Drain? ==> !e.op.Inc?)
    ensures Credit(OpOn(f, e, CDiskW), k) == Moved(k, true)(e)
    ensures Credit(OpOn(f, e, CDiskR), k) == Moved(k, false)(e)
    ensures Credit(OpOn(f, e, CCtxSw), k) == Switches(k)(e)
    ensures forall s: Sig | PlainSig(s) :: Credit(OpOn(f, e, s), k) == Bumped(s, k)(e)
  {
  }

  lemma CreditAt(es: seq<Event>, mode: Mode, s: Sig, n: nat, k: nat)
    requires Valid(es, mode) && n < |es|
    ensures s == CDiskW ==> Credit(Ops(es, mode, s)[n], k) == Moved(k, true)(es[n])
    ensures s == CDiskR ==> Credit(Ops(es, mode, s)[n], k) == Moved(k, false)(es[n])
    ensures s == CCtxSw ==> Credit(Ops(es, mode, s)[n], k) == Switches(k)(es[n])
    ensures PlainSig(s) ==> Credit(Ops(es, mode, s)[n], k) == Bumped(s, k)(es[n])
  {
    OpAt(es, mode, s, n);
    EnabledAt(es, mode, n);
    EventCredits(Run(es[..n], mode).flight, es[n], k);
  }

  /** The write counter of a cgroup is credited the bytes of its write requests, the read counter those of its other
      requests. */
  lemma DiskBytes(es: seq<Event>, mode: Mode, write: bool, a: nat, b: nat, k: nat)
    requires Valid(es, mode) && a <= b <= |es|
    ensures SumIn(Ops(es, mode, DiskSig(write)), a, b, k) == Amount(es, a, b, Moved(k, write))
  {
    var s := DiskSig(write);
    forall n: nat | a <= n < b ensures Credit(Ops(es, mode, s)[n], k) == Moved(k, write)(es[n]) {
      CreditAt(es, mode, s, n, k);
    }
    SumIsAmount(Ops(es, mode, s), es, a, b, k, Moved(k, write));
  }

  /** The switch counter is credited once per switch of the cgroup. */
  lemma SwitchCount(es: seq<Event>, mode: Mode, a: nat, b: nat, k: nat)
    requires Valid(es, mode) && a <= b <= |es|
    ensures SumIn(Ops(es, mode, CCtxSw), a, b, k) == Amount(es, a, b, Switches(k))
  {
    forall n: nat | a <= n < b ensures Credit(Ops(es, mode, CCtxSw)[n], k) == Switches(k)(es[n]) {
      CreditAt(es, mode, CCtxSw, n, k);
    }
    SumIsAmount(Ops(es, mode, CCtxSw), es, a, b, k, Switches(k));
  }

  /** Each of the plain counters is credited what its own handlers counted for the cgroup, and nothing else. */
  lemma PlainCount(es: seq<Event>, mode: Mode, s: Sig, a: nat, b: nat, k: nat)
    requires Valid(es, mode) && a <= b <= |es| && PlainSig(s)
    ensures SumIn(Ops(es, mode, s), a, b, k) == Amount(es, a, b, Bumped(s, k))
  {
    forall n: nat | a <= n < b ensures Credit(Ops(es, mode, s)[n], k) == Bumped(s, k)(es[n]) {
      CreditAt(es, mode, s, n, k);
    }
    SumIsAmount(Ops(es, mode, s), es, a, b, k, Bumped(s, k));
  }

  /** CPU time goes to the cgroup that the switch names: the time since the latest switch on its CPU, as long as that
      one was recorded. */
  lemma CpuTimeAt(es: seq<Event>, mode: Mode, cg: nat, cpu: nat, now: nat, k: nat)
    requires Valid(es, mode)
    ensures var f := Run(es, mode).flight;
            Credit(OpOn(f, Switch(cg, cpu, now), CCpu), k) ==
            if cg == k && cpu in f.cpuLast then (now - LastSwitch(es, cpu)) % U64 else 0
  {
    var last := RecordedAt(es, mode, Switch(cg, cpu, now));
    CpuCreditOf(Run(es, mode).flight, Switch(cg, cpu, now), last, k);
  }

  lemma RecordedAt(es: seq<Event>, mode: Mode, e: Event) returns (last: int)
    requires Valid(es, mode)
    ensures e.Switch? ==> last == LastSwitch(es, e.cpu)
    ensures e.Switch? && e.cpu in Run(es, mode).flight.cpuLast ==> last == Run(es, mode).flight.cpuLast[e.cpu]
  {
    last := 0;
    if e.Switch? {
      last := LastSwitch(es, e.cpu);
      LastIsRecorded(es, mode, e.cpu);
    }
  }

  lemma CpuCreditOf(f: Flight, e: Event, last: int, k: nat)
    requires (e.Bump? ==> PlainSig(e.sig)) && (e.Drain? ==> !e.op.Inc?)
    requires e.Switch? && e.cpu in f.cpuLast ==> last == f.cpuLast[e.cpu]
    ensures Credit(OpOn(f, e, CCpu), k) ==
            if e.Switch? && e.cg == k && e.cpu in f.cpuLast then (e.now - last) % U64 else 0
  {
  }

  /** So the window a byte counter's drain hands over, interrupted at any step, holds the bytes the cgroup wrote, or
      read, between its last removal from that map and its read there. */
  lemma WindowBytes(es: seq<Event>, mode: Mode, write: bool, d: Span, k: nat)
    requires var s := DiskSig(write);
             && Valid(es, mode) && IsDrain(Ops(es, mode, s), d) && TakesHeld(es, mode, s, d, k)
             && RoomIn(es, mode, s, k)
    ensures var ops := Ops(es, mode, DiskSig(write));
            var p := ReadPos(ops, d, k);
            At(Handed(es, mode, DiskSig(write), d), k) == Amount(es, LastOut(ops, p, k), p, Moved(k, write)) % U64
  {
    var s := DiskSig(write);
    var p := ReadPos(Ops(es, mode, s), d, k);
    HandedTells(es, mode, s, d, k);
    DiskBytes(es, mode, write, LastOut(Ops(es, mode, s), p, k), p, k);
  }
}
