/**
 On-CPU time over whole runs of collector-go: what `tp_switch` credits to all
 cgroups together is what the CPUs spent between their first and latest
 recorded switches, however often and in whatever order the counter map is
 drained.
 */
module OnCpu {
  import opened CounterMap
  import opened Kernel
  import opened Totals

  // -------------------------------------------------- clocks, from events

  /** When `cpu` last switched, from the events alone. */
  function LastSwitch(es: seq<Event>, cpu: nat): int {
    if es == [] then -1
    else
      var e := es[|es| - 1];
      if e.Switch? && e.cpu == cpu then e.now else LastSwitch(es[..|es| - 1], cpu)
  }

  function FirstSwitch(es: seq<Event>, cpu: nat): int {
    if es == [] then -1
    else
      var before := FirstSwitch(es[..|es| - 1], cpu);
      var e := es[|es| - 1];
      if before == -1 && e.Switch? && e.cpu == cpu then e.now else before
  }

  /** Each CPU's clock is 64 bits wide and never runs backwards. */
  predicate ClocksForward(es: seq<Event>) {
    es == [] ||
    var front, e := es[..|es| - 1], es[|es| - 1];
    ClocksForward(front) && (e.Switch? ==> LastSwitch(front, e.cpu) <= e.now < U64)
  }

  /** What the timestamps map holds for a CPU is its latest switch; a CPU missing from it never got in. */
  lemma {:induction false} LastIsRecorded(es: seq<Event>, mode: Mode, cpu: nat)
    requires Valid(es, mode)
    ensures cpu in Run(es, mode).flight.cpuLast ==>
              Run(es, mode).flight.cpuLast[cpu] == LastSwitch(es, cpu) && FirstSwitch(es, cpu) >= 0
    ensures cpu !in Run(es, mode).flight.cpuLast ==>
              FirstSwitch(es, cpu) == -1 || |Run(es, mode).flight.cpuLast| >= MaxCpus(mode)
  {
    if es != [] {
      LastIsRecorded(es[..|es| - 1], mode, cpu);
    }
  }

  // --------------------------------------------------------------- spans

  /** Time between a recorded CPU's first and latest switch. */
  function Span(es: seq<Event>, mode: Mode, cpu: nat): int
    requires Valid(es, mode)
  {
    if cpu in Run(es, mode).flight.cpuLast then LastSwitch(es, cpu) - FirstSwitch(es, cpu) else 0
  }

  function SpansBelow(es: seq<Event>, mode: Mode, n: nat): int
    requires Valid(es, mode)
  {
    if n == 0 then 0 else SpansBelow(es, mode, n - 1) + Span(es, mode, n - 1)
  }

  /** What a switch adds on its CPU. */
  function Ran(front: seq<Event>, mode: Mode, e: Event): int
    requires Valid(front, mode)
  {
    if e.Switch? && e.cpu in Run(front, mode).flight.cpuLast then e.now - LastSwitch(front, e.cpu) else 0
  }

  lemma SpanStep(es: seq<Event>, mode: Mode, cpu: nat)
    requires Valid(es, mode) && es != []
    ensures var front, e := es[..|es| - 1], es[|es| - 1];
            Span(es, mode, cpu) == Span(front, mode, cpu) + if e.Switch? && e.cpu == cpu then Ran(front, mode, e) else 0
  {
    LastIsRecorded(es[..|es| - 1], mode, cpu);
    LastIsRecorded(es, mode, cpu);
  }

  lemma {:induction false} SpansStep(es: seq<Event>, mode: Mode, n: nat)
    requires Valid(es, mode) && es != []
    ensures var front, e := es[..|es| - 1], es[|es| - 1];
            SpansBelow(es, mode, n) ==
            SpansBelow(front, mode, n) + if e.Switch? && e.cpu < n then Ran(front, mode, e) else 0
  {
    if n > 0 {
      SpansStep(es, mode, n - 1);
      SpanStep(es, mode, n - 1);
    }
  }

  lemma CpuCredit(f: Flight, e: Event)
    requires e.Bump? ==> PlainSig(e.sig)
    requires e.Drain? ==> !e.op.Inc?
    requires e.Switch? && e.cpu in f.cpuLast ==> f.cpuLast[e.cpu] <= e.now < U64
    ensures Credits(OpOn(f, e, CCpu)) == if e.Switch? && e.cpu in f.cpuLast then e.now - f.cpuLast[e.cpu] else 0
  {
  }

  lemma CreditIsRan(front: seq<Event>, e: Event, mode: Mode)
    requires Valid(front, mode) && Enabled(Run(front, mode), e)
    requires e.Switch? ==> LastSwitch(front, e.cpu) <= e.now < U64
    ensures Credits(OpOn(Run(front, mode).flight, e, CCpu)) == Ran(front, mode, e)
  {
    if e.Switch? {
      LastIsRecorded(front, mode, e.cpu);
    }
    CpuCredit(Run(front, mode).flight, e);
  }

  lemma CreditedStep(es: seq<Event>, mode: Mode)
    requires Valid(es, mode) && es != [] && ClocksForward(es)
    ensures var front, e := es[..|es| - 1], es[|es| - 1];
            TotalInc(Ops(es, mode, CCpu)) == TotalInc(Ops(front, mode, CCpu)) + Ran(front, mode, e)
  {
    var front, e := es[..|es| - 1], es[|es| - 1];
    CreditIsRan(front, e, mode);
    TotalStep(Ops(front, mode, CCpu), OpOn(Run(front, mode).flight, e, CCpu));
  }

  /** The timestamps map never forgets a CPU. */
  lemma RecordedGrows(es: seq<Event>, mode: Mode, cpu: nat)
    requires Valid(es, mode) && es != []
    ensures cpu in Run(es[..|es| - 1], mode).flight.cpuLast ==> cpu in Run(es, mode).flight.cpuLast
  {
  }

  predicate CpusBelow(es: seq<Event>, mode: Mode, n: nat)
    requires Valid(es, mode)
  {
    forall c | c in Run(es, mode).flight.cpuLast :: c < n
  }

  lemma {:induction false} CreditedIsSpans(es: seq<Event>, mode: Mode, cpus: nat)
    requires Valid(es, mode) && ClocksForward(es) && CpusBelow(es, mode, cpus)
    ensures TotalInc(Ops(es, mode, CCpu)) == SpansBelow(es, mode, cpus)
  {
    if es == [] {
      NoSpans(mode, cpus);
    } else {
      var front, e := es[..|es| - 1], es[|es| - 1];
      assert CpusBelow(front, mode, cpus) by {
        forall c | c in Run(front, mode).flight.cpuLast ensures c < cpus { RecordedGrows(es, mode, c); }
      }
      CreditedIsSpans(front, mode, cpus);
      CreditedStep(es, mode);
      SpansStep(es, mode, cpus);
      assert e.Switch? && e.cpu >= cpus ==> Ran(front, mode, e) == 0;
    }
  }

  lemma {:induction false} NoSpans(mode: Mode, n: nat)
    ensures SpansBelow([], mode, n) == 0
  {
    if n > 0 {
      NoSpans(mode, n - 1);
    }
  }

  // --------------------------------------------------------- main results

  /** Every nanosecond a CPU spent between its first and latest recorded switch is in some window, in the drain's
      hands, in the map, or lost to a late credit or a full map; and no other nanosecond is. */
  lemma OnCpuConserved(es: seq<Event>, mode: Mode, cpus: nat, cgroups: nat)
    requires Valid(es, mode) && ClocksForward(es)
    requires CpusBelow(es, mode, cpus)
    requires IdsBelow(Ops(es, mode, CCpu), cgroups)
    requires SpansBelow(es, mode, cpus) < U64
    ensures Legal(Ops(es, mode, CCpu), mode)
    ensures HeldBelow(On(Run(es, mode), CCpu), cgroups) + GoneBelow(Ops(es, mode, CCpu), mode, cgroups) ==
            SpansBelow(es, mode, cpus)
    ensures GoneBelow(Ops(es, mode, CCpu), mode, cgroups) >= 0
  {
    CreditedIsSpans(es, mode, cpus);
    Projection(es, mode, CCpu);
    WholeMapBalances(Ops(es, mode, CCpu), mode, cgroups);
  }

  /** Credited time never exceeds the number of recorded CPUs times the time that passed. */
  lemma OnCpuWithinElapsed(es: seq<Event>, mode: Mode, cpus: nat, cgroups: nat, from: nat, to: nat)
    requires Valid(es, mode) && ClocksForward(es)
    requires CpusBelow(es, mode, cpus)
    requires IdsBelow(Ops(es, mode, CCpu), cgroups)
    requires from <= to && |Run(es, mode).flight.cpuLast| * (to - from) < U64
    requires forall e | e in es :: e.Switch? ==> from <= e.now <= to
    ensures HeldBelow(On(Run(es, mode), CCpu), cgroups) <= |Run(es, mode).flight.cpuLast| * (to - from)
  {
    SpansWithin(es, mode, cpus, from, to);
    var last := Run(es, mode).flight.cpuLast;
    assert RecordedBelow(last, cpus) == last.Keys;
    assert |last.Keys| == |last|;
    OnCpuConserved(es, mode, cpus, cgroups);
  }

  function RecordedBelow(last: Table, n: nat): set<nat> {
    set c | c in last && c < n
  }

  lemma RecordedStep(last: Table, n: nat)
    requires n > 0
    ensures |RecordedBelow(last, n)| == |RecordedBelow(last, n - 1)| + if n - 1 in last then 1 else 0
  {
    var rest := RecordedBelow(last, n - 1);
    assert RecordedBelow(last, n) == if n - 1 in last then rest + {n - 1} else rest;
  }

  lemma {:induction false} SpansWithin(es: seq<Event>, mode: Mode, n: nat, from: nat, to: nat)
    requires Valid(es, mode) && from <= to
    requires forall e | e in es :: e.Switch? ==> from <= e.now <= to
    ensures SpansBelow(es, mode, n) <= |RecordedBelow(Run(es, mode).flight.cpuLast, n)| * (to - from)
  {
    if n > 0 {
      SpansWithin(es, mode, n - 1, from, to);
      SpanWithin(es, mode, n - 1, from, to);
      RecordedStep(Run(es, mode).flight.cpuLast, n);
      OneMore(|RecordedBelow(Run(es, mode).flight.cpuLast, n - 1)|, to - from);
    }
  }

  lemma OneMore(k: nat, d: nat)
    ensures (k + 1) * d == k * d + d
  {
  }

  lemma SpanWithin(es: seq<Event>, mode: Mode, cpu: nat, from: nat, to: nat)
    requires Valid(es, mode) && from <= to
    requires forall e | e in es :: e.Switch? ==> from <= e.now <= to
    ensures Span(es, mode, cpu) <= if cpu in Run(es, mode).flight.cpuLast then to - from else 0
  {
    LastIsRecorded(es, mode, cpu);
    SwitchesWithin(es, cpu, from, to);
  }

  lemma {:induction false} SwitchesWithin(es: seq<Event>, cpu: nat, from: nat, to: nat)
    requires forall e | e in es :: e.Switch? ==> from <= e.now <= to
    ensures LastSwitch(es, cpu) == -1 <==> FirstSwitch(es, cpu) == -1
    ensures LastSwitch(es, cpu) != -1 ==> from <= FirstSwitch(es, cpu) && LastSwitch(es, cpu) <= to
  {
    if es != [] {
      assert es[|es| - 1] in es;
      SwitchesWithin(es[..|es| - 1], cpu, from, to);
    }
  }
}
