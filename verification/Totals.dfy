/**
 The books of one counter map added up over all its cgroups.
 */
module Totals {
  import opened CounterMap

  function Credits(op: Op): nat {
    if op.Inc? then op.d else 0
  }

  /** Everything the kernel credited to the map, whatever the cgroup. */
  function TotalInc(ops: seq<Op>): nat {
    if ops == [] then 0 else TotalInc(ops[..|ops| - 1]) + Credits(ops[|ops| - 1])
  }

  lemma TotalStep(ops: seq<Op>, op: Op)
    ensures TotalInc(ops + [op]) == TotalInc(ops) + Credits(op)
  {
    assert (ops + [op])[..|ops|] == ops;
  }

  predicate IdsBelow(ops: seq<Op>, n: nat) {
    forall op | op in ops :: op.Inc? ==> op.k < n
  }

  function CreditedBelow(ops: seq<Op>, mode: Mode, n: nat): nat
    requires Legal(ops, mode)
  {
    if n == 0 then 0 else CreditedBelow(ops, mode, n - 1) + Ledger(ops, mode, n - 1).credited
  }

  /** Windows returned, snapshot in hand, and map, for the cgroups below `n`. */
  function HeldBelow(s: State, n: nat): nat {
    if n == 0 then 0
    else HeldBelow(s, n - 1) + Emitted(s.windows, n - 1) + InHand(s.phase, n - 1) + At(s.table, n - 1)
  }

  function GoneBelow(ops: seq<Op>, mode: Mode, n: nat): int
    requires Legal(ops, mode)
  {
    if n == 0 then 0
    else GoneBelow(ops, mode, n - 1) + Ledger(ops, mode, n - 1).lost + Ledger(ops, mode, n - 1).dropped
  }

  lemma {:induction false} CreditedStep(ops: seq<Op>, mode: Mode, n: nat)
    requires Legal(ops, mode) && ops != []
    ensures CreditedBelow(ops, mode, n) == CreditedBelow(ops[..|ops| - 1], mode, n) +
                if ops[|ops| - 1].Inc? && ops[|ops| - 1].k < n then ops[|ops| - 1].d else 0
  {
    if n > 0 {
      CreditedStep(ops, mode, n - 1);
    }
  }

  lemma {:induction false} CreditsSum(ops: seq<Op>, mode: Mode, n: nat)
    requires Legal(ops, mode) && IdsBelow(ops, n)
    ensures CreditedBelow(ops, mode, n) == TotalInc(ops)
  {
    if ops == [] {
      NothingCredited(mode, n);
    } else {
      CreditsSum(ops[..|ops| - 1], mode, n);
      CreditedStep(ops, mode, n);
      assert ops[|ops| - 1] in ops;
    }
  }

  lemma {:induction false} NothingCredited(mode: Mode, n: nat)
    ensures CreditedBelow([], mode, n) == 0
  {
    if n > 0 {
      NothingCredited(mode, n - 1);
    }
  }

  lemma {:induction false} EachBelowSum(ops: seq<Op>, mode: Mode, n: nat, k: nat)
    requires Legal(ops, mode) && k < n
    ensures Ledger(ops, mode, k).credited <= CreditedBelow(ops, mode, n)
  {
    if k < n - 1 {
      EachBelowSum(ops, mode, n - 1, k);
    }
  }

  lemma {:induction false} HeldStep(ops: seq<Op>, mode: Mode, n: nat)
    requires Legal(ops, mode) && CreditedBelow(ops, mode, n) < U64
    ensures HeldBelow(Exec(ops, mode), n) + GoneBelow(ops, mode, n) == CreditedBelow(ops, mode, n)
    ensures GoneBelow(ops, mode, n) >= 0
  {
    if n > 0 {
      HeldStep(ops, mode, n - 1);
      BooksBalance(ops, mode, n - 1);
    }
  }

  /** Over all cgroups together: what the kernel credited is what the windows, the drain and the map hold plus
      what was lost to late credits or a full map. */
  lemma WholeMapBalances(ops: seq<Op>, mode: Mode, n: nat)
    requires Legal(ops, mode) && IdsBelow(ops, n) && TotalInc(ops) < U64
    ensures HeldBelow(Exec(ops, mode), n) + GoneBelow(ops, mode, n) == TotalInc(ops)
    ensures GoneBelow(ops, mode, n) >= 0
  {
    CreditsSum(ops, mode, n);
    HeldStep(ops, mode, n);
  }
}
