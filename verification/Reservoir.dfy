/**
 The bounded-memory training sample of detector/retrain.py: stream the archive
 in chunks, give each surviving row the next random key, keep the `cap` rows
 with the smallest keys.
 */
module Reservoir {
  import opened Wrappers
  import Text

  type Vector = seq<real>

  /** One archived row: its `is_anomaly` cell as text, and its feature vector. */
  datatype Row = Row(flag: string, x: Vector)

  /** One block of a file; the header either has an `is_anomaly` column or not. */
  datatype Chunk = Chunk(hasFlag: bool, rows: seq<Row>)

  predicate IsNormal(hasFlag: bool, r: Row) {
    !hasFlag || Text.Lower(r.flag) in ["false", "0", "0.0"]
  }

  /** The feature vectors that survive the normal-only filter. */
  function Survivors(hasFlag: bool, rows: seq<Row>, normalOnly: bool): seq<Vector> {
    if rows == [] then []
    else
      var rest, r := Survivors(hasFlag, rows[..|rows| - 1], normalOnly), rows[|rows| - 1];
      if !normalOnly || IsNormal(hasFlag, r) then rest + [r.x] else rest
  }

  /** All survivors of a chunk sequence, in order: the population the sample is drawn from. */
  function Population(chunks: seq<Chunk>, normalOnly: bool): seq<Vector> {
    if chunks == [] then []
    else
      var c := chunks[|chunks| - 1];
      Population(chunks[..|chunks| - 1], normalOnly) + Survivors(c.hasFlag, c.rows, normalOnly)
  }

  /** The chunks of the files that exist. */
  function AllChunks(files: seq<Option<seq<Chunk>>>): seq<Chunk> {
    if files == [] then []
    else AllChunks(files[..|files| - 1]) + files[|files| - 1].GetOr([])
  }

  function RowCount(chunks: seq<Chunk>): nat {
    if chunks == [] then 0 else RowCount(chunks[..|chunks| - 1]) + |chunks[|chunks| - 1].rows|
  }

  function Longest(chunks: seq<Chunk>): nat {
    if chunks == [] then 0
    else
      var rest, n := Longest(chunks[..|chunks| - 1]), |chunks[|chunks| - 1].rows|;
      if rest < n then n else rest
  }

  function Min(a: nat, b: nat): nat {
    if a < b then a else b
  }

  // ------------------------------------------------------------ partition

  /** The numbers below |s|, each once. */
  ghost predicate IsPermutation(s: seq<nat>) {
    && (forall i | 0 <= i < |s| :: s[i] < |s|)
    && (forall i, j | 0 <= i < j < |s| :: s[i] != s[j])
  }

  /** `ks` lists the keys in the order of the permutation `idx`. */
  ghost predicate Carries(keys: seq<real>, idx: seq<nat>, ks: seq<real>) {
    && |idx| == |ks| == |keys| && IsPermutation(idx)
    && forall i | 0 <= i < |ks| :: ks[i] == keys[idx[i]]
  }

  /** Everything before position `k` is at most everything from `k` on. */
  ghost predicate Split(ks: seq<real>, k: int) {
    forall i, j | 0 <= i < k <= j < |ks| :: ks[i] <= ks[j]
  }

  function Swap<T>(s: seq<T>, i: nat, j: nat): (r: seq<T>)
    requires i < |s| && j < |s|
    ensures |r| == |s|
    ensures r[i] == s[j] && r[j] == s[i] && forall k | 0 <= k < |s| && k != i && k != j :: r[k] == s[k]
  {
    s[i := s[j]][j := s[i]]
  }

  lemma SwapCarries(keys: seq<real>, idx: seq<nat>, ks: seq<real>, i: nat, j: nat)
    requires Carries(keys, idx, ks) && i < |ks| && j < |ks|
    ensures Carries(keys, Swap(idx, i, j), Swap(ks, i, j))
  {
  }

  lemma SwapSplit(ks: seq<real>, i: nat, j: nat, k: int)
    requires i < |ks| && j < |ks| && Split(ks, k)
    requires (i < k <==> j < k)
    ensures Split(Swap(ks, i, j), k)
  {
  }

  /** Reorders positions lo..hi around the key of the last one; `p` is where that key lands. */
  method PartitionAround(keys: seq<real>, idx: seq<nat>, ks: seq<real>, lo: nat, hi: nat)
    returns (idx': seq<nat>, ks': seq<real>, p: nat)
    requires Carries(keys, idx, ks) && lo <= hi < |ks|
    requires Split(ks, lo) && Split(ks, hi + 1)
    ensures Carries(keys, idx', ks') && lo <= p <= hi
    ensures Split(ks', p) && Split(ks', p + 1)
    ensures Split(ks', lo) && Split(ks', hi + 1)
  {
    idx', ks', p := idx, ks, lo;
    var pivot := ks[hi];
    for j := lo to hi
      invariant lo <= p <= j && Carries(keys, idx', ks')
      invariant Split(ks', lo) && Split(ks', hi + 1)
      invariant ks'[hi] == pivot
      invariant forall i | lo <= i < p :: ks'[i] < pivot
      invariant forall i | p <= i < j :: pivot <= ks'[i]
    {
      if ks'[j] < pivot {
        SwapCarries(keys, idx', ks', p, j);
        SwapSplit(ks', p, j, lo);
        SwapSplit(ks', p, j, hi + 1);
        idx', ks' := Swap(idx', p, j), Swap(ks', p, j);
        p := p + 1;
      }
    }
    SwapCarries(keys, idx', ks', p, hi);
    SwapSplit(ks', p, hi, lo);
    SwapSplit(ks', p, hi, hi + 1);
    idx', ks' := Swap(idx', p, hi), Swap(ks', p, hi);
    assert forall i | lo <= i < p :: ks'[i] < pivot;
    assert forall i | p <= i <= hi :: pivot <= ks'[i];
    assert forall i, j | 0 <= i < lo && hi < j < |ks'| :: ks'[i] <= ks'[j];
  }

  /** `np.argpartition`: a permutation of the positions with the `kth` smallest keys in front. */
  method ArgPartition(keys: seq<real>, kth: nat) returns (idx: seq<nat>)
    requires kth < |keys|
    ensures |idx| == |keys| && IsPermutation(idx)
    ensures forall i, j | 0 <= i < kth <= j < |idx| :: keys[idx[i]] <= keys[idx[j]]
  {
    idx := seq(|keys|, i => i);
    var ks := keys;
    var lo, hi := 0, |keys| - 1;
    while lo < hi
      invariant 0 <= lo <= kth <= hi < |keys|
      invariant Carries(keys, idx, ks)
      invariant Split(ks, lo) && Split(ks, hi + 1)
      decreases hi - lo
    {
      var p;
      idx, ks, p := PartitionAround(keys, idx, ks, lo, hi);
      if p == kth {
        lo, hi := kth, kth;
      } else if kth < p {
        hi := p - 1;
      } else {
        lo := p + 1;
      }
    }
    assert Split(ks, kth);
  }

  // --------------------------------------------------------------- sample

  /** `sel` picks min(cap, n) distinct members of a population of `n`, none with a larger key than any left out. */
  ghost predicate CapSmallest(sel: seq<nat>, n: nat, cap: nat, key: nat -> real) {
    && |sel| == Min(cap, n)
    && (forall i | 0 <= i < |sel| :: sel[i] < n)
    && (forall i, j | 0 <= i < j < |sel| :: sel[i] != sel[j])
    && (forall i, j | 0 <= i < |sel| && 0 <= j < n && j !in sel :: key(sel[i]) <= key(j))
  }

  /** The arrays `keys` and `res` hold the key and the vector of each selected member, in step. */
  ghost predicate Paired(keys: seq<real>, res: seq<Vector>, sel: seq<nat>, pop: seq<Vector>, key: nat -> real) {
    && |keys| == |res| == |sel|
    && forall i | 0 <= i < |sel| :: sel[i] < |pop| && keys[i] == key(sel[i]) && res[i] == pop[sel[i]]
  }

  /** Nothing has been left out yet. */
  ghost predicate Everyone(sel: seq<nat>, n: nat) {
    |sel| == n && forall i | 0 <= i < n :: sel[i] == i
  }

  /** A selection grown by the newcomers n, n + 1, ..., before trimming. */
  function Grown(sel: seq<nat>, n: nat, more: nat): (r: seq<nat>)
    ensures |r| == |sel| + more
    ensures forall i | 0 <= i < |sel| :: r[i] == sel[i]
  {
    sel + seq(more, i => n + i)
  }

  lemma GrownMembers(sel: seq<nat>, n: nat, more: nat, j: nat)
    ensures j in Grown(sel, n, more) <==> j in sel || n <= j < n + more
  {
    var all := Grown(sel, n, more);
    if j in sel {
      var i :| 0 <= i < |sel| && sel[i] == j;
      assert all[i] == j;
    } else if n <= j < n + more {
      assert all[|sel| + (j - n)] == j;
    }
  }

  lemma GrownDistinct(sel: seq<nat>, n: nat, more: nat)
    requires forall i | 0 <= i < |sel| :: sel[i] < n
    requires forall i, j | 0 <= i < j < |sel| :: sel[i] != sel[j]
    ensures var all := Grown(sel, n, more);
            && (forall i | 0 <= i < |all| :: all[i] < n + more)
            && (forall i, j | 0 <= i < j < |all| :: all[i] != all[j])
  {
  }

  function Pick<T>(s: seq<T>, idx: seq<nat>): (r: seq<T>)
    requires forall i | 0 <= i < |idx| :: idx[i] < |s|
    ensures |r| == |idx|
    ensures forall i | 0 <= i < |idx| :: r[i] == s[idx[i]]
  {
    seq(|idx|, i requires 0 <= i < |idx| => s[idx[i]])
  }

  // ------------------------------------------------------------- counting

  function Range(n: nat): (r: set<nat>)
    ensures |r| == n && forall x: nat :: x in r <==> x < n
  {
    if n == 0 then {} else Range(n - 1) + {n - 1}
  }

  function Members(s: seq<nat>): set<nat> {
    set i | 0 <= i < |s| :: s[i]
  }

  lemma {:induction false} DistinctSize(s: seq<nat>)
    requires forall a, b | 0 <= a < b < |s| :: s[a] != s[b]
    ensures |Members(s)| == |s|
  {
    if s != [] {
      var front, last := s[..|s| - 1], s[|s| - 1];
      DistinctSize(front);
      forall x ensures x in Members(s) <==> x in Members(front) + {last} {
        if x in Members(front) {
          var i :| 0 <= i < |front| && front[i] == x;
          assert s[i] == x;
        }
        if x in Members(s) && x != last {
          var i :| 0 <= i < |s| && s[i] == x;
          assert front[i] == x;
        }
      }
      assert Members(s) == Members(front) + {last};
    }
  }

  lemma SubsetSize(a: set<nat>, b: set<nat>)
    requires a <= b
    ensures |a| <= |b|
    ensures a != b ==> |a| < |b|
  {
    assert b == a + (b - a);
    assert |b| == |a| + |b - a|;
  }

  /** Distinct positions that include one at or beyond their own number miss one below it. */
  lemma MissesOne(keep: seq<nat>, i: nat) returns (m: nat)
    requires i < |keep| <= keep[i]
    requires forall a, b | 0 <= a < b < |keep| :: keep[a] != keep[b]
    ensures m < |keep| && m !in keep
  {
    DistinctSize(keep);
    var range, low := Range(|keep|), Members(keep) * Range(|keep|);
    assert keep[i] in Members(keep) && keep[i] !in low;
    SubsetSize(low, Members(keep));
    assert low != range;
    assert range - Members(keep) != {} by { assert range == low + (range - Members(keep)); }
    m :| m in range - Members(keep);
  }

  /** A permutation reaches every position. */
  lemma Position(idx: seq<nat>, x: nat) returns (b: nat)
    requires IsPermutation(idx) && x < |idx|
    ensures b < |idx| && idx[b] == x
  {
    DistinctSize(idx);
    SubsetSize(Members(idx), Range(|idx|));
    assert x in Members(idx);
    b :| 0 <= b < |idx| && idx[b] == x;
  }

  // ----------------------------------------------------------------- trim

  /** Trimming a grown selection to its cap smallest keys gives the cap smallest of the whole population. */
  lemma TrimKeepsSmallest(sel: seq<nat>, n: nat, more: nat, cap: nat, key: nat -> real, keys: seq<real>, idx: seq<nat>)
    requires CapSmallest(sel, n, cap, key) && (n <= cap ==> Everyone(sel, n))
    requires |keys| == |sel| + more > cap
    requires forall i | 0 <= i < |keys| :: keys[i] == key(Grown(sel, n, more)[i])
    requires |idx| == |keys| && IsPermutation(idx)
    requires forall i, j | 0 <= i < cap <= j < |idx| :: keys[idx[i]] <= keys[idx[j]]
    ensures CapSmallest(Pick(Grown(sel, n, more), idx[..cap]), n + more, cap, key)
  {
    var all := Grown(sel, n, more);
    var sel' := Pick(all, idx[..cap]);
    GrownDistinct(sel, n, more);
    forall i, j | 0 <= i < |sel'| && 0 <= j < n + more && j !in sel'
      ensures key(sel'[i]) <= key(j)
    {
      TrimmedBelow(sel, n, more, cap, key, keys, idx, i, j);
    }
  }

  lemma EveryoneIn(sel: seq<nat>, n: nat, j: nat)
    ensures Everyone(sel, n) && j < n ==> j in sel
  {
    if Everyone(sel, n) && j < n {
      assert sel[j] == j;
    }
  }

  lemma TrimmedBelow(sel: seq<nat>, n: nat, more: nat, cap: nat, key: nat -> real, keys: seq<real>, idx: seq<nat>,
                     i: nat, j: nat)
    requires CapSmallest(sel, n, cap, key) && (n <= cap ==> Everyone(sel, n))
    requires |keys| == |sel| + more > cap
    requires forall a | 0 <= a < |keys| :: keys[a] == key(Grown(sel, n, more)[a])
    requires |idx| == |keys| && IsPermutation(idx)
    requires forall a, b | 0 <= a < cap <= b < |idx| :: keys[idx[a]] <= keys[idx[b]]
    requires i < cap && j < n + more && j !in Pick(Grown(sel, n, more), idx[..cap])
    ensures key(Grown(sel, n, more)[idx[i]]) <= key(j)
  {
    var all, keep := Grown(sel, n, more), idx[..cap];
    assert forall b | 0 <= b < cap :: all[idx[b]] == Pick(all, keep)[b];
    GrownMembers(sel, n, more, j);
    if j in all {
      var a :| 0 <= a < |all| && all[a] == j;
      var b := Position(idx, a);
      assert cap <= b;
    } else {
      assert j < n && j !in sel;
      EveryoneIn(sel, n, j);
      if idx[i] < cap {
        assert all[idx[i]] == sel[idx[i]];
      } else {
        assert forall a, b | 0 <= a < b < cap :: keep[a] != keep[b];
        var m := MissesOne(keep, i);
        assert forall a | 0 <= a < cap :: idx[a] == keep[a] && idx[a] in keep;
        var b := Position(idx, m);
        assert keys[idx[i]] <= keys[idx[b]];
        assert all[m] == sel[m];
      }
    }
  }

  // ----------------------------------------------------------------- loop

  /** The reservoir between two chunks. */
  ghost predicate Holds(keys: seq<real>, res: seq<Vector>, sel: seq<nat>, pop: seq<Vector>, cap: nat,
                        key: nat -> real)
  {
    && Paired(keys, res, sel, pop, key)
    && CapSmallest(sel, |pop|, cap, key)
    && (|pop| <= cap ==> Everyone(sel, |pop|))
  }

  lemma PairedGrow(keys: seq<real>, res: seq<Vector>, sel: seq<nat>, pop: seq<Vector>, xs: seq<Vector>,
                   key: nat -> real)
    requires Paired(keys, res, sel, pop, key)
    ensures Paired(keys + seq(|xs|, i requires 0 <= i < |xs| => key(|pop| + i)), res + xs,
                   Grown(sel, |pop|, |xs|), pop + xs, key)
  {
  }

  lemma PairedPick(keys: seq<real>, res: seq<Vector>, sel: seq<nat>, pop: seq<Vector>, key: nat -> real, keep: seq<nat>)
    requires Paired(keys, res, sel, pop, key)
    requires forall i | 0 <= i < |keep| :: keep[i] < |keys|
    ensures Paired(Pick(keys, keep), Pick(res, keep), Pick(sel, keep), pop, key)
  {
  }

  /** While everything fits, everyone stays. */
  lemma GrowWithin(sel: seq<nat>, n: nat, more: nat, cap: nat, key: nat -> real)
    requires CapSmallest(sel, n, cap, key) && (n <= cap ==> Everyone(sel, n))
    requires |sel| + more <= cap && 0 < more
    ensures CapSmallest(Grown(sel, n, more), n + more, cap, key) && Everyone(Grown(sel, n, more), n + more)
  {
    GrownDistinct(sel, n, more);
    var all := Grown(sel, n, more);
    forall j: nat | j < n + more ensures j in all {
      assert all[j] == j;
    }
  }

  /** One chunk: draw keys for its survivors, append, and trim when over the cap. */
  method TakeChunk(keys: seq<real>, res: seq<Vector>, xs: seq<Vector>, cap: nat, key: nat -> real,
                   nKept: nat, ghost sel: seq<nat>, ghost pop: seq<Vector>)
    returns (keys': seq<real>, res': seq<Vector>, ghost sel': seq<nat>, ghost peak: nat)
    requires Holds(keys, res, sel, pop, cap, key) && nKept == |pop| && xs != []
    ensures Holds(keys', res', sel', pop + xs, cap, key)
    ensures peak <= cap + |xs|
  {
    var kc := seq(|xs|, i requires 0 <= i < |xs| => key(nKept + i));
    keys' := keys + kc;
    if res == [] {
      res' := xs;
    } else {
      res' := res + xs;
    }
    assert res' == res + xs;
    sel' := Grown(sel, |pop|, |xs|);
    peak := |keys'|;
    PairedGrow(keys, res, sel, pop, xs, key);
    if |keys'| > cap {
      var idx := ArgPartition(keys', cap);
      TrimKeepsSmallest(sel, |pop|, |xs|, cap, key, keys', idx);
      var keep := idx[..cap];
      PairedPick(keys', res', sel', pop + xs, key, keep);
      keys', res', sel' := Pick(keys', keep), Pick(res', keep), Pick(sel', keep);
    } else {
      GrowWithin(sel, |pop|, |xs|, cap, key);
    }
  }

  /** All the counters and arrays of the loop, after the chunks `done`. */
  ghost predicate Running(keys: seq<real>, res: seq<Vector>, nSeen: nat, nKept: nat, sel: seq<nat>, peak: nat,
                          done: seq<Chunk>, cap: nat, normalOnly: bool, key: nat -> real)
  {
    && nSeen == RowCount(done) && nKept == |Population(done, normalOnly)|
    && Holds(keys, res, sel, Population(done, normalOnly), cap, key)
    && peak <= cap + Longest(done)
  }

  /** The body of the inner loop. */
  method TakeBlock(keys: seq<real>, res: seq<Vector>, nSeen: nat, nKept: nat, chunk: Chunk, cap: nat, normalOnly: bool,
                   key: nat -> real, ghost sel: seq<nat>, ghost peak: nat, ghost done: seq<Chunk>)
    returns (keys': seq<real>, res': seq<Vector>, nSeen': nat, nKept': nat, ghost sel': seq<nat>, ghost peak': nat)
    requires Running(keys, res, nSeen, nKept, sel, peak, done, cap, normalOnly, key)
    ensures Running(keys', res', nSeen', nKept', sel', peak', done + [chunk], cap, normalOnly, key)
  {
    keys', res', nKept', sel', peak' := keys, res, nKept, sel, peak;
    assert (done + [chunk])[..|done|] == done;
    nSeen' := nSeen + |chunk.rows|;
    var xs := Survivors(chunk.hasFlag, chunk.rows, normalOnly);
    SurvivorsFewer(chunk.hasFlag, chunk.rows, normalOnly);
    if xs == [] {
      assert Population(done, normalOnly) + xs == Population(done, normalOnly);
      return;
    }
    ghost var high;
    keys', res', sel', high := TakeChunk(keys, res, xs, cap, key, nKept, sel, Population(done, normalOnly));
    nKept' := nKept + |xs|;
    peak' := if peak < high then high else peak;
  }

  method ReservoirSample(files: seq<Option<seq<Chunk>>>, cap: nat, normalOnly: bool, key: nat -> real)
    returns (res: seq<Vector>, nSeen: nat, nKept: nat, ghost sel: seq<nat>, ghost peak: nat)
    ensures nSeen == RowCount(AllChunks(files))
    ensures nKept == |Population(AllChunks(files), normalOnly)|
    ensures CapSmallest(sel, nKept, cap, key)
    ensures res == Pick(Population(AllChunks(files), normalOnly), sel)
    ensures peak <= cap + Longest(AllChunks(files))
    ensures normalOnly ==> nKept == NormalCount(Rows(AllChunks(files)))
    ensures normalOnly ==> forall v | v in res :: IsOfNormal(v, Rows(AllChunks(files)))
    ensures !normalOnly ==> nKept == nSeen
  {
    res, nSeen, nKept, sel, peak := [], 0, 0, [], 0;
    var keys: seq<real> := [];
    ghost var done: seq<Chunk> := [];
    for f := 0 to |files|
      invariant done == AllChunks(files[..f])
      invariant Running(keys, res, nSeen, nKept, sel, peak, done, cap, normalOnly, key)
    {
      assert files[..f + 1][..f] == files[..f];
      var chunks := files[f].GetOr([]);
      ghost var before := done;
      for c := 0 to |chunks|
        invariant done == before + chunks[..c]
        invariant Running(keys, res, nSeen, nKept, sel, peak, done, cap, normalOnly, key)
      {
        keys, res, nSeen, nKept, sel, peak :=
          TakeBlock(keys, res, nSeen, nKept, chunks[c], cap, normalOnly, key, sel, peak, done);
        done := done + [chunks[c]];
      }
      assert chunks[..|chunks|] == chunks;
    }
    assert files[..|files|] == files;
    KeptAreNormal(AllChunks(files), normalOnly, res, sel);
  }

  /** The row's flag reads false, 0 or 0.0 in any case, or its file has no such column. */
  predicate ReadsNormal(row: (bool, Row)) {
    !row.0 || Text.Lower(row.1.flag) == "false" || Text.Lower(row.1.flag) == "0" || Text.Lower(row.1.flag) == "0.0"
  }

  function NormalCount(rows: seq<(bool, Row)>): nat {
    if rows == [] then 0 else NormalCount(rows[..|rows| - 1]) + if ReadsNormal(rows[|rows| - 1]) then 1 else 0
  }

  /** The vector is that of a normal row of the corpus. */
  ghost predicate IsOfNormal(v: Vector, rows: seq<(bool, Row)>) {
    exists i | 0 <= i < |rows| :: ReadsNormal(rows[i]) && rows[i].1.x == v
  }

  lemma {:induction false} FilteredNormal(rows: seq<(bool, Row)>)
    ensures |Filtered(rows, true)| == NormalCount(rows) && |Filtered(rows, false)| == |rows|
    ensures forall v | v in Filtered(rows, true) :: IsOfNormal(v, rows)
  {
    if rows != [] {
      var front, r := rows[..|rows| - 1], rows[|rows| - 1];
      FilteredNormal(front);
      forall v | v in Filtered(rows, true) ensures IsOfNormal(v, rows) {
        if v in Filtered(front, true) {
          var i :| 0 <= i < |front| && ReadsNormal(front[i]) && front[i].1.x == v;
          assert rows[i] == front[i];
        } else {
          assert rows[|rows| - 1] == r;
        }
      }
    }
  }

  /** What a sample with the filter on is made of. */
  lemma KeptAreNormal(chunks: seq<Chunk>, normalOnly: bool, res: seq<Vector>, sel: seq<nat>)
    requires forall i | 0 <= i < |sel| :: sel[i] < |Population(chunks, normalOnly)|
    requires res == Pick(Population(chunks, normalOnly), sel)
    ensures normalOnly ==> |Population(chunks, normalOnly)| == NormalCount(Rows(chunks))
    ensures normalOnly ==> forall v | v in res :: IsOfNormal(v, Rows(chunks))
    ensures !normalOnly ==> |Population(chunks, normalOnly)| == RowCount(chunks)
  {
    PopulationOfRows(chunks, normalOnly);
    FilteredNormal(Rows(chunks));
    if normalOnly {
      forall v | v in res ensures IsOfNormal(v, Rows(chunks)) {
        var i :| 0 <= i < |res| && res[i] == v;
        assert Population(chunks, true)[sel[i]] == v;
      }
    }
  }

  /** A row that a file with the column flags as an anomaly is never kept. */
  lemma FlaggedNeverKept(r: Row)
    requires Text.Lower(r.flag) in {"true", "1", "1.0"}
    ensures !ReadsNormal((true, r)) && Filtered([(true, r)], true) == []
    ensures ReadsNormal((false, r)) && Filtered([(false, r)], true) == [r.x]
  {
    assert "true"[0] == 't' && "false"[0] == 'f' && "1"[0] == '1' && "0"[0] == '0' && "0.0"[0] == '0';
    assert [(true, r)][..0] == [] && [(false, r)][..0] == [];
  }

  lemma {:induction false} SurvivorsFewer(hasFlag: bool, rows: seq<Row>, normalOnly: bool)
    ensures |Survivors(hasFlag, rows, normalOnly)| <= |rows|
  {
    if rows != [] {
      SurvivorsFewer(hasFlag, rows[..|rows| - 1], normalOnly);
    }
  }

  // ------------------------------------------------------------- theorems

  ghost predicate DistinctKeys(n: nat, key: nat -> real) {
    forall i, j | 0 <= i < j < n :: key(i) != key(j)
  }

  function Smaller(j: nat, n: nat, key: nat -> real): set<nat> {
    set i | i in Range(n) && key(i) < key(j)
  }

  /** A row is sampled exactly when fewer than `cap` rows drew a smaller key. Where the row stood in the corpus
      plays no part, which is what makes the sample uniform over identically distributed keys. */
  lemma SampledByRank(sel: seq<nat>, n: nat, cap: nat, key: nat -> real, j: nat)
    requires CapSmallest(sel, n, cap, key) && DistinctKeys(n, key) && j < n
    ensures j in sel <==> |Smaller(j, n, key)| < cap
  {
    var members, smaller := Members(sel), Smaller(j, n, key);
    DistinctSize(sel);
    if j in sel {
      var s :| 0 <= s < |sel| && sel[s] == j;
      forall i | i in smaller ensures i in members {
        assert key(sel[s]) == key(j);
        assert i in sel;
      }
      assert j in members && j !in smaller;
      SubsetSize(smaller, members);
    } else {
      forall i | i in members ensures i in smaller {
        var s :| 0 <= s < |sel| && sel[s] == i;
        assert key(i) <= key(j) && i != j;
        assert key(i) != key(j);
      }
      SubsetSize(members, smaller);
      assert j in Range(n) && j !in members;
      SubsetSize(members, Range(n));
    }
  }

  /** The rows of a chunk sequence in order, each with what its file's header says. */
  function Rows(chunks: seq<Chunk>): seq<(bool, Row)> {
    if chunks == [] then []
    else Rows(chunks[..|chunks| - 1]) + Flagged(chunks[|chunks| - 1])
  }

  function Flagged(c: Chunk): (r: seq<(bool, Row)>)
    ensures |r| == |c.rows|
  {
    seq(|c.rows|, i requires 0 <= i < |c.rows| => (c.hasFlag, c.rows[i]))
  }

  /** The normal-only filter on rows, with no chunks in sight. */
  function Filtered(rows: seq<(bool, Row)>, normalOnly: bool): seq<Vector> {
    if rows == [] then []
    else
      var rest, (hasFlag, r) := Filtered(rows[..|rows| - 1], normalOnly), rows[|rows| - 1];
      if !normalOnly || IsNormal(hasFlag, r) then rest + [r.x] else rest
  }

  lemma {:induction false} FilteredConcat(a: seq<(bool, Row)>, b: seq<(bool, Row)>, normalOnly: bool)
    ensures Filtered(a + b, normalOnly) == Filtered(a, normalOnly) + Filtered(b, normalOnly)
  {
    if b == [] {
      assert a + b == a;
    } else {
      FilteredConcat(a, b[..|b| - 1], normalOnly);
      assert (a + b)[..|a + b| - 1] == a + b[..|b| - 1];
    }
  }

  lemma {:induction false} SurvivorsFiltered(hasFlag: bool, rows: seq<Row>, normalOnly: bool)
    ensures Survivors(hasFlag, rows, normalOnly) == Filtered(Flagged(Chunk(hasFlag, rows)), normalOnly)
  {
    if rows != [] {
      SurvivorsFiltered(hasFlag, rows[..|rows| - 1], normalOnly);
      assert Flagged(Chunk(hasFlag, rows))[..|rows| - 1] == Flagged(Chunk(hasFlag, rows[..|rows| - 1]));
    }
  }

  /** Filtering chunk by chunk is filtering the rows: the cuts leave no trace, in the population or in the count. */
  lemma {:induction false} PopulationOfRows(chunks: seq<Chunk>, normalOnly: bool)
    ensures Population(chunks, normalOnly) == Filtered(Rows(chunks), normalOnly)
    ensures RowCount(chunks) == |Rows(chunks)|
  {
    if chunks != [] {
      var front, c := chunks[..|chunks| - 1], chunks[|chunks| - 1];
      PopulationOfRows(front, normalOnly);
      SurvivorsFiltered(c.hasFlag, c.rows, normalOnly);
      FilteredConcat(Rows(front), Flagged(c), normalOnly);
    }
  }

  /** Hence the sample does not depend on how the corpus was cut into files and chunks. */
  lemma ChunkingIrrelevant(files: seq<Option<seq<Chunk>>>, other: seq<Option<seq<Chunk>>>, normalOnly: bool,
                           cap: nat, key: nat -> real, sel: seq<nat>, sel': seq<nat>, j: nat)
    requires Rows(AllChunks(files)) == Rows(AllChunks(other))
    requires CapSmallest(sel, |Population(AllChunks(files), normalOnly)|, cap, key)
    requires CapSmallest(sel', |Population(AllChunks(other), normalOnly)|, cap, key)
    requires DistinctKeys(|Population(AllChunks(files), normalOnly)|, key)
    ensures Population(AllChunks(files), normalOnly) == Population(AllChunks(other), normalOnly)
    ensures RowCount(AllChunks(files)) == RowCount(AllChunks(other))
    ensures j in sel <==> j in sel'
  {
    PopulationOfRows(AllChunks(files), normalOnly);
    PopulationOfRows(AllChunks(other), normalOnly);
    var n := |Population(AllChunks(files), normalOnly)|;
    if j < n {
      SampledByRank(sel, n, cap, key, j);
      SampledByRank(sel', n, cap, key, j);
    }
  }

  lemma RowsAppend(chunks: seq<Chunk>, c: Chunk)
    ensures Rows(chunks + [c]) == Rows(chunks) + Flagged(c)
  {
    assert (chunks + [c])[..|chunks|] == chunks;
  }

  lemma PutLast<T>(a: seq<T>, b: seq<T>)
    requires b != []
    ensures a + b == a + b[..|b| - 1] + [b[|b| - 1]]
  {
  }

  lemma Regroup<T>(a: seq<T>, b: seq<T>, c: seq<T>)
    ensures a + b + c == a + (b + c)
  {
  }

  lemma {:induction false} RowsConcat(a: seq<Chunk>, b: seq<Chunk>)
    ensures Rows(a + b) == Rows(a) + Rows(b)
  {
    if b == [] {
      assert a + b == a;
    } else {
      var front, c := b[..|b| - 1], b[|b| - 1];
      RowsConcat(a, front);
      PutLast(a, b);
      RowsAppend(a + front, c);
      Regroup(Rows(a), Rows(front), Flagged(c));
    }
  }

  /** Cutting any chunk in two leaves the rows as they were. */
  lemma RechunkKeepsRows(before: seq<Chunk>, hasFlag: bool, a: seq<Row>, b: seq<Row>, rest: seq<Chunk>)
    ensures Rows(before + [Chunk(hasFlag, a + b)] + rest)
         == Rows(before + [Chunk(hasFlag, a)] + [Chunk(hasFlag, b)] + rest)
  {
    var whole, left, right := Chunk(hasFlag, a + b), Chunk(hasFlag, a), Chunk(hasFlag, b);
    RowsConcat(before + [whole], rest);
    RowsAppend(before, whole);
    RowsConcat(before + [left] + [right], rest);
    RowsAppend(before + [left], right);
    RowsAppend(before, left);
    Regroup(Rows(before), Flagged(left), Flagged(right));
    assert Flagged(left) + Flagged(right) == Flagged(whole);
  }
}
