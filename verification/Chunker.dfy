/** The message chunker of scripts/qwen_triage.py: paragraphs packed greedily under a length limit. */
module Chunker {
  import Text

  // ------------------------------------------------------ split and rejoin

  /** Where the first "\n\n" at or after `i` starts; the length when there is none. */
  function NextBreak(s: string, i: nat): (j: nat)
    requires i <= |s|
    ensures i <= j <= |s|
    ensures j < |s| ==> Text.StartsAt(s, "\n\n", j)
    ensures forall k | i <= k < j :: !Text.StartsAt(s, "\n\n", k)
    decreases |s| - i
  {
    if i == |s| || Text.StartsAt(s, "\n\n", i) then i else NextBreak(s, i + 1)
  }

  /** `text.split("\n\n")`. */
  function Split(s: string): (r: seq<string>)
    ensures r != []
    decreases |s|
  {
    var j := NextBreak(s, 0);
    if j == |s| then [s] else [s[..j]] + Split(s[j + 2..])
  }

  /** Every paragraph followed by a blank line. */
  function Terminated(paras: seq<string>): string {
    if paras == [] then "" else paras[0] + "\n\n" + Terminated(paras[1..])
  }

  lemma CutAt(s: string, j: nat)
    requires Text.StartsAt(s, "\n\n", j)
    ensures s == s[..j] + "\n\n" + s[j + 2..]
  {
    assert s[j..j + 2] == "\n\n";
  }

  /** Splitting loses nothing. */
  lemma {:induction false} SplitRejoins(s: string)
    ensures Terminated(Split(s)) == s + "\n\n"
    decreases |s|
  {
    var j := NextBreak(s, 0);
    if j == |s| {
      assert Terminated([s]) == s + "\n\n" + "" by { assert [s][1..] == []; }
    } else {
      var head, tail := s[..j], s[j + 2..];
      SplitRejoins(tail);
      assert ([head] + Split(tail))[1..] == Split(tail);
      CutAt(s, j);
      Assoc(head + "\n\n", tail, "\n\n");
    }
  }

  /** No paragraph holds a break. */
  lemma {:induction false} SplitComplete(s: string, i: nat, k: nat)
    requires i < |Split(s)|
    ensures !Text.StartsAt(Split(s)[i], "\n\n", k)
    decreases |s|
  {
    var j := NextBreak(s, 0);
    if i > 0 {
      SplitComplete(s[j + 2..], i - 1, k);
    } else if k + 2 <= j {
      assert s[..j][k..k + 2] == s[k..k + 2];
      assert !Text.StartsAt(s, "\n\n", k);
    }
  }

  // --------------------------------------------------------------- pieces

  /** What the chunker handles as a unit: a full-length slice of an oversize paragraph, or a paragraph's
      remainder with its blank line. */
  datatype Piece = Slice(s: string) | Para(s: string)

  function PiecesOf(para: string, n: nat): seq<Piece>
    requires n > 0
    decreases |para|
  {
    if |para| > n then [Slice(para[..n])] + PiecesOf(para[n..], n) else [Para(para + "\n\n")]
  }

  function Pieces(paras: seq<string>, n: nat): seq<Piece>
    requires n > 0
  {
    if paras == [] then []
    else Pieces(paras[..|paras| - 1], n) + PiecesOf(paras[|paras| - 1], n)
  }

  function TextOf(ps: seq<Piece>): string {
    if ps == [] then "" else TextOf(ps[..|ps| - 1]) + ps[|ps| - 1].s
  }

  function Flatten(groups: seq<seq<Piece>>): seq<Piece> {
    if groups == [] then [] else Flatten(groups[..|groups| - 1]) + groups[|groups| - 1]
  }

  function Concat(chunks: seq<string>): string {
    if chunks == [] then "" else Concat(chunks[..|chunks| - 1]) + chunks[|chunks| - 1]
  }

  lemma Assoc(a: string, b: string, c: string)
    ensures (a + b) + c == a + (b + c)
  {
  }

  lemma {:induction false} TextOfConcat(a: seq<Piece>, b: seq<Piece>)
    ensures TextOf(a + b) == TextOf(a) + TextOf(b)
  {
    if b == [] {
      assert a + b == a;
    } else {
      var front, x := b[..|b| - 1], b[|b| - 1];
      TextOfConcat(a, front);
      assert (a + b)[..|a + b| - 1] == a + front && (a + b)[|a + b| - 1] == x;
      Assoc(TextOf(a), TextOf(front), x.s);
    }
  }

  lemma {:induction false} TextOfPieces(para: string, n: nat)
    requires n > 0
    ensures TextOf(PiecesOf(para, n)) == para + "\n\n"
    decreases |para|
  {
    if |para| > n {
      TextOfPieces(para[n..], n);
      TextOfConcat([Slice(para[..n])], PiecesOf(para[n..], n));
      assert TextOf([Slice(para[..n])]) == para[..n] by { assert TextOf([]) == ""; }
      assert para == para[..n] + para[n..];
    } else {
      assert TextOf([Para(para + "\n\n")][..0]) == "";
    }
  }

  lemma {:induction false} TerminatedLast(paras: seq<string>)
    requires paras != []
    ensures Terminated(paras) == Terminated(paras[..|paras| - 1]) + paras[|paras| - 1] + "\n\n"
  {
    if |paras| == 1 {
      assert paras[1..] == [] && paras[..0] == [];
    } else {
      TerminatedLast(paras[1..]);
      var front := paras[..|paras| - 1];
      assert paras[1..][..|paras| - 2] == front[1..];
    }
  }

  /** The pieces spell the text. */
  lemma {:induction false} PiecesSpell(paras: seq<string>, n: nat)
    requires n > 0
    ensures TextOf(Pieces(paras, n)) == Terminated(paras)
  {
    if paras != [] {
      var front, last := paras[..|paras| - 1], paras[|paras| - 1];
      PiecesSpell(front, n);
      TextOfPieces(last, n);
      TextOfConcat(Pieces(front, n), PiecesOf(last, n));
      TerminatedLast(paras);
    }
  }

  // ---------------------------------------------------------------- chunks

  /** One chunk's worth of pieces: a lone slice, or whole paragraphs that fit; only a lone paragraph may
      overrun the limit, by its blank line. */
  predicate Fits(group: seq<Piece>, n: nat) {
    || (|group| == 1 && group[0].Slice? && |group[0].s| == n)
    || (&& group != []
        && (forall i | 0 <= i < |group| :: group[i].Para?)
        && |TextOf(group)| <= n + 2
        && (|group| > 1 ==> |TextOf(group)| <= n))
  }

  /** `chunks` are the texts of `groups`, each of which fits. */
  ghost predicate Packs(chunks: seq<string>, groups: seq<seq<Piece>>, n: nat) {
    && |chunks| == |groups|
    && forall i | 0 <= i < |groups| :: Fits(groups[i], n) && chunks[i] == TextOf(groups[i])
  }

  /** Paragraphs waiting to be flushed. */
  ghost predicate Pending(cur: string, group: seq<Piece>, n: nat) {
    && cur == TextOf(group)
    && (cur == "" <==> group == [])
    && (group != [] ==> Fits(group, n) && group[0].Para?)
  }

  /** A paragraph opens a new chunk only when the chunk before had no room for it. */
  ghost predicate Greedy(groups: seq<seq<Piece>>, n: nat) {
    forall i | 0 < i < |groups| :: NoRoom(groups[i - 1], groups[i], n)
  }

  predicate NoRoom(before: seq<Piece>, group: seq<Piece>, n: nat) {
    before != [] && group != [] && before[0].Para? && group[0].Para? ==> |TextOf(before)| + |group[0].s| > n
  }

  /** The chunks so far and the pending paragraphs account for the pieces in `done`. */
  ghost predicate Progress(out: seq<string>, cur: string, groups: seq<seq<Piece>>, group: seq<Piece>,
                           done: seq<Piece>, n: nat)
  {
    && Packs(out, groups, n) && Pending(cur, group, n) && Flatten(groups) + group == done
    && Greedy(groups + [group], n)
  }

  lemma GreedyInit(groups: seq<seq<Piece>>, group: seq<Piece>, n: nat)
    requires Greedy(groups + [group], n)
    ensures Greedy(groups, n)
    ensures groups != [] ==> NoRoom(groups[|groups| - 1], group, n)
  {
    var all := groups + [group];
    forall i | 0 < i < |groups| ensures NoRoom(groups[i - 1], groups[i], n) {
      assert NoRoom(all[i - 1], all[i], n);
    }
    assert groups != [] ==> NoRoom(all[|groups| - 1], all[|groups|], n);
  }

  lemma GreedyAppend(groups: seq<seq<Piece>>, group: seq<Piece>, n: nat)
    requires Greedy(groups, n)
    requires groups != [] ==> NoRoom(groups[|groups| - 1], group, n)
    ensures Greedy(groups + [group], n)
  {
  }

  lemma FlushKeeps(out: seq<string>, cur: string, groups: seq<seq<Piece>>, group: seq<Piece>, done: seq<Piece>, n: nat)
    requires Progress(out, cur, groups, group, done, n) && cur != ""
    ensures Progress(out + [cur], "", groups + [group], [], done, n)
  {
    GreedyAppend(groups + [group], [], n);
    assert (groups + [group])[..|groups|] == groups;
    assert Flatten(groups + [group]) + [] == done;
  }

  lemma SliceKeeps(out: seq<string>, groups: seq<seq<Piece>>, done: seq<Piece>, s: string, n: nat)
    requires Progress(out, "", groups, [], done, n) && |s| == n
    ensures Progress(out + [s], "", groups + [[Slice(s)]], [], done + [Slice(s)], n)
  {
    var one := [Slice(s)];
    assert TextOf(one) == s by { assert one[..0] == []; }
    GreedyInit(groups, [], n);
    GreedyAppend(groups, one, n);
    GreedyAppend(groups + [one], [], n);
    assert (groups + [one])[..|groups|] == groups;
    assert Flatten(groups) + [] == Flatten(groups);
    assert Flatten(groups + [one]) + [] == done + one;
  }

  lemma ParaKeeps(out: seq<string>, cur: string, groups: seq<seq<Piece>>, group: seq<Piece>, done: seq<Piece>,
                  para: string, n: nat)
    requires Progress(out, cur, groups, group, done, n)
    requires |para| <= n && (cur == "" || |cur| + |para| + 2 <= n)
    requires group == [] && groups != [] ==> NoRoom(groups[|groups| - 1], [Para(para + "\n\n")], n)
    ensures Progress(out, cur + (para + "\n\n"), groups, group + [Para(para + "\n\n")], done + [Para(para + "\n\n")], n)
  {
    var x := Para(para + "\n\n");
    GreedyInit(groups, group, n);
    GreedyAppend(groups, group + [x], n);
    assert (group + [x])[..|group|] == group;
    assert Flatten(groups) + (group + [x]) == done + [x];
  }

  /** Nothing pending means nothing yet, or a slice just before. */
  ghost predicate AfterSlice(groups: seq<seq<Piece>>, group: seq<Piece>) {
    group == [] && groups != [] ==> groups[|groups| - 1] != [] && groups[|groups| - 1][0].Slice?
  }

  method Chunks(text: string, n: nat)
    returns (out: seq<string>, ghost groups: seq<seq<Piece>>, ghost dropped: seq<Piece>)
    requires n > 0
    ensures out != []
    ensures Flatten(groups) + dropped == Pieces(Split(text), n)
    ensures Text.Blank(TextOf(dropped))
    ensures Greedy(groups, n)
    ensures Packs(out, groups, n) || (groups == [] && out == [text] && |text| <= n)
  {
    out, groups := [], [];
    var cur := "";
    var paras := Split(text);
    ghost var group: seq<Piece>, done: seq<Piece> := [], [];
    for i := 0 to |paras|
      invariant done == Pieces(paras[..i], n)
      invariant Progress(out, cur, groups, group, done, n) && AfterSlice(groups, group)
    {
      assert paras[..i + 1][..i] == paras[..i];
      var para := paras[i];
      while |para| > n
        invariant Progress(out, cur, groups, group, done, n) && AfterSlice(groups, group)
        invariant done + PiecesOf(para, n) == Pieces(paras[..i + 1], n)
        decreases |para|
      {
        if cur != "" {
          out, groups := Flush(out, cur, groups, group, done, n);
          cur, group := "", [];
        }
        SliceKeeps(out, groups, done, para[..n], n);
        out := out + [para[..n]];
        groups := groups + [[Slice(para[..n])]];
        SameSplit(done, para, n);
        done := done + [Slice(para[..n])];
        para := para[n..];
      }
      ghost var x := Para(para + "\n\n");
      if |cur| + |para| + 2 > n && cur != "" {
        out, groups := Flush(out, cur, groups, group, done, n);
        cur, group := "", [];
      }
      ParaKeeps(out, cur, groups, group, done, para, n);
      cur := cur + (para + "\n\n");
      group, done := group + [x], done + [x];
    }
    assert paras[..|paras|] == paras;
    if !Text.Blank(cur) {
      out, groups := Flush(out, cur, groups, group, done, n);
      group := [];
    }
    GreedyInit(groups, group, n);
    dropped := group;
    if out == [] {
      out := [text];
      NothingFlushed(text, group, n);
    }
  }

  /** `out.append(cur)`. */
  method Flush(out: seq<string>, cur: string, ghost groups: seq<seq<Piece>>, ghost group: seq<Piece>,
               ghost done: seq<Piece>, ghost n: nat)
    returns (out': seq<string>, ghost groups': seq<seq<Piece>>)
    requires Progress(out, cur, groups, group, done, n) && cur != ""
    ensures out' == out + [cur] && groups' == groups + [group]
    ensures Progress(out', "", groups', [], done, n)
    ensures forall p: string :: |cur| + |p| + 2 > n ==> NoRoom(group, [Para(p + "\n\n")], n)
  {
    FlushKeeps(out, cur, groups, group, done, n);
    out', groups' := out + [cur], groups + [group];
  }

  lemma SameSplit(done: seq<Piece>, para: string, n: nat)
    requires 0 < n < |para|
    ensures done + PiecesOf(para, n) == done + [Slice(para[..n])] + PiecesOf(para[n..], n)
  {
  }

  lemma NothingFlushed(text: string, group: seq<Piece>, n: nat)
    requires n > 0 && Fits(group, n) && group[0].Para? && group == Pieces(Split(text), n)
    ensures |text| <= n
  {
    PiecesSpell(Split(text), n);
    SplitRejoins(text);
  }

  // ------------------------------------------------------------- theorems

  lemma {:induction false} ConcatOfGroups(chunks: seq<string>, groups: seq<seq<Piece>>, n: nat)
    requires Packs(chunks, groups, n)
    ensures Concat(chunks) == TextOf(Flatten(groups))
  {
    if chunks != [] {
      var k := |chunks| - 1;
      ConcatOfGroups(chunks[..k], groups[..k], n);
      TextOfConcat(Flatten(groups[..k]), groups[k]);
    }
  }

  lemma SameUpToSpace(a: string, tail: string, text: string)
    requires a + tail == text + "\n\n" && Text.Blank(tail)
    ensures Text.RStrip(a) == Text.RStrip(text)
  {
    Text.RStripDropsBlank(a, tail);
    Text.RStripDropsBlank(text, "\n\n");
  }

  /** What the chunks owe the text: nothing but trailing white space is lost. */
  lemma ChunksKeepText(text: string, n: nat, out: seq<string>, groups: seq<seq<Piece>>, dropped: seq<Piece>)
    requires n > 0
    requires Flatten(groups) + dropped == Pieces(Split(text), n) && Text.Blank(TextOf(dropped))
    requires Packs(out, groups, n) || out == [text]
    ensures Text.RStrip(Concat(out)) == Text.RStrip(text)
  {
    if Packs(out, groups, n) {
      PiecesSpell(Split(text), n);
      SplitRejoins(text);
      TextOfConcat(Flatten(groups), dropped);
      ConcatOfGroups(out, groups, n);
      SameUpToSpace(Concat(out), TextOf(dropped), text);
    } else {
      assert [text][..0] == [] && "" + text == text;
      assert Concat(out) == text;
    }
  }

  /** Every chunk is short. */
  lemma ChunksBounded(out: seq<string>, groups: seq<seq<Piece>>, n: nat)
    requires Packs(out, groups, n)
    ensures forall i | 0 <= i < |out| :: |out[i]| <= n + 2
  {
    forall i | 0 <= i < |out| ensures |out[i]| <= n + 2 {
      SliceText(groups[i], n);
    }
  }

  lemma SliceText(group: seq<Piece>, n: nat)
    requires Fits(group, n)
    ensures |TextOf(group)| <= n + 2
  {
    if group[0].Slice? {
      assert group[..0] == [];
    }
  }

  /** The method as its caller sees it. */
  method ChunksForTelegram(text: string) returns (out: seq<string>)
    ensures out != []
    ensures Text.RStrip(Concat(out)) == Text.RStrip(text)
    ensures forall i | 0 <= i < |out| :: |out[i]| <= 3902
  {
    ghost var groups, dropped;
    out, groups, dropped := Chunks(text, 3900);
    ChunksKeepText(text, 3900, out, groups, dropped);
    if Packs(out, groups, 3900) {
      ChunksBounded(out, groups, 3900);
    }
  }
}
