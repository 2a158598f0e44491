/** The few string operations of Python that the modelled code leans on. */
module Text {

  /** The characters `str.strip` removes. */
  predicate IsSpace(c: char) {
    || '\t' <= c <= '\r' || '\U{1C}' <= c <= ' ' || c == '\U{85}' || c == '\U{A0}' || c == '\U{1680}'
    || '\U{2000}' <= c <= '\U{200A}' || c == '\U{2028}' || c == '\U{2029}' || c == '\U{202F}'
    || c == '\U{205F}' || c == '\U{3000}'
  }

  predicate Blank(s: string) {
    forall i | 0 <= i < |s| :: IsSpace(s[i])
  }

  function Strip(s: string): (r: string)
    ensures r == "" <==> Blank(s)
    ensures r != "" ==> !IsSpace(r[0]) && !IsSpace(r[|r| - 1])
    decreases |s|
  {
    if s == "" then ""
    else if IsSpace(s[0]) then Strip(s[1..])
    else if IsSpace(s[|s| - 1]) then Strip(s[..|s| - 1])
    else s
  }

  /** Whatever blanks surround a text that neither begins nor ends with one, stripping leaves that text. */
  lemma {:induction false} StripPadded(a: string, w: string, b: string)
    requires Blank(a) && Blank(b) && (w != "" ==> !IsSpace(w[0]) && !IsSpace(w[|w| - 1]))
    ensures Strip(a + w + b) == w
    decreases |a| + |b|
  {
    var s := a + w + b;
    if a != "" {
      assert s[0] == a[0] && s[1..] == a[1..] + w + b;
      StripPadded(a[1..], w, b);
    } else if w == "" {
      assert Blank(s);
    } else if b != "" {
      assert s[0] == w[0] && s[|s| - 1] == b[|b| - 1] && s[..|s| - 1] == a + w + b[..|b| - 1];
      StripPadded(a, w, b[..|b| - 1]);
    } else {
      assert s == w;
    }
  }

  /** `str.rstrip`. */
  function RStrip(s: string): (r: string)
    ensures r <= s && Blank(s[|r|..])
    ensures r != "" ==> !IsSpace(r[|r| - 1])
  {
    if s != "" && IsSpace(s[|s| - 1]) then RStrip(s[..|s| - 1]) else s
  }

  lemma {:induction false} RStripDropsBlank(s: string, tail: string)
    requires Blank(tail)
    ensures RStrip(s + tail) == RStrip(s)
  {
    if tail == "" {
      assert s + tail == s;
    } else {
      RStripDropsBlank(s, tail[..|tail| - 1]);
      assert (s + tail)[..|s + tail| - 1] == s + tail[..|tail| - 1];
    }
  }

  /** `str.lower`, as far as comparison with lower-case ASCII words can tell: the Kelvin sign is the one
      other character that lower-cases to a single ASCII letter. */
  function LowerChar(c: char): char {
    if 'A' <= c <= 'Z' then c - 'A' + 'a' else if c == '\U{212A}' then 'k' else c
  }

  function Lower(s: string): (r: string)
    ensures |r| == |s|
  {
    seq(|s|, i requires 0 <= i < |s| => LowerChar(s[i]))
  }

  predicate StartsAt(s: string, sub: string, i: nat) {
    i + |sub| <= |s| && s[i..i + |sub|] == sub
  }

  /** Python's `sub in s`. */
  predicate Contains(s: string, sub: string) {
    exists i | 0 <= i <= |s| :: StartsAt(s, sub, i)
  }

  function EndsWith(s: string, suffix: string): bool {
    |suffix| <= |s| && s[|s| - |suffix|..] == suffix
  }
}
