/**
 * Go strings as the modelled code sees them: sequences of bytes, together with
 * the library helpers the core calls (textproto.TrimString, strings.Cut,
 * strings.Count) and a splitting function that names what a loop of Cuts does.
 */
module GoStrings {

  newtype byte = b: int | 0 <= b < 256

  /** A Go `string` or `[]byte`: a sequence of bytes, no encoding implied. */
  type Str = seq<byte>

  const TAB: byte := 9
  const LF: byte := 10
  const CR: byte := 13
  const SP: byte := 32
  const PCT: byte := 37
  const AMP: byte := 38
  const PLUS: byte := 43
  const SEMI: byte := 59
  const EQ: byte := 61

  /** The bytes of an ASCII/Latin-1 literal, for writing constants and examples. */
  function Ascii(s: string): Str
    requires forall i :: 0 <= i < |s| ==> s[i] as int < 256
  {
    seq(|s|, i requires 0 <= i < |s| => s[i] as int as byte)
  }

  /** The bytes textproto treats as white space: space, tab, LF and CR. */
  predicate IsAsciiSpace(b: byte) {
    b == SP || b == TAB || b == LF || b == CR
  }

  predicate AllSpace(s: Str) {
    forall i :: 0 <= i < |s| ==> IsAsciiSpace(s[i])
  }

  predicate NoLeadingSpace(s: Str) {
    |s| == 0 || !IsAsciiSpace(s[0])
  }

  predicate NoTrailingSpace(s: Str) {
    |s| == 0 || !IsAsciiSpace(s[|s| - 1])
  }

  /** Number of occurrences of `c` in `s` (strings.Count with a one-byte separator). */
  function Count(s: Str, c: byte): nat {
    if s == [] then 0 else (if s[0] == c then 1 else 0) + Count(s[1..], c)
  }

  lemma {:induction false} CountConcat(a: Str, b: Str, c: byte)
    ensures Count(a + b, c) == Count(a, c) + Count(b, c)
  {
    if a == [] {
      assert a + b == b;
    } else {
      assert (a + b)[1..] == a[1..] + b;
      CountConcat(a[1..], b, c);
    }
  }

  /** Counting in a slice never finds more than counting in the whole. */
  lemma CountSlice(s: Str, i: nat, j: nat, c: byte)
    requires i <= j <= |s|
    ensures Count(s[i..j], c) <= Count(s, c)
  {
    assert s == s[..i] + s[i..j] + s[j..];
    CountConcat(s[..i] + s[i..j], s[j..], c);
    CountConcat(s[..i], s[i..j], c);
  }

  /** Number of white-space bytes at the front of `s`. */
  function LeadingSpace(s: Str): (n: nat)
    ensures n <= |s|
    decreases |s|
  {
    if |s| > 0 && IsAsciiSpace(s[0]) then 1 + LeadingSpace(s[1..]) else 0
  }

  /** Number of white-space bytes at the end of `s`. */
  function TrailingSpace(s: Str): (n: nat)
    ensures n <= |s|
    decreases |s|
  {
    if |s| > 0 && IsAsciiSpace(s[|s| - 1]) then 1 + TrailingSpace(s[..|s| - 1]) else 0
  }

  /** LeadingSpace counts exactly the white space before the first other byte. */
  lemma {:induction false} LeadingSpaceSpec(s: Str)
    ensures AllSpace(s[..LeadingSpace(s)])
    ensures NoLeadingSpace(s[LeadingSpace(s)..])
    decreases |s|
  {
    if |s| > 0 && IsAsciiSpace(s[0]) {
      var t := s[1..];
      LeadingSpaceSpec(t);
      var k := LeadingSpace(s);
      assert t[k - 1..] == s[k..];
      forall j | 0 <= j < k
        ensures IsAsciiSpace(s[..k][j])
      {
        if j > 0 { assert s[..k][j] == t[..k - 1][j - 1]; }
      }
    }
  }

  /** TrailingSpace counts exactly the white space after the last other byte. */
  lemma {:induction false} TrailingSpaceSpec(s: Str)
    ensures AllSpace(s[|s| - TrailingSpace(s)..])
    ensures NoTrailingSpace(s[..|s| - TrailingSpace(s)])
    decreases |s|
  {
    if |s| > 0 && IsAsciiSpace(s[|s| - 1]) {
      var t := s[..|s| - 1];
      TrailingSpaceSpec(t);
      var k := |s| - TrailingSpace(s);
      assert t[..k] == s[..k];
      forall j | 0 <= j < |s| - k
        ensures IsAsciiSpace(s[k..][j])
      {
        if j < |s| - 1 - k { assert s[k..][j] == t[k..][j]; }
      }
    }
  }

  /** Where TrimString's result starts in `s`. */
  function TrimStart(s: Str): (i: nat)
    ensures i <= |s|
  {
    LeadingSpace(s)
  }

  /** Where TrimString's result ends in `s`. */
  function TrimEnd(s: Str): (j: nat)
    ensures TrimStart(s) <= j <= |s|
  {
    |s| - TrailingSpace(s[TrimStart(s)..])
  }

  /**
   * textproto.TrimString: cuts white space at both ends; the result neither
   * starts nor ends with white space.
   */
  function TrimString(s: Str): (r: Str)
    ensures NoLeadingSpace(r) && NoTrailingSpace(r)
  {
    var i, j := TrimStart(s), TrimEnd(s);
    var l := s[i..];
    LeadingSpaceSpec(s);
    TrailingSpaceSpec(l);
    assert l[..j - i] == s[i..j];
    assert j > i ==> s[i..j][0] == l[0];
    s[i..j]
  }

  /** TrimString cuts only white space, at the two ends. */
  lemma TrimStringSlice(s: Str)
    ensures AllSpace(s[..TrimStart(s)]) && AllSpace(s[TrimEnd(s)..])
  {
    var i, j := TrimStart(s), TrimEnd(s);
    var l := s[i..];
    LeadingSpaceSpec(s);
    TrailingSpaceSpec(l);
    assert l[j - i..] == s[j..];
  }

  /** Trimming keeps only bytes of the input, so it never adds an occurrence. */
  lemma TrimStringCount(s: Str, c: byte)
    ensures Count(TrimString(s), c) <= Count(s, c)
    ensures c !in s ==> c !in TrimString(s)
  {
    CountSlice(s, TrimStart(s), TrimEnd(s), c);
  }

  /** A string trims to nothing exactly when it is all white space. */
  lemma TrimStringBlank(s: Str)
    ensures TrimString(s) == [] <==> AllSpace(s)
  {
    var i, j := TrimStart(s), TrimEnd(s);
    TrimStringSlice(s);
    if i == j {
      forall k | 0 <= k < |s| ensures IsAsciiSpace(s[k]) {
        if k < i { assert s[..i][k] == s[k]; } else { assert s[j..][k - j] == s[k]; }
      }
    } else {
      assert TrimString(s)[0] == s[i];
    }
  }

  /** White space in front of a trimmed, non-empty string is all that trimming removes. */
  lemma {:induction false} TrimStringPadded(pad: Str, p: Str)
    requires AllSpace(pad) && p != [] && NoLeadingSpace(p) && NoTrailingSpace(p)
    ensures TrimString(pad + p) == p
  {
    LeadingPadded(pad, p);
    var s := pad + p;
    assert s[|pad|..] == p;
  }

  lemma {:induction false} LeadingPadded(pad: Str, p: Str)
    requires AllSpace(pad) && p != [] && NoLeadingSpace(p)
    ensures LeadingSpace(pad + p) == |pad|
    decreases |pad|
  {
    if pad != [] {
      assert (pad + p)[1..] == pad[1..] + p;
      LeadingPadded(pad[1..], p);
    } else {
      assert pad + p == p;
    }
  }

  /** The three results of strings.Cut. */
  datatype CutResult = CutResult(before: Str, after: Str, found: bool)

  /**
   * strings.Cut with a one-byte separator: the text around the FIRST
   * occurrence of `sep`, or the whole string and "" when there is none.
   * Its full contract is CutSpec; the one stated here is what loops over the
   * remainder need to terminate.
   */
  function Cut(s: Str, sep: byte): (r: CutResult)
    ensures r.found ==> |r.after| < |s|
    ensures !r.found ==> r.after == []
    decreases |s|
  {
    if s == [] then CutResult([], [], false)
    else if s[0] == sep then CutResult([], s[1..], true)
    else
      var t := Cut(s[1..], sep);
      CutResult([s[0]] + t.before, t.after, t.found)
  }

  /** Cut finds the first separator: none before it, and the two sides rebuild `s`. */
  lemma {:induction false} CutSpec(s: Str, sep: byte)
    ensures Cut(s, sep).found <==> sep in s
    ensures sep !in Cut(s, sep).before
    ensures Cut(s, sep).found ==> s == Cut(s, sep).before + [sep] + Cut(s, sep).after
    ensures !Cut(s, sep).found ==> Cut(s, sep).before == s
    decreases |s|
  {
    if s != [] && s[0] != sep {
      CutSpec(s[1..], sep);
      var t := Cut(s[1..], sep);
      if t.found {
        assert s == [s[0]] + t.before + [sep] + t.after;
      }
    }
  }

  /** Cutting a string whose first `sep` is known gives back its two sides. */
  lemma {:induction false} CutAt(a: Str, b: Str, sep: byte)
    requires sep !in a
    ensures Cut(a + [sep] + b, sep) == CutResult(a, b, true)
    decreases |a|
  {
    if a != [] {
      assert (a + [sep] + b)[1..] == a[1..] + [sep] + b;
      CutAt(a[1..], b, sep);
    } else {
      assert a + [sep] + b == [sep] + b;
    }
  }

  /** Joins `parts` with one `sep` between neighbours (strings.Join). */
  function Join(parts: seq<Str>, sep: byte): Str {
    if |parts| == 0 then []
    else if |parts| == 1 then parts[0]
    else parts[0] + [sep] + Join(parts[1..], sep)
  }

  /**
   * The segments between the occurrences of `sep` (strings.Split), computed
   * the way the cookie loop computes them: by repeated Cuts.
   */
  function Split(s: Str, sep: byte): (parts: seq<Str>)
    ensures parts != []
    decreases |s|
  {
    var c := Cut(s, sep);
    if c.found then [c.before] + Split(c.after, sep) else [s]
  }

  /**
   * Split and Join are inverse: the parts hold no separator, there is one
   * more part than there are separators, and joining them restores `s`.
   */
  lemma {:induction false} SplitParts(s: Str, sep: byte)
    ensures |Split(s, sep)| == Count(s, sep) + 1
    ensures forall i :: 0 <= i < |Split(s, sep)| ==> sep !in Split(s, sep)[i]
    ensures Join(Split(s, sep), sep) == s
    decreases |s|
  {
    var c := Cut(s, sep);
    CutSpec(s, sep);
    if c.found {
      SplitParts(c.after, sep);
      CountConcat(c.before + [sep], c.after, sep);
      CountConcat(c.before, [sep], sep);
      NoSepCount(c.before, sep);
    } else {
      NoSepCount(s, sep);
    }
  }

  lemma {:induction false} NoSepCount(s: Str, c: byte)
    requires c !in s
    ensures Count(s, c) == 0
  {
    if s != [] { NoSepCount(s[1..], c); }
  }

  /** Splitting undoes joining when no part contains the separator. */
  lemma {:induction false} SplitJoin(parts: seq<Str>, sep: byte)
    requires parts != []
    requires forall i :: 0 <= i < |parts| ==> sep !in parts[i]
    ensures Split(Join(parts, sep), sep) == parts
    decreases |parts|
  {
    if |parts| > 1 {
      CutAt(parts[0], Join(parts[1..], sep), sep);
      SplitJoin(parts[1..], sep);
    } else {
      CutSpec(parts[0], sep);
    }
  }

  // ---------------------------------------------------------------------
  // Regrouping concatenations, for the steps of the loops that append

  lemma ConcatAssoc<T>(a: seq<T>, b: seq<T>, c: seq<T>)
    ensures a + (b + c) == a + b + c
  {
  }

  /** Splitting a two-element separator between what precedes and what follows it. */
  lemma RegroupTwo<T>(a: seq<T>, b: seq<T>, c: seq<T>, d: seq<T>)
    requires |c| == 2
    ensures a + (b + c + d) == a + b + [c[0]] + ([c[1]] + d)
  {
    assert c == [c[0]] + [c[1]];
  }

  /** Appending "a m b z" as one piece or element by element gives the same text. */
  lemma RegroupPair<T>(x: seq<T>, t: seq<T>, a: seq<T>, m: T, b: seq<T>, z: T)
    ensures x + (t + (a + [m] + b + [z])) == x + t + a + [m] + b + [z]
  {
  }
}
