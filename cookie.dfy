/**
 * The cookie-line parser of cookie.go: `readCookies` turns a header fragment
 * such as "a=1; b=2" into an ordered list of name/value records. The format is
 * the cookie-string of section 4.2.1 of RFC 6265, read leniently: nothing is
 * validated, segments are only trimmed and cut at their first '='.
 */
module Cookies {
  import opened GoStrings

  /** One parsed record; `name` and `value` are exactly the bytes around the first '='. */
  datatype Cookie = Cookie(name: Str, value: Str)

  /** The record a trimmed, non-empty segment yields: it is cut at its first '='. */
  function SegmentCookie(part: Str): Cookie {
    var t := Cut(part, EQ);
    Cookie(t.before, t.after)
  }

  /**
   * A segment splits at its first '=' only: the name holds no '=', the value
   * may; without '=' the whole segment is the name and the value is empty.
   */
  lemma SegmentCookieSpec(part: Str)
    ensures EQ !in SegmentCookie(part).name
    ensures EQ in part ==> part == SegmentCookie(part).name + [EQ] + SegmentCookie(part).value
    ensures EQ !in part ==> SegmentCookie(part).name == part && SegmentCookie(part).value == []
  {
    CutSpec(part, EQ);
  }

  /** What one ';'-separated segment contributes: nothing when blank, else one record. */
  function Segment(segment: Str): (cs: seq<Cookie>)
    ensures |cs| <= 1
  {
    var p := TrimString(segment);
    if p == [] then [] else [SegmentCookie(p)]
  }

  /** The records of the segments, in segment order. */
  function Records(segments: seq<Str>): (cs: seq<Cookie>)
    ensures |cs| <= |segments|
  {
    if segments == [] then [] else Segment(segments[0]) + Records(segments[1..])
  }

  /** A segment free of ';' yields at most one record, and it is well formed. */
  lemma SegmentParsed(segment: Str)
    requires SEMI !in segment
    ensures Segment(segment) == [] || Parsed(Segment(segment)[0])
  {
    var p := TrimString(segment);
    TrimStringCount(segment, SEMI);
    if p != [] {
      var c := SegmentCookie(p);
      SegmentCookieSpec(p);
      if EQ in p {
        assert c.name == p[..|c.name|];
        assert c.value == p[|c.name| + 1..];
      }
    }
  }

  /**
   * Records made from segments free of ';' carry no ';', have no white space
   * at their outer ends, and no '=' in the name.
   */
  lemma {:induction false} RecordsParsed(segments: seq<Str>)
    requires forall i :: 0 <= i < |segments| ==> SEMI !in segments[i]
    ensures forall k :: 0 <= k < |Records(segments)| ==> Parsed(Records(segments)[k])
  {
    if segments != [] {
      var head, tail := Segment(segments[0]), Records(segments[1..]);
      SegmentParsed(segments[0]);
      RecordsParsed(segments[1..]);
      forall k | 0 <= k < |head + tail|
        ensures Parsed((head + tail)[k])
      {
        if k >= |head| { assert (head + tail)[k] == tail[k - |head|]; }
      }
    }
  }

  /** What every record the parser produces satisfies. */
  predicate Parsed(c: Cookie) {
    && EQ !in c.name && SEMI !in c.name && SEMI !in c.value
    && NoLeadingSpace(c.name) && NoTrailingSpace(c.value)
  }

  /**
   * The meaning of readCookies: the empty line gives no records; otherwise
   * the trimmed line is split on ';' and each segment is read by Records.
   */
  function CookieLine(line: Str): (cs: seq<Cookie>)
    ensures |line| == 0 ==> cs == []
    ensures |cs| <= Count(line, SEMI) + 1
    ensures forall k :: 0 <= k < |cs| ==> Parsed(cs[k])
  {
    if |line| == 0 then []
    else
      TrimStringCount(line, SEMI);
      SplitParts(TrimString(line), SEMI);
      RecordsParsed(Split(TrimString(line), SEMI));
      Records(Split(TrimString(line), SEMI))
  }

  /** readCookies (cookie.go), with the same early return and the same loop. */
  method ReadCookies(line: Str) returns (cookies: seq<Cookie>)
    ensures cookies == CookieLine(line)
  {
    if |line| == 0 {
      return [];
    }
    cookies := [];
    var rest := TrimString(line);
    while |rest| > 0
      invariant cookies + Records(Split(rest, SEMI)) == CookieLine(line)
      decreases |rest|
    {
      ReadStep(cookies, rest, CookieLine(line));
      var cut := Cut(rest, SEMI);
      var part := TrimString(cut.before);
      SegmentRecord(cut.before);
      rest := cut.after;
      if part == [] {
        assert cookies + [] == cookies;
        continue;
      }
      var nv := Cut(part, EQ);
      cookies := cookies + [Cookie(nv.before, nv.after)];
    }
    RecordsStep(rest);
  }

  /**
   * One turn of the readCookies loop keeps its invariant: the records still
   * to come are those of the text before the next ';', then those after it.
   */
  lemma ReadStep(done: seq<Cookie>, rest: Str, all: seq<Cookie>)
    requires rest != [] && done + Records(Split(rest, SEMI)) == all
    ensures done + Segment(Cut(rest, SEMI).before) + Records(Split(Cut(rest, SEMI).after, SEMI)) == all
  {
    RecordsStep(rest);
    ConcatAssoc(done, Segment(Cut(rest, SEMI).before), Records(Split(Cut(rest, SEMI).after, SEMI)));
  }

  /**
   * The records of the remaining line are those of the text before its
   * first ';' followed by those after it; the empty remainder has none.
   */
  lemma RecordsStep(rest: Str)
    ensures rest == [] ==> Records(Split(rest, SEMI)) == []
    ensures rest != [] ==>
      var cut := Cut(rest, SEMI);
      Records(Split(rest, SEMI)) == Segment(cut.before) + Records(Split(cut.after, SEMI))
  {
    var cut := Cut(rest, SEMI);
    CutSpec(rest, SEMI);
    if rest == [] || !cut.found {
      assert Split([], SEMI) == [[]];
      assert Records([[]]) == Segment([]) + Records([]);
    }
  }

  /** Records maps segments one at a time: it distributes over concatenation. */
  lemma {:induction false} RecordsConcat(a: seq<Str>, b: seq<Str>)
    ensures Records(a + b) == Records(a) + Records(b)
  {
    if a == [] {
      assert a + b == b;
    } else {
      assert (a + b)[1..] == a[1..] + b;
      RecordsConcat(a[1..], b);
    }
  }

  /**
   * What one segment yields: nothing exactly when it is all white space (it
   * then trims to nothing), otherwise the record cut from its trimmed text.
   */
  lemma SegmentRecord(segment: Str)
    ensures Records([segment]) == Segment(segment)
    ensures TrimString(segment) == [] <==> AllSpace(segment)
    ensures AllSpace(segment) ==> Segment(segment) == []
    ensures !AllSpace(segment) ==> Segment(segment) == [SegmentCookie(TrimString(segment))]
  {
    TrimStringBlank(segment);
    assert Records([segment]) == Segment(segment) + Records([]);
  }

  /** Renders records as a Cookie header value: "n1=v1; n2=v2". */
  function Render(cs: seq<Cookie>): Str {
    if cs == [] then []
    else if |cs| == 1 then Pair(cs[0])
    else Pair(cs[0]) + [SEMI, SP] + Render(cs[1..])
  }

  function Pair(c: Cookie): Str {
    c.name + [EQ] + c.value
  }

  /** A rendered non-empty list starts with a name byte or '=' and ends with a value byte or '='. */
  lemma {:induction false} RenderEnds(cs: seq<Cookie>)
    requires cs != []
    requires forall k :: 0 <= k < |cs| ==> Parsed(cs[k])
    ensures Render(cs) != [] && NoLeadingSpace(Render(cs)) && NoTrailingSpace(Render(cs))
  {
    var p := Pair(cs[0]);
    assert p[0] == if cs[0].name == [] then EQ else cs[0].name[0];
    if |cs| == 1 {
      assert p[|p| - 1] == if cs[0].value == [] then EQ else cs[0].value[|cs[0].value| - 1];
    } else {
      RenderEnds(cs[1..]);
      var r := Render(cs[1..]);
      assert Render(cs)[|Render(cs)| - 1] == r[|r| - 1];
    }
  }

  /** A rendered well-formed record is non-empty, free of ';', and not padded. */
  lemma PairShape(c: Cookie)
    requires Parsed(c)
    ensures Pair(c) != [] && SEMI !in Pair(c)
    ensures NoLeadingSpace(Pair(c)) && NoTrailingSpace(Pair(c))
    ensures SegmentCookie(Pair(c)) == c
  {
    var p := Pair(c);
    assert p[0] == if c.name == [] then EQ else c.name[0];
    assert p[|p| - 1] == if c.value == [] then EQ else c.value[|c.value| - 1];
    CutAt(c.name, c.value, EQ);
  }

  /** A rendered record, indented or not, is a segment that reads back as that record. */
  lemma SegmentOfPair(c: Cookie, pad: Str)
    requires Parsed(c) && AllSpace(pad)
    ensures SEMI !in pad + Pair(c)
    ensures Segment(pad + Pair(c)) == [c]
  {
    PairShape(c);
    TrimStringPadded(pad, Pair(c));
  }

  /** A segment free of ';' followed by ';' and more text: its records come first. */
  lemma RecordsAfterSegment(head: Str, tail: Str)
    requires SEMI !in head
    ensures Records(Split(head + [SEMI] + tail, SEMI)) == Segment(head) + Records(Split(tail, SEMI))
    ensures Records(Split(head, SEMI)) == Segment(head)
  {
    CutAt(head, tail, SEMI);
    CutSpec(head, SEMI);
    assert Split(head, SEMI) == [head];
    assert Records([head]) == Segment(head) + Records([]);
  }

  /** Every record of `cs` is one the parser can produce. */
  predicate AllParsed(cs: seq<Cookie>) {
    cs == [] || (Parsed(cs[0]) && AllParsed(cs[1..]))
  }

  lemma {:induction false} AllParsedAt(cs: seq<Cookie>)
    requires forall k :: 0 <= k < |cs| ==> Parsed(cs[k])
    ensures AllParsed(cs)
  {
    if cs != [] { AllParsedAt(cs[1..]); }
  }

  /** The first record of a rendered list comes back first, then the indented rest. */
  lemma RenderedHead(cs: seq<Cookie>, pad: Str)
    requires |cs| > 1 && Parsed(cs[0]) && AllSpace(pad)
    ensures Records(Split(pad + Render(cs), SEMI)) == [cs[0]] + Records(Split([SP] + Render(cs[1..]), SEMI))
  {
    var head := pad + Pair(cs[0]);
    SegmentOfPair(cs[0], pad);
    RegroupTwo(pad, Pair(cs[0]), [SEMI, SP], Render(cs[1..]));
    RecordsAfterSegment(head, [SP] + Render(cs[1..]));
  }

  /** A rendered one-record list comes back as that record. */
  lemma RenderedLast(c: Cookie, pad: Str)
    requires Parsed(c) && AllSpace(pad)
    ensures Records(Split(pad + Render([c]), SEMI)) == [c]
  {
    SegmentOfPair(c, pad);
    RecordsAfterSegment(pad + Pair(c), []);
  }

  /** Parsing the segments of a rendered list, optionally indented by one space, gives it back. */
  lemma {:induction false} RecordsOfRendered(cs: seq<Cookie>, pad: Str)
    requires cs != [] && AllParsed(cs)
    requires pad == [] || pad == [SP]
    ensures Records(Split(pad + Render(cs), SEMI)) == cs
    decreases |cs|
  {
    if |cs| == 1 {
      RenderedLast(cs[0], pad);
      assert [cs[0]] == cs;
    } else {
      RenderedHead(cs, pad);
      RecordsOfRendered(cs[1..], [SP]);
      assert [cs[0]] + cs[1..] == cs;
    }
  }

  /**
   * Round trip: records whose names hold no '=' or ';' and do not start with
   * white space, and whose values hold no ';' and do not end with white space,
   * are read back unchanged from their rendering.
   */
  lemma CookieRoundTrip(cs: seq<Cookie>)
    requires forall k :: 0 <= k < |cs| ==> Parsed(cs[k])
    ensures CookieLine(Render(cs)) == cs
  {
    if cs != [] {
      RenderEnds(cs);
      TrimStringPadded([], Render(cs));
      assert [] + Render(cs) == Render(cs);
      AllParsedAt(cs);
      RecordsOfRendered(cs, []);
    }
  }

  /** White space around '=' is kept: "a = 1" reads as name "a " and value " 1". */
  lemma SpacesAroundEqualsKept()
    ensures CookieLine([97, SP, EQ, SP, 49]) == [Cookie([97, SP], [SP, 49])]
  {
    var name, value: Str := [97, SP], [SP, 49];
    var line := name + [EQ] + value;
    assert line == [97, SP, EQ, SP, 49];
    assert TrimString(line) == line by {
      TrimStringPadded([], line);
      assert [] + line == line;
    }
    assert Split(line, SEMI) == [line] by {
      CutSpec(line, SEMI);
    }
    SegmentRecord(line);
    CutAt(name, value, EQ);
  }
}
