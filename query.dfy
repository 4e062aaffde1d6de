/**
 * The query parameters a builder collects (a multi-map from key to the
 * values added for it, in insertion order) and the query string
 * buildQueryString makes of them and of the URI's existing query.
 *
 * Go's map iteration order is unspecified, so the merge is defined for a
 * key order given as a parameter; every property below holds for every key
 * order of the map (IsKeyOrder).
 */
module Query {
  import opened Wrappers
  import opened GoStrings
  import opened UrlEscape

  /** The builder's `qs` field: key to the values added for it, oldest first. */
  type Params = map<Str, seq<Str>>

  /** One key/value pair of a query string. */
  type Pair = (Str, Str)

  predicate Distinct(order: seq<Str>) {
    forall i, j :: 0 <= i < j < |order| ==> order[i] != order[j]
  }

  /** `order` lists every key of `qs` exactly once: one possible iteration order. */
  predicate IsKeyOrder(order: seq<Str>, qs: Params) {
    && Distinct(order)
    && (forall k :: k in order ==> k in qs)
    && (forall k :: k in qs ==> k in order)
  }

  /** Every key present holds at least one value (what only adding values keeps). */
  predicate NonEmptyLists(qs: Params) {
    forall k :: k in qs ==> qs[k] != []
  }

  /** Param: `v` goes after the values already stored for `k`; a new key starts its own list. */
  function AddParam(qs: Params, k: Str, v: Str): (r: Params)
    ensures k in r && r[k] == (if k in qs then qs[k] else []) + [v]
    ensures r.Keys == qs.Keys + {k}
    ensures forall k' :: k' in qs && k' != k ==> r[k'] == qs[k']
    ensures NonEmptyLists(qs) ==> NonEmptyLists(r)
  {
    if k in qs then qs[k := qs[k] + [v]] else qs[k := [v]]
  }

  /** The pairs of one key, in the order of its values. */
  function Tag(k: Str, vs: seq<Str>): (es: seq<Pair>)
    ensures |es| == |vs|
  {
    seq(|vs|, i requires 0 <= i < |vs| => (k, vs[i]))
  }

  /** All pairs of `qs`, key by key in `order`, each key's values in list order. */
  function Entries(qs: Params, order: seq<Str>): seq<Pair>
    requires forall k :: k in order ==> k in qs
  {
    if order == [] then []
    else
      var k := order[|order| - 1];
      Entries(qs, order[..|order| - 1]) + Tag(k, qs[k])
  }

  /** "esc(k)=esc(v)" */
  function RenderPair(e: Pair): Str {
    QueryEscape(e.0) + [EQ] + QueryEscape(e.1)
  }

  function RenderAll(es: seq<Pair>): (parts: seq<Str>)
    ensures |parts| == |es|
  {
    seq(|es|, i requires 0 <= i < |es| => RenderPair(es[i]))
  }

  /** What the loops of buildQueryString write for the pairs: "esc(k)=esc(v)&" each. */
  function Terminated(es: seq<Pair>): Str {
    if es == [] then [] else RenderPair(es[0]) + [AMP] + Terminated(es[1..])
  }

  /**
   * buildQueryString for the key order `order`: the existing query, then, when
   * there are parameters, '&' and every pair followed by '&'; then the last
   * byte is cut off, whatever it is. With no parameters and no existing query
   * the cut would index out of range, so the caller must exclude that case.
   */
  function MergeQuery(existing: Str, qs: Params, order: seq<Str>): Str
    requires IsKeyOrder(order, qs)
    requires |existing| > 0 || |qs| > 0
  {
    var buf := if |qs| > 0 then existing + [AMP] + Terminated(Entries(qs, order)) else existing;
    buf[..|buf| - 1]
  }

  // ---------------------------------------------------------------------
  // Rendering

  lemma {:induction false} TerminatedConcat(a: seq<Pair>, b: seq<Pair>)
    ensures Terminated(a + b) == Terminated(a) + Terminated(b)
  {
    if a == [] {
      assert a + b == b;
    } else {
      assert (a + b)[1..] == a[1..] + b;
      TerminatedConcat(a[1..], b);
    }
  }

  /** Writing one more pair after the pairs `es` appends "esc(k)=esc(v)&". */
  lemma AppendPair(base: Str, es: seq<Pair>, e: Pair)
    ensures base + Terminated(es + [e]) ==
      base + Terminated(es) + QueryEscape(e.0) + [EQ] + QueryEscape(e.1) + [AMP]
  {
    TerminatedSnoc(es, e);
    RegroupPair(base, Terminated(es), QueryEscape(e.0), EQ, QueryEscape(e.1), AMP);
  }

  lemma TerminatedSnoc(es: seq<Pair>, e: Pair)
    ensures Terminated(es + [e]) == Terminated(es) + (RenderPair(e) + [AMP])
  {
    TerminatedConcat(es, [e]);
    assert Terminated([e]) == RenderPair(e) + [AMP] + Terminated([]);
  }

  /** Each key's pairs grow by one per value written. */
  lemma TagStep(k: Str, vs: seq<Str>, j: nat)
    requires j < |vs|
    ensures Tag(k, vs[..j + 1]) == Tag(k, vs[..j]) + [(k, vs[j])]
  {
  }

  /** The pairs of the first i + 1 keys are those of the first i, then the next key's. */
  lemma EntriesStep(qs: Params, order: seq<Str>, i: nat)
    requires i < |order| && forall k :: k in order ==> k in qs
    ensures Entries(qs, order[..i + 1]) == Entries(qs, order[..i]) + Tag(order[i], qs[order[i]])
  {
    assert order[..i + 1][..i] == order[..i];
  }

  /** Before a key's first value, its pairs so far are none. */
  lemma StartKey(done: seq<Pair>, k: Str, vs: seq<Str>)
    ensures done + Tag(k, vs[..0]) == done
  {
    assert Tag(k, vs[..0]) == [];
  }

  /** Writing "esc(k)=esc(v)&" for the next value of `k` extends the written pairs by that pair. */
  lemma WritePair(base: Str, done: seq<Pair>, k: Str, vs: seq<Str>, j: nat)
    requires j < |vs|
    ensures base + Terminated(done + Tag(k, vs[..j + 1])) ==
      base + Terminated(done + Tag(k, vs[..j])) + QueryEscape(k) + [EQ] + QueryEscape(vs[j]) + [AMP]
  {
    AppendPair(base, done + Tag(k, vs[..j]), (k, vs[j]));
    TagStep(k, vs, j);
    assert done + Tag(k, vs[..j + 1]) == done + Tag(k, vs[..j]) + [(k, vs[j])];
  }

  /** No pair rendering holds '&', and each holds at least the '='. */
  lemma RenderPairShape(e: Pair)
    ensures AMP !in RenderPair(e) && RenderPair(e) != []
  {
  }

  /** The written pairs are the '&'-joined pairs plus one trailing '&'. */
  lemma {:induction false} TerminatedJoin(es: seq<Pair>)
    requires es != []
    ensures Terminated(es) == Join(RenderAll(es), AMP) + [AMP]
  {
    if |es| > 1 {
      TerminatedJoin(es[1..]);
      assert RenderAll(es)[1..] == RenderAll(es[1..]);
      assert Terminated(es) == RenderPair(es[0]) + [AMP] + Join(RenderAll(es[1..]), AMP) + [AMP];
    } else {
      assert es[1..] == [];
    }
  }

  /** A join of non-empty parts ends with the last byte of its last part. */
  lemma {:induction false} JoinLast(parts: seq<Str>, sep: byte)
    requires parts != [] && parts[|parts| - 1] != []
    ensures var j := Join(parts, sep); var p := parts[|parts| - 1];
      j != [] && j[|j| - 1] == p[|p| - 1]
  {
    if |parts| > 1 {
      JoinLast(parts[1..], sep);
    }
  }

  // ---------------------------------------------------------------------
  // Which pairs are written

  /** The values of key `k` among the pairs, in order. */
  function ValuesOf(es: seq<Pair>, k: Str): seq<Str> {
    if es == [] then []
    else if es[0].0 == k then [es[0].1] + ValuesOf(es[1..], k)
    else ValuesOf(es[1..], k)
  }

  lemma {:induction false} ValuesOfConcat(a: seq<Pair>, b: seq<Pair>, k: Str)
    ensures ValuesOf(a + b, k) == ValuesOf(a, k) + ValuesOf(b, k)
  {
    if a == [] {
      assert a + b == b;
    } else {
      assert (a + b)[0] == a[0];
      assert (a + b)[1..] == a[1..] + b;
      ValuesOfConcat(a[1..], b, k);
      if a[0].0 == k {
        assert [a[0].1] + ValuesOf(a[1..], k) + ValuesOf(b, k) == [a[0].1] + (ValuesOf(a[1..], k) + ValuesOf(b, k));
      }
    }
  }

  lemma {:induction false} ValuesOfTag(k': Str, vs: seq<Str>, k: Str)
    ensures ValuesOf(Tag(k', vs), k) == if k' == k then vs else []
  {
    if vs != [] {
      assert Tag(k', vs)[1..] == Tag(k', vs[1..]);
      ValuesOfTag(k', vs[1..], k);
    }
  }

  /**
   * Whatever the key order, the pairs of a key are its stored values in
   * the order they were added, and a key outside the order has none.
   */
  lemma {:induction false} EntriesValues(qs: Params, order: seq<Str>, k: Str)
    requires Distinct(order) && forall k' :: k' in order ==> k' in qs
    ensures ValuesOf(Entries(qs, order), k) == if k in order then qs[k] else []
  {
    if order != [] {
      var n := |order| - 1;
      var init, last := order[..n], order[n];
      assert order == init + [last];
      assert last !in init by {
        forall i | 0 <= i < n ensures init[i] != last { assert order[i] != order[n]; }
      }
      EntriesValues(qs, init, k);
      ValuesOfConcat(Entries(qs, init), Tag(last, qs[last]), k);
      ValuesOfTag(last, qs[last], k);
    }
  }

  /** The number of values stored in `qs`, over all keys. */
  ghost function TotalValues(qs: Params): nat
    decreases qs.Keys
  {
    if qs == map[] then 0
    else
      var k :| k in qs;
      |qs[k]| + TotalValues(qs - {k})
  }

  /** TotalValues may remove the keys in any order. */
  lemma TotalValuesRemove(qs: Params, k: Str)
    requires k in qs
    ensures TotalValues(qs) == |qs[k]| + TotalValues(qs - {k})
    decreases qs.Keys
  {
    var k0 :| k0 in qs && TotalValues(qs) == |qs[k0]| + TotalValues(qs - {k0});
    if k0 != k {
      TotalValuesRemove(qs - {k0}, k);
      TotalValuesRemove(qs - {k}, k0);
      assert qs - {k0} - {k} == qs - {k} - {k0};
    }
  }

  /** The pairs of an order depend only on the lists of the keys it names. */
  lemma {:induction false} EntriesRestrict(qs: Params, qs': Params, order: seq<Str>)
    requires forall k :: k in order ==> k in qs && k in qs' && qs[k] == qs'[k]
    ensures Entries(qs, order) == Entries(qs', order)
  {
    if order != [] {
      EntriesRestrict(qs, qs', order[..|order| - 1]);
    }
  }

  /** Dropping the last key of an order leaves an order of the map without that key. */
  lemma KeyOrderInit(qs: Params, order: seq<Str>)
    requires IsKeyOrder(order, qs) && order != []
    ensures var n := |order| - 1;
      && order == order[..n] + [order[n]]
      && order[n] !in order[..n]
      && IsKeyOrder(order[..n], qs - {order[n]})
  {
    var n := |order| - 1;
    var init, last := order[..n], order[n];
    assert order == init + [last];
    assert last !in init by {
      forall i | 0 <= i < n ensures init[i] != last { assert order[i] != order[n]; }
    }
  }

  /** Whatever the key order, one pair is written per stored value. */
  lemma {:induction false} EntriesCount(qs: Params, order: seq<Str>)
    requires IsKeyOrder(order, qs)
    ensures |Entries(qs, order)| == TotalValues(qs)
  {
    if order == [] {
      assert qs.Keys == {};
    } else {
      var n := |order| - 1;
      var init, last := order[..n], order[n];
      KeyOrderInit(qs, order);
      EntriesCount(qs - {last}, init);
      EntriesRestrict(qs, qs - {last}, init);
      TotalValuesRemove(qs, last);
    }
  }

  /** With values stored, at least one pair is written. */
  lemma EntriesNonEmpty(qs: Params, order: seq<Str>)
    requires IsKeyOrder(order, qs) && NonEmptyLists(qs) && |qs| > 0
    ensures Entries(qs, order) != []
  {
    var k :| k in qs;
    assert k in order;
    var last := order[|order| - 1];
    assert Tag(last, qs[last]) != [];
  }

  // ---------------------------------------------------------------------
  // The merged query string

  /** As written: with no parameters, the existing query loses its last byte. */
  lemma MergeNoParams(existing: Str, qs: Params, order: seq<Str>)
    requires IsKeyOrder(order, qs) && |qs| == 0 && |existing| > 0
    ensures MergeQuery(existing, qs, order) == existing[..|existing| - 1]
    ensures |MergeQuery(existing, qs, order)| == |existing| - 1
  {
  }

  /**
   * With parameters: the existing query, '&', then the pairs joined by '&'
   * with no '&' after the last one.
   */
  lemma MergeShape(existing: Str, qs: Params, order: seq<Str>)
    requires IsKeyOrder(order, qs) && NonEmptyLists(qs) && |qs| > 0
    ensures MergeQuery(existing, qs, order) ==
      existing + [AMP] + Join(RenderAll(Entries(qs, order)), AMP)
  {
    var es := Entries(qs, order);
    EntriesNonEmpty(qs, order);
    TerminatedJoin(es);
    var j := Join(RenderAll(es), AMP);
    assert existing + [AMP] + (j + [AMP]) == (existing + [AMP] + j) + [AMP];
  }

  /**
   * As written: with parameters, the result starts with '&' when the existing
   * query is empty, and it never ends with '&'.
   */
  lemma MergeEnds(existing: Str, qs: Params, order: seq<Str>)
    requires IsKeyOrder(order, qs) && NonEmptyLists(qs) && |qs| > 0
    ensures var r := MergeQuery(existing, qs, order);
      r != [] && r[|r| - 1] != AMP && (existing == [] ==> r[0] == AMP)
  {
    var es := Entries(qs, order);
    MergeShape(existing, qs, order);
    EntriesNonEmpty(qs, order);
    var parts := RenderAll(es);
    RenderPairShape(es[|es| - 1]);
    JoinLast(parts, AMP);
    var p := parts[|parts| - 1];
    assert p[|p| - 1] in p;
  }

  // ---------------------------------------------------------------------
  // Reading the pairs back

  /** A pair read back: cut at the first '=', both sides unescaped. */
  function DecodePair(seg: Str): Option<Pair> {
    var c := Cut(seg, EQ);
    match QueryUnescape(c.before)
    case None => None
    case Some(k) =>
      match QueryUnescape(c.after)
      case None => None
      case Some(v) => Some((k, v))
  }

  function DecodePairs(segs: seq<Str>): (r: Option<seq<Pair>>)
    ensures r.Some? ==> |r.value| == |segs|
  {
    if segs == [] then Some([])
    else
      match DecodePair(segs[0])
      case None => None
      case Some(e) =>
        match DecodePairs(segs[1..])
        case None => None
        case Some(es) => Some([e] + es)
  }

  /** The query pairs of a query string, in order: split at '&', each pair decoded. */
  function DecodeQuery(s: Str): Option<seq<Pair>> {
    DecodePairs(Split(s, AMP))
  }

  lemma DecodeRenderPair(e: Pair)
    ensures DecodePair(RenderPair(e)) == Some(e)
  {
    CutAt(QueryEscape(e.0), QueryEscape(e.1), EQ);
    UnescapeEscape(e.0);
    UnescapeEscape(e.1);
  }

  lemma {:induction false} DecodeRenderAll(es: seq<Pair>)
    ensures DecodePairs(RenderAll(es)) == Some(es)
  {
    if es != [] {
      assert RenderAll(es)[1..] == RenderAll(es[1..]);
      DecodeRenderAll(es[1..]);
      DecodeRenderPair(es[0]);
      assert [es[0]] + es[1..] == es;
    }
  }

  /** Reading back the joined pairs gives the pairs written. */
  lemma DecodeJoined(es: seq<Pair>)
    requires es != []
    ensures DecodeQuery(Join(RenderAll(es), AMP)) == Some(es)
  {
    var parts := RenderAll(es);
    forall i | 0 <= i < |parts| ensures AMP !in parts[i] {
      RenderPairShape(es[i]);
    }
    SplitJoin(parts, AMP);
    DecodeRenderAll(es);
  }

  /**
   * For every key order: after the existing query and '&', the merged string
   * reads back as pairs that hold, for each key, exactly its stored values in
   * the order they were added, and nothing for any other key, one pair per
   * stored value.
   */
  lemma MergeRecoversParams(existing: Str, qs: Params, order: seq<Str>)
    requires IsKeyOrder(order, qs) && NonEmptyLists(qs) && |qs| > 0
    ensures var r := MergeQuery(existing, qs, order);
      var tail := r[|existing| + 1..];
      && r[..|existing| + 1] == existing + [AMP]
      && DecodeQuery(tail).Some?
      && |DecodeQuery(tail).value| == TotalValues(qs)
      && forall k :: ValuesOf(DecodeQuery(tail).value, k) == if k in qs then qs[k] else []
  {
    var es := Entries(qs, order);
    MergeShape(existing, qs, order);
    EntriesNonEmpty(qs, order);
    var r := MergeQuery(existing, qs, order);
    var j := Join(RenderAll(es), AMP);
    assert r[|existing| + 1..] == j;
    DecodeJoined(es);
    EntriesCount(qs, order);
    forall k ensures ValuesOf(es, k) == if k in qs then qs[k] else [] {
      EntriesValues(qs, order, k);
    }
  }

  /**
   * After Param(k, v), in every key order, the pairs of `k` are its earlier
   * values followed by `v` and those of every other key are unchanged.
   */
  lemma ParamValues(qs: Params, k: Str, v: Str, order: seq<Str>)
    requires IsKeyOrder(order, AddParam(qs, k, v))
    ensures var es := Entries(AddParam(qs, k, v), order);
      && ValuesOf(es, k) == (if k in qs then qs[k] else []) + [v]
      && (forall k' :: k' != k ==> ValuesOf(es, k') == if k' in qs then qs[k'] else [])
  {
    var r := AddParam(qs, k, v);
    EntriesValues(r, order, k);
    forall k' | k' != k ensures ValuesOf(Entries(r, order), k') == if k' in qs then qs[k'] else [] {
      EntriesValues(r, order, k');
    }
  }

  /** Param(k, v) stores one value more, so one more pair is written in every key order. */
  lemma ParamCount(qs: Params, k: Str, v: Str, order: seq<Str>)
    requires IsKeyOrder(order, AddParam(qs, k, v))
    ensures |Entries(AddParam(qs, k, v), order)| == TotalValues(qs) + 1
  {
    EntriesCount(AddParam(qs, k, v), order);
    ParamTotal(qs, k, v);
  }

  /** Param(k, v) stores exactly one value more. */
  lemma ParamTotal(qs: Params, k: Str, v: Str)
    ensures TotalValues(AddParam(qs, k, v)) == TotalValues(qs) + 1
  {
    var r := AddParam(qs, k, v);
    TotalValuesRemove(r, k);
    ParamOthers(qs, k, v);
    if k in qs {
      TotalValuesRemove(qs, k);
    }
  }

  /** Param(k, v) touches no key but `k`. */
  lemma ParamOthers(qs: Params, k: Str, v: Str)
    ensures AddParam(qs, k, v) - {k} == if k in qs then qs - {k} else qs
  {
  }

  /** As written: with no existing query, Param("a", "1") gives "&a=1", not "a=1". */
  lemma LeadingAmpExample()
    ensures MergeQuery([], map[[97] := [[49]]], [[97]]) == [AMP, 97, EQ, 49]
  {
    var qs: Params := map[[97] := [[49]]];
    var order: seq<Str> := [[97]];
    assert order[..0] == [];
    assert Entries(qs, order) == [([97], [49])];
    assert QueryEscape([97]) == [97];
    assert QueryEscape([49]) == [49];
    assert Terminated([([97], [49])]) == [97, EQ, 49, AMP];
  }
}
