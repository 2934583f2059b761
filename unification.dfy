/**
 * The vertex unifier of `writeWebGlCode` (obj_parser.hpp): every triangle corner has a
 * key (position index, texture-coordinate index, normal index); each distinct key
 * becomes one interleaved vertex, numbered in order of first occurrence, and each
 * corner becomes the number of its key. This module gives the reference definitions
 * and their properties; the method in obj_parser.dfy computes them with a hash table
 * indexed by the key's text, as the source does.
 */
module Unification {
  import opened Wrappers
  import opened Numbers

  /** The attribute indices of one corner; an absent channel is None. */
  datatype Key = Key(v: int, t: Option<int>, n: Option<int>)

  // ---------------------------------------------------------------------------
  // The text of a key: `to_string(v) + "/" + to_string(t) + "/" + to_string(n)`,
  // with an absent channel written as the empty string.
  // ---------------------------------------------------------------------------

  function Digit(d: nat): char
    requires d < 10
  {
    ('0' as int + d) as char
  }

  /** Decimal digits of `n`, most significant first, without leading zeros. */
  function NatText(n: nat): string
    decreases n
  {
    if n < 10 then [Digit(n)] else NatText(n / 10) + [Digit(n % 10)]
  }

  /** `std::to_string` of an int. */
  function IntText(i: int): string {
    if i < 0 then "-" + NatText(-i) else NatText(i)
  }

  function OptText(o: Option<int>): string {
    match o
    case None => ""
    case Some(i) => IntText(i)
  }

  function KeyText(k: Key): string {
    IntText(k.v) + "/" + OptText(k.t) + "/" + OptText(k.n)
  }

  predicate NoSlash(s: string) {
    forall i :: 0 <= i < |s| ==> s[i] != '/'
  }

  lemma {:induction false} NatTextShape(n: nat)
    ensures |NatText(n)| >= 1
    ensures n >= 10 ==> |NatText(n)| >= 2
    ensures forall i :: 0 <= i < |NatText(n)| ==> '0' <= NatText(n)[i] <= '9'
    decreases n
  {
    if n >= 10 {
      NatTextShape(n / 10);
    }
  }

  lemma {:induction false} NatTextInjective(a: nat, b: nat)
    requires NatText(a) == NatText(b)
    ensures a == b
    decreases a
  {
    NatTextShape(a);
    NatTextShape(b);
    if a >= 10 && b >= 10 {
      var ta, tb := NatText(a), NatText(b);
      assert ta[..|ta| - 1] == NatText(a / 10);
      assert tb[..|tb| - 1] == NatText(b / 10);
      NatTextInjective(a / 10, b / 10);
      assert Digit(a % 10) == ta[|ta| - 1] == tb[|tb| - 1] == Digit(b % 10);
    }
  }

  lemma IntTextShape(i: int)
    ensures |IntText(i)| >= 1 && NoSlash(IntText(i))
    ensures IntText(i)[0] == '-' <==> i < 0
  {
    NatTextShape(if i < 0 then -i else i);
  }

  lemma IntTextInjective(a: int, b: int)
    requires IntText(a) == IntText(b)
    ensures a == b
  {
    IntTextShape(a);
    IntTextShape(b);
    if a < 0 {
      assert IntText(a)[1..] == NatText(-a);
      assert IntText(b)[1..] == NatText(-b);
      NatTextInjective(-a, -b);
    } else {
      NatTextInjective(a, b);
    }
  }

  /** The decimal digits of `n` have the value `n`. */
  lemma {:induction false} NatTextValue(n: nat)
    ensures forall i :: 0 <= i < |NatText(n)| ==> '0' <= NatText(n)[i] <= '9'
    ensures DecimalValue(NatText(n)) == n
    decreases n
  {
    NatTextShape(n);
    if n >= 10 {
      var t := NatText(n);
      assert t[..|t| - 1] == NatText(n / 10);
      NatTextShape(n / 10);
      NatTextValue(n / 10);
    }
  }

  /** In a text made only of decimal digits, every character is a leading digit. */
  lemma {:induction false} DigitCountAll(s: string)
    requires forall i :: 0 <= i < |s| ==> '0' <= s[i] <= '9'
    ensures DigitCount(s) == |s|
  {
    if s != [] {
      DigitCountAll(s[1..]);
    }
  }

  /** `stoi` reads back the text `std::to_string` gives an int. */
  lemma StoIIntText(i: int)
    ensures StoI(IntText(i)) == i
  {
    var n := if i < 0 then -i else i;
    NatTextShape(n);
    DigitCountAll(NatText(n));
    NatTextValue(n);
    var t := NatText(n);
    assert t[..|t|] == t;
    if i < 0 {
      assert IntText(i)[0] == '-' && IntText(i)[1..] == t;
    } else {
      assert IntText(i) == t && t[0] != '-';
    }
  }

  lemma OptTextInjective(a: Option<int>, b: Option<int>)
    requires OptText(a) == OptText(b)
    ensures a == b
    ensures NoSlash(OptText(a))
  {
    if a.Some? { IntTextShape(a.value); }
    if b.Some? { IntTextShape(b.value); }
    if a.Some? && b.Some? { IntTextInjective(a.value, b.value); }
  }

  /** A text that contains no '/' is recovered from what stands before the first '/'. */
  lemma SplitAtSlash(x: string, y: string, x': string, y': string)
    requires NoSlash(x) && NoSlash(x')
    requires x + "/" + y == x' + "/" + y'
    ensures x == x' && y == y'
  {
    var s := x + "/" + y;
    FirstSlash(x, y);
    FirstSlash(x', y');
    assert |x| == |x'|;
    assert x == s[..|x|];
    assert x' == s[..|x'|];
    assert y == s[|x| + 1..];
    assert y' == s[|x'| + 1..];
  }

  /** The first '/' of `x + "/" + y` is the one after `x`. */
  lemma FirstSlash(x: string, y: string)
    requires NoSlash(x)
    ensures (x + "/" + y)[|x|] == '/'
    ensures forall i :: 0 <= i < |x| ==> (x + "/" + y)[i] != '/'
  {
  }

  /** Two keys have the same text exactly when they are equal. */
  lemma KeyTextInjective(a: Key, b: Key)
    ensures KeyText(a) == KeyText(b) <==> a == b
  {
    if KeyText(a) == KeyText(b) {
      IntTextShape(a.v);
      IntTextShape(b.v);
      if a.t.Some? { IntTextShape(a.t.value); }
      if b.t.Some? { IntTextShape(b.t.value); }
      assert KeyText(a) == IntText(a.v) + "/" + (OptText(a.t) + "/" + OptText(a.n));
      assert KeyText(b) == IntText(b.v) + "/" + (OptText(b.t) + "/" + OptText(b.n));
      SplitAtSlash(IntText(a.v), OptText(a.t) + "/" + OptText(a.n), IntText(b.v), OptText(b.t) + "/" + OptText(b.n));
      IntTextInjective(a.v, b.v);
      SplitAtSlash(OptText(a.t), OptText(a.n), OptText(b.t), OptText(b.n));
      OptTextInjective(a.t, b.t);
      OptTextInjective(a.n, b.n);
    }
  }

  // ---------------------------------------------------------------------------
  // Keys of the triangulated corner lists.
  // ---------------------------------------------------------------------------

  /** A channel is either absent (empty) or has one entry per corner. */
  predicate Aligned(vI: seq<int>, tI: seq<int>, nI: seq<int>) {
    (tI == [] || |tI| == |vI|) && (nI == [] || |nI| == |vI|)
  }

  function Keys(vI: seq<int>, tI: seq<int>, nI: seq<int>): (ks: seq<Key>)
    requires Aligned(vI, tI, nI)
    ensures |ks| == |vI|
    ensures forall i :: 0 <= i < |ks| ==> ks[i].v == vI[i]
    ensures forall i :: 0 <= i < |ks| ==> ks[i].t == if tI == [] then None else Some(tI[i])
    ensures forall i :: 0 <= i < |ks| ==> ks[i].n == if nI == [] then None else Some(nI[i])
  {
    seq(|vI|, i requires 0 <= i < |vI| =>
      Key(vI[i], if tI == [] then None else Some(tI[i]), if nI == [] then None else Some(nI[i])))
  }

  /** Every corner index names an entry of its table; the tables are indexed unchecked. */
  predicate IndicesInRange(vI: seq<int>, tI: seq<int>, nI: seq<int>, tb: Tables) {
    && (forall i :: 0 <= i < |vI| ==> 0 <= vI[i] < |tb.vertices|)
    && (forall i :: 0 <= i < |tI| ==> 0 <= tI[i] < |tb.texCos|)
    && (forall i :: 0 <= i < |nI| ==> 0 <= nI[i] < |tb.normals|)
  }

  /** With indices in range, every key names entries of the tables. */
  lemma KeysInRange(vI: seq<int>, tI: seq<int>, nI: seq<int>, tb: Tables)
    requires Aligned(vI, tI, nI) && IndicesInRange(vI, tI, nI, tb)
    ensures forall k :: k in Keys(vI, tI, nI) ==> InRange(k, tb)
  {
    var ks := Keys(vI, tI, nI);
    forall k | k in ks
      ensures InRange(k, tb)
    {
      var j :| 0 <= j < |ks| && ks[j] == k;
    }
  }

  // ---------------------------------------------------------------------------
  // Reference definition of the numbering.
  // ---------------------------------------------------------------------------

  /** The distinct keys of `ks` in order of first occurrence. */
  function Distinct(ks: seq<Key>): (d: seq<Key>)
    ensures forall x :: x in d <==> x in ks
    ensures forall i, j :: 0 <= i < j < |d| ==> d[i] != d[j]
  {
    if ks == [] then []
    else
      var init, last := ks[..|ks| - 1], ks[|ks| - 1];
      assert ks == init + [last];
      var d := Distinct(init);
      if last in d then d else d + [last]
  }

  /** The position of `k` in a list without duplicates. */
  function IndexOf(d: seq<Key>, k: Key): (r: nat)
    requires k in d
    ensures r < |d| && d[r] == k
    ensures forall j :: 0 <= j < r ==> d[j] != k
  {
    if d[0] == k then 0 else 1 + IndexOf(d[1..], k)
  }

  /** The number the unifier gives each corner: the position of its key among the distinct keys. */
  function IndexBuffer(ks: seq<Key>): (ib: seq<nat>)
    ensures |ib| == |ks|
  {
    var d := Distinct(ks);
    seq(|ks|, j requires 0 <= j < |ks| => IndexOf(d, ks[j]))
  }

  lemma IndexOfUnique(d: seq<Key>, k: Key, p: nat)
    requires forall i, j :: 0 <= i < j < |d| ==> d[i] != d[j]
    requires p < |d| && d[p] == k
    ensures IndexOf(d, k) == p
  {
  }

  /** Distinct keys of a prefix form a prefix of the distinct keys. */
  lemma {:induction false} DistinctPrefix(ks: seq<Key>, m: nat)
    requires m <= |ks|
    ensures Distinct(ks[..m]) <= Distinct(ks)
    decreases |ks| - m
  {
    if m < |ks| {
      DistinctPrefix(ks, m + 1);
      assert ks[..m + 1][..m] == ks[..m];
    } else {
      assert ks[..m] == ks;
    }
  }

  /** Appending a corner appends its number, and keeps the numbers of the earlier corners. */
  lemma IndexBufferSnoc(ks: seq<Key>, x: Key)
    ensures IndexBuffer(ks + [x]) == IndexBuffer(ks) + [IndexOf(Distinct(ks + [x]), x)]
  {
    var ks' := ks + [x];
    assert ks'[..|ks|] == ks;
    DistinctPrefix(ks', |ks|);
    var d, d' := Distinct(ks), Distinct(ks');
    forall j | 0 <= j < |ks|
      ensures IndexBuffer(ks')[j] == IndexBuffer(ks)[j]
    {
      IndexOfUnique(d', ks[j], IndexOf(d, ks[j]));
    }
  }

  /** There are never more distinct keys than corners. */
  lemma {:induction false} DistinctBound(ks: seq<Key>)
    ensures |Distinct(ks)| <= |ks|
  {
    if ks != [] {
      DistinctBound(ks[..|ks| - 1]);
    }
  }

  /** Two corners get the same number exactly when their keys are equal, and every number is a vertex. */
  lemma IndexBufferMeaning(ks: seq<Key>)
    ensures forall j :: 0 <= j < |ks| ==> IndexBuffer(ks)[j] < |Distinct(ks)|
    ensures forall i, j :: 0 <= i < |ks| && 0 <= j < |ks| ==>
      (IndexBuffer(ks)[i] == IndexBuffer(ks)[j] <==> ks[i] == ks[j])
  {
  }

  /**
   * Numbers are handed out 0, 1, 2, ... in order of first occurrence: a corner whose
   * key is new gets the count of distinct keys before it, any other corner an earlier number.
   */
  lemma FirstOccurrence(ks: seq<Key>, j: nat)
    requires j < |ks|
    ensures ks[j] !in ks[..j] ==> IndexBuffer(ks)[j] == |Distinct(ks[..j])|
    ensures ks[j] in ks[..j] ==> IndexBuffer(ks)[j] < |Distinct(ks[..j])|
  {
    var d, dj := Distinct(ks), Distinct(ks[..j]);
    DistinctPrefix(ks, j);
    DistinctPrefix(ks, j + 1);
    var dj1 := Distinct(ks[..j + 1]);
    assert ks[..j + 1][..j] == ks[..j];
    if ks[j] in ks[..j] {
      IndexOfUnique(d, ks[j], IndexOf(dj, ks[j]));
    } else {
      assert dj1 == dj + [ks[j]];
      IndexOfUnique(d, ks[j], |dj|);
    }
  }

  // ---------------------------------------------------------------------------
  // The interleaved vertex buffer.
  // ---------------------------------------------------------------------------

  /** The attribute tables filled by the parser. */
  datatype Tables = Tables(vertices: seq<Vector4>, texCos: seq<Vector2>, normals: seq<Vector3>)

  /** Every index of the key names an entry of its table. */
  predicate InRange(k: Key, tb: Tables) {
    && 0 <= k.v < |tb.vertices|
    && (k.t.Some? ==> 0 <= k.t.value < |tb.texCos|)
    && (k.n.Some? ==> 0 <= k.n.value < |tb.normals|)
  }

  /** Floats per vertex: position x, y, z, then texcoord u, v, then normal x, y, z. */
  function Width(hasT: bool, hasN: bool): nat {
    3 + (if hasT then 2 else 0) + (if hasN then 3 else 0)
  }

  /** The floats of one vertex, in buffer order; the fourth position component (w) is dropped. */
  function VertexData(k: Key, tb: Tables): (a: seq<Float>)
    requires InRange(k, tb)
    ensures |a| == Width(k.t.Some?, k.n.Some?)
  {
    tb.vertices[k.v][..3]
      + (if k.t.Some? then tb.texCos[k.t.value] else [])
      + (if k.n.Some? then tb.normals[k.n.value] else [])
  }

  /** The vertex buffer: the floats of each distinct key, one vertex after another. */
  function Interleave(d: seq<Key>, tb: Tables): seq<Float>
    requires forall k :: k in d ==> InRange(k, tb)
  {
    if d == [] then [] else Interleave(d[..|d| - 1], tb) + VertexData(d[|d| - 1], tb)
  }

  /** All keys share one channel layout. */
  predicate Uniform(d: seq<Key>, hasT: bool, hasN: bool) {
    forall i :: 0 <= i < |d| ==> d[i].t.Some? == hasT && d[i].n.Some? == hasN
  }

  /** The byte offsets of a vertex's texture coordinate and normal. */
  function TexCoOffset(): nat { 12 }

  function NormalOffset(hasT: bool): nat { 12 + (if hasT then 8 else 0) }

  /**
   * The byte offsets agree with the buffer order: the texture coordinate starts at float
   * TexCoOffset / 4 and the normal at NormalOffset / 4 of each vertex.
   */
  lemma OffsetsMatchVertexData(k: Key, tb: Tables)
    requires InRange(k, tb)
    ensures forall j :: 0 <= j < 3 ==> VertexData(k, tb)[j] == tb.vertices[k.v][j]
    ensures k.t.Some? ==> forall j :: 0 <= j < 2 ==>
      VertexData(k, tb)[TexCoOffset() / 4 + j] == tb.texCos[k.t.value][j]
    ensures k.n.Some? ==> forall j :: 0 <= j < 3 ==>
      VertexData(k, tb)[NormalOffset(k.t.Some?) / 4 + j] == tb.normals[k.n.value][j]
  {
    var p := tb.vertices[k.v][..3];
    var t: seq<Float> := if k.t.Some? then tb.texCos[k.t.value] else [];
    var n: seq<Float> := if k.n.Some? then tb.normals[k.n.value] else [];
    assert VertexData(k, tb) == p + t + n;
    assert NormalOffset(k.t.Some?) / 4 == |p| + |t|;
  }

  /** The buffer holds Width floats per vertex. */
  lemma {:induction false} InterleaveLength(d: seq<Key>, tb: Tables, hasT: bool, hasN: bool)
    requires forall k :: k in d ==> InRange(k, tb)
    requires Uniform(d, hasT, hasN)
    ensures |Interleave(d, tb)| == |d| * Width(hasT, hasN)
  {
    if d != [] {
      InterleaveLength(d[..|d| - 1], tb, hasT, hasN);
      MulSucc(|d| - 1, Width(hasT, hasN));
    }
  }

  /** Vertex r occupies floats r * Width .. (r + 1) * Width of the buffer, in VertexData order. */
  lemma {:induction false} InterleaveLayout(d: seq<Key>, tb: Tables, hasT: bool, hasN: bool, r: nat, c: nat)
    requires forall k :: k in d ==> InRange(k, tb)
    requires Uniform(d, hasT, hasN)
    requires r < |d| && c < Width(hasT, hasN)
    ensures r * Width(hasT, hasN) + c < |Interleave(d, tb)|
    ensures Interleave(d, tb)[r * Width(hasT, hasN) + c] == VertexData(d[r], tb)[c]
  {
    var w, init := Width(hasT, hasN), d[..|d| - 1];
    InterleaveLength(d, tb, hasT, hasN);
    InterleaveLength(init, tb, hasT, hasN);
    MulSucc(r, w);
    if r < |init| {
      InterleaveLayout(init, tb, hasT, hasN, r, c);
      MulLeq(r + 1, |init|, w);
    } else {
      assert r == |init|;
    }
  }

  lemma MulSucc(a: nat, w: nat)
    ensures (a + 1) * w == a * w + w
  {
  }

  lemma MulLeq(a: nat, b: nat, w: nat)
    requires a <= b
    ensures a * w <= b * w
  {
  }

  // ---------------------------------------------------------------------------
  // The hash table of the unifier and one step of its loop.
  // ---------------------------------------------------------------------------

  /** The table after the keys `d` were numbered in order: the text of `d[r]` maps to `r`. */
  function KeyTable(d: seq<Key>): map<string, nat> {
    if d == [] then map[] else KeyTable(d[..|d| - 1])[KeyText(d[|d| - 1]) := |d| - 1]
  }

  /** The table holds the text of exactly the numbered keys, each mapped to its number. */
  lemma {:induction false} KeyTableLookup(d: seq<Key>, k: Key)
    requires forall i, j :: 0 <= i < j < |d| ==> d[i] != d[j]
    ensures KeyText(k) in KeyTable(d) <==> k in d
    ensures k in d ==> KeyTable(d)[KeyText(k)] == IndexOf(d, k)
  {
    if d != [] {
      var init, last := d[..|d| - 1], d[|d| - 1];
      assert d == init + [last];
      KeyTableLookup(init, k);
      KeyTextInjective(k, last);
      if k in init {
        IndexOfUnique(d, k, IndexOf(init, k));
      } else if k == last {
        IndexOfUnique(d, k, |d| - 1);
      }
    }
  }

  lemma DistinctSnoc(ks: seq<Key>, x: Key)
    ensures Distinct(ks + [x]) == if x in Distinct(ks) then Distinct(ks) else Distinct(ks) + [x]
  {
    assert (ks + [x])[..|ks|] == ks;
  }

  lemma InterleaveSnoc(d: seq<Key>, x: Key, tb: Tables)
    requires forall k :: k in d ==> InRange(k, tb)
    requires InRange(x, tb)
    ensures Interleave(d + [x], tb) == Interleave(d, tb) + VertexData(x, tb)
  {
    assert (d + [x])[..|d|] == d;
  }

  /**
   * One corner of the unifier's loop: a key whose text is in the table gets the number
   * stored there and adds nothing; a new key gets the next number, is entered in the
   * table and appends its floats to the buffer.
   */
  lemma UnifyStep(ks: seq<Key>, i: nat, tb: Tables)
    requires i < |ks|
    requires forall k :: k in ks ==> InRange(k, tb)
    ensures var d, x := Distinct(ks[..i]), ks[i];
      && (KeyText(x) in KeyTable(d) <==> x in d)
      && (x in d ==>
            && Distinct(ks[..i + 1]) == d
            && IndexBuffer(ks[..i + 1]) == IndexBuffer(ks[..i]) + [KeyTable(d)[KeyText(x)]])
      && (x !in d ==>
            && Distinct(ks[..i + 1]) == d + [x]
            && KeyTable(d + [x]) == KeyTable(d)[KeyText(x) := |d|]
            && IndexBuffer(ks[..i + 1]) == IndexBuffer(ks[..i]) + [|d|]
            && Interleave(d + [x], tb) == Interleave(d, tb) + VertexData(x, tb))
  {
    var d, x := Distinct(ks[..i]), ks[i];
    KeyTableLookup(d, x);
    if x in d {
      UnifySeen(ks, i);
    } else {
      UnifyNew(ks, i);
      InterleaveSnoc(d, x, tb);
    }
  }

  /** A corner whose key was seen before adds the number of that key. */
  lemma UnifySeen(ks: seq<Key>, i: nat)
    requires i < |ks| && ks[i] in Distinct(ks[..i])
    ensures var d, x := Distinct(ks[..i]), ks[i];
      && Distinct(ks[..i + 1]) == d && KeyText(x) in KeyTable(d)
      && IndexBuffer(ks[..i + 1]) == IndexBuffer(ks[..i]) + [KeyTable(d)[KeyText(x)]]
  {
    var d, x := Distinct(ks[..i]), ks[i];
    assert ks[..i + 1] == ks[..i] + [x];
    DistinctSnoc(ks[..i], x);
    IndexBufferSnoc(ks[..i], x);
    KeyTableLookup(d, x);
  }

  /** A corner with a new key numbers it next and enters it in the table. */
  lemma UnifyNew(ks: seq<Key>, i: nat)
    requires i < |ks| && ks[i] !in Distinct(ks[..i])
    ensures var d, x := Distinct(ks[..i]), ks[i];
      && Distinct(ks[..i + 1]) == d + [x]
      && KeyTable(d + [x]) == KeyTable(d)[KeyText(x) := |d|]
      && IndexBuffer(ks[..i + 1]) == IndexBuffer(ks[..i]) + [|d|]
  {
    var d, x := Distinct(ks[..i]), ks[i];
    assert ks[..i + 1] == ks[..i] + [x];
    DistinctSnoc(ks[..i], x);
    IndexBufferSnoc(ks[..i], x);
    assert (d + [x])[..|d|] == d;
    IndexOfUnique(d + [x], x, |d|);
  }

  /**
   * What the attribute pointers of the emitted code read: float `r * Width + c` of the
   * buffer is component c of vertex r's position for c < 3, of its texture coordinate
   * from TexCoOffset / 4 on, and of its normal from NormalOffset / 4 on.
   */
  lemma AttributeLayout(d: seq<Key>, tb: Tables, hasT: bool, hasN: bool, r: nat)
    requires forall k :: k in d ==> InRange(k, tb)
    requires Uniform(d, hasT, hasN)
    requires r < |d|
    ensures InRange(d[r], tb)
    ensures r * Width(hasT, hasN) + Width(hasT, hasN) <= |Interleave(d, tb)|
    ensures forall j :: 0 <= j < 3 ==>
      Interleave(d, tb)[r * Width(hasT, hasN) + j] == tb.vertices[d[r].v][j]
    ensures hasT ==> forall j :: 0 <= j < 2 ==>
      Interleave(d, tb)[r * Width(hasT, hasN) + TexCoOffset() / 4 + j] == tb.texCos[d[r].t.value][j]
    ensures hasN ==> forall j :: 0 <= j < 3 ==>
      Interleave(d, tb)[r * Width(hasT, hasN) + NormalOffset(hasT) / 4 + j] == tb.normals[d[r].n.value][j]
  {
    assert d[r] in d;
    OffsetsMatchVertexData(d[r], tb);
    InterleaveLength(d, tb, hasT, hasN);
    MulSucc(r, Width(hasT, hasN));
    MulLeq(r + 1, |d|, Width(hasT, hasN));
    forall c | 0 <= c < Width(hasT, hasN)
      ensures r * Width(hasT, hasN) + c < |Interleave(d, tb)|
      ensures Interleave(d, tb)[r * Width(hasT, hasN) + c] == VertexData(d[r], tb)[c]
    {
      InterleaveLayout(d, tb, hasT, hasN, r, c);
    }
  }

  /** The distinct keys of aligned corner lists all have the lists' channel layout. */
  lemma KeysUniform(vI: seq<int>, tI: seq<int>, nI: seq<int>)
    requires Aligned(vI, tI, nI)
    ensures Uniform(Distinct(Keys(vI, tI, nI)), tI != [], nI != [])
  {
    var ks := Keys(vI, tI, nI);
    var d := Distinct(ks);
    forall i | 0 <= i < |d|
      ensures d[i].t.Some? == (tI != []) && d[i].n.Some? == (nI != [])
    {
      assert d[i] in ks;
      var j :| 0 <= j < |ks| && ks[j] == d[i];
    }
  }

  /**
   * Unifying loses nothing: reading the buffer through a corner's number gives exactly
   * the floats of that corner's own key.
   */
  lemma UnifiedCorner(ks: seq<Key>, tb: Tables, hasT: bool, hasN: bool, j: nat, c: nat)
    requires forall k :: k in ks ==> InRange(k, tb)
    requires Uniform(Distinct(ks), hasT, hasN)
    requires j < |ks| && c < Width(hasT, hasN)
    ensures InRange(ks[j], tb)
    ensures IndexBuffer(ks)[j] * Width(hasT, hasN) + c < |Interleave(Distinct(ks), tb)|
    ensures Interleave(Distinct(ks), tb)[IndexBuffer(ks)[j] * Width(hasT, hasN) + c] == VertexData(ks[j], tb)[c]
  {
    assert ks[j] in ks;
    var d := Distinct(ks);
    var r := IndexBuffer(ks)[j];
    assert r == IndexOf(d, ks[j]);
    InterleaveLayout(d, tb, hasT, hasN, r, c);
  }
}
