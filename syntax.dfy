/**
 * The token-level grammar of one line of an OBJ file as `ObjParser` reads it
 * (obj_parser.hpp): the tokens each directive is read from, the order in which the
 * directive parsers try them, and what a directive adds to the tables and to the
 * corner lists.
 */
module ObjSyntax {
  import opened Wrappers
  import opened Lexing
  import opened Numbers
  import opened Triangulation

  /** An accepted token: its kind and the lexeme the parser held for it. */
  datatype Tok = Tok(kind: TokenKind, lexeme: string)

  /** The NUMBER tokens the lexemes were read from. */
  function NumberToks(ls: seq<string>): (ts: seq<Tok>)
    ensures |ts| == |ls|
  {
    if ls == [] then [] else [Tok(Number, ls[0])] + NumberToks(ls[1..])
  }

  /** The NUMBER token of the lexeme read first comes first. */
  lemma NumberToksCons(x: string, ls: seq<string>)
    ensures NumberToks([x] + ls) == [Tok(Number, x)] + NumberToks(ls)
  {
    assert ([x] + ls)[1..] == ls;
  }

  /** The NUMBER token of the lexeme read last comes last. */
  lemma {:induction false} NumberToksSnoc(ls: seq<string>, x: string)
    ensures NumberToks(ls + [x]) == NumberToks(ls) + [Tok(Number, x)]
    decreases |ls|
  {
    if ls == [] {
      assert [] + [x] == [x];
    } else {
      assert (ls + [x])[1..] == ls[1..] + [x];
      NumberToksSnoc(ls[1..], x);
    }
  }

  /** Whole triangles keep the corner count a multiple of three. */
  lemma AddTriangles(a: nat, b: nat)
    requires a % 3 == 0 && b % 3 == 0
    ensures (a + b) % 3 == 0
  {
  }

  lemma AppendAssoc<T>(a: seq<T>, b: seq<T>, c: seq<T>)
    ensures (a + b) + c == a + (b + c)
  {
  }

  /**
   * The smooth-shading flag after `s` with `operand`: "1" sets it, another number
   * leaves it as it was, `off` clears it.
   */
  function Shading(operand: Tok, smooth: bool): bool {
    if operand == Tok(Number, "1") then true
    else if operand.kind == Number then smooth
    else false
  }

  /** One face corner as written: `v`, `v/`, `v/t`, `v//`, `v//n`, `v/t/`, `v/t/n`. */
  datatype Corner = Corner(v: string, sep1: bool, t: Option<string>, sep2: bool, n: Option<string>)

  predicate WellFormed(c: Corner) {
    (c.t.Some? ==> c.sep1) && (c.sep2 ==> c.sep1) && (c.n.Some? ==> c.sep2)
  }

  /** The tokens of an optional '/' [NUMBER] part of a corner. */
  function PartToks(sep: bool, x: Option<string>): seq<Tok> {
    (if sep then [Tok(IndexSeparator, "/")] else []) + (if x.Some? then [Tok(Number, x.value)] else [])
  }

  /** The tokens a corner is read from. */
  function Render(c: Corner): seq<Tok> {
    [Tok(Number, c.v)] + PartToks(c.sep1, c.t) + PartToks(c.sep2, c.n)
  }

  function RenderAll(cs: seq<Corner>): seq<Tok> {
    if cs == [] then [] else RenderAll(cs[..|cs| - 1]) + Render(cs[|cs| - 1])
  }

  lemma RenderAllSnoc(cs: seq<Corner>, c: Corner)
    ensures RenderAll(cs + [c]) == RenderAll(cs) + Render(c)
  {
    assert (cs + [c])[..|cs|] == cs;
  }

  /** The 0-based position indices of a face (the parsed value minus one). */
  function PositionIndices(cs: seq<Corner>): seq<int> {
    if cs == [] then [] else PositionIndices(cs[..|cs| - 1]) + [StoI(cs[|cs| - 1].v) - 1]
  }

  /** The 0-based texture-coordinate indices of the corners that give one. */
  function TexIndices(cs: seq<Corner>): seq<int> {
    if cs == [] then []
    else
      var c := cs[|cs| - 1];
      TexIndices(cs[..|cs| - 1]) + (if c.t.Some? then [StoI(c.t.value) - 1] else [])
  }

  /** The 0-based normal indices of the corners that give one. */
  function NormalIndices(cs: seq<Corner>): seq<int> {
    if cs == [] then []
    else
      var c := cs[|cs| - 1];
      NormalIndices(cs[..|cs| - 1]) + (if c.n.Some? then [StoI(c.n.value) - 1] else [])
  }

  lemma IndicesSnoc(cs: seq<Corner>, c: Corner)
    ensures PositionIndices(cs + [c]) == PositionIndices(cs) + [StoI(c.v) - 1]
    ensures TexIndices(cs + [c]) == TexIndices(cs) + (if c.t.Some? then [StoI(c.t.value) - 1] else [])
    ensures NormalIndices(cs + [c]) == NormalIndices(cs) + (if c.n.Some? then [StoI(c.n.value) - 1] else [])
  {
    PositionSnoc(cs, c);
    TexSnoc(cs, c);
    NormalSnoc(cs, c);
  }

  lemma PositionSnoc(cs: seq<Corner>, c: Corner)
    ensures PositionIndices(cs + [c]) == PositionIndices(cs) + [StoI(c.v) - 1]
  {
    assert (cs + [c])[..|cs|] == cs;
  }

  lemma TexSnoc(cs: seq<Corner>, c: Corner)
    ensures TexIndices(cs + [c]) == TexIndices(cs) + (if c.t.Some? then [StoI(c.t.value) - 1] else [])
  {
    assert (cs + [c])[..|cs|] == cs;
  }

  lemma NormalSnoc(cs: seq<Corner>, c: Corner)
    ensures NormalIndices(cs + [c]) == NormalIndices(cs) + (if c.n.Some? then [StoI(c.n.value) - 1] else [])
  {
    assert (cs + [c])[..|cs|] == cs;
  }

  /** What one more corner adds to the tokens read and to the index lists. */
  lemma CornerStep(before: seq<Tok>, cs: seq<Corner>, c: Corner)
    ensures before + RenderAll(cs + [c]) == (before + RenderAll(cs)) + Render(c)
    ensures PositionIndices(cs + [c]) == PositionIndices(cs) + [StoI(c.v) - 1]
    ensures TexIndices(cs + [c]) == TexIndices(cs) + (if c.t.Some? then [StoI(c.t.value) - 1] else [])
    ensures NormalIndices(cs + [c]) == NormalIndices(cs) + (if c.n.Some? then [StoI(c.n.value) - 1] else [])
  {
    RenderAllSnoc(cs, c);
    AppendAssoc(before, RenderAll(cs), Render(c));
    IndicesSnoc(cs, c);
  }

  /** Each channel is given by every corner of the face or by none. */
  predicate UniformChannels(cs: seq<Corner>) {
    && ((forall i :: 0 <= i < |cs| ==> cs[i].t.Some?) || (forall i :: 0 <= i < |cs| ==> cs[i].t.None?))
    && ((forall i :: 0 <= i < |cs| ==> cs[i].n.Some?) || (forall i :: 0 <= i < |cs| ==> cs[i].n.None?))
  }

  lemma {:induction false} PositionCount(cs: seq<Corner>)
    ensures |PositionIndices(cs)| == |cs|
  {
    if cs != [] {
      PositionCount(cs[..|cs| - 1]);
    }
  }

  /**
   * The size check of `parseFace` on the texture-coordinate list means uniformity: a
   * list as long as the face means every corner gave a texture coordinate, an empty
   * list means none did.
   */
  lemma {:induction false} TexCount(cs: seq<Corner>)
    ensures |TexIndices(cs)| <= |cs|
    ensures |TexIndices(cs)| == |cs| <==> forall i :: 0 <= i < |cs| ==> cs[i].t.Some?
    ensures |TexIndices(cs)| == 0 <==> forall i :: 0 <= i < |cs| ==> cs[i].t.None?
  {
    if cs != [] {
      var init := cs[..|cs| - 1];
      TexCount(init);
      assert forall i :: 0 <= i < |init| ==> init[i] == cs[i];
      var last := |cs| - 1;
      if cs[last].t.Some? {
        assert |TexIndices(cs)| == |TexIndices(init)| + 1;
        assert (forall i :: 0 <= i < |cs| ==> cs[i].t.Some?) <==> (forall i :: 0 <= i < |init| ==> init[i].t.Some?);
      } else {
        assert |TexIndices(cs)| == |TexIndices(init)|;
        assert (forall i :: 0 <= i < |cs| ==> cs[i].t.None?) <==> (forall i :: 0 <= i < |init| ==> init[i].t.None?);
      }
    }
  }

  /** The same for the normal list. */
  lemma {:induction false} NormalCount(cs: seq<Corner>)
    ensures |NormalIndices(cs)| <= |cs|
    ensures |NormalIndices(cs)| == |cs| <==> forall i :: 0 <= i < |cs| ==> cs[i].n.Some?
    ensures |NormalIndices(cs)| == 0 <==> forall i :: 0 <= i < |cs| ==> cs[i].n.None?
  {
    if cs != [] {
      var init := cs[..|cs| - 1];
      NormalCount(init);
      assert forall i :: 0 <= i < |init| ==> init[i] == cs[i];
      var last := |cs| - 1;
      if cs[last].n.Some? {
        assert |NormalIndices(cs)| == |NormalIndices(init)| + 1;
        assert (forall i :: 0 <= i < |cs| ==> cs[i].n.Some?) <==> (forall i :: 0 <= i < |init| ==> init[i].n.Some?);
      } else {
        assert |NormalIndices(cs)| == |NormalIndices(init)|;
        assert (forall i :: 0 <= i < |cs| ==> cs[i].n.None?) <==> (forall i :: 0 <= i < |init| ==> init[i].n.None?);
      }
    }
  }

  /** The two size checks of `parseFace` hold exactly when the face is uniform. */
  lemma UniformByCounts(cs: seq<Corner>)
    ensures UniformChannels(cs) <==>
      && (|TexIndices(cs)| == 0 || |TexIndices(cs)| == |cs|)
      && (|NormalIndices(cs)| == 0 || |NormalIndices(cs)| == |cs|)
  {
    TexCount(cs);
    NormalCount(cs);
  }

  function Min(a: int, b: int): int { if a < b then a else b }

  /** One step of the triangulation loop on one channel (possibly absent), after the indices `acc`. */
  lemma FanGrow(acc: seq<int>, c: seq<int>, n: nat, i: nat)
    requires 1 <= i < n - 1 && (c == [] || |c| == n)
    ensures acc + Fan(c[..Min(i + 1, |c|)]) + (if c == [] then [] else Triangle(c, i))
         == acc + Fan(c[..Min(i + 2, |c|)])
  {
    if c != [] {
      FanStep(c, i);
      AppendAssoc(acc, Fan(c[..i + 1]), Triangle(c, i));
    }
  }

  /**
   * The corner `c` was read greedily up to a token of kind `next`: a '/' is taken
   * whenever one is current and the corner has room for it, and so is the NUMBER
   * after a '/'.
   */
  predicate CornerEnds(c: Corner, next: TokenKind) {
    && (!c.sep2 ==> next != IndexSeparator)
    && (c.sep1 && c.t.None? && !c.sep2 ==> next != Number)
    && (c.sep2 && c.n.None? ==> next != Number)
  }

  /** The corners `cs` are well formed, and each but the last was read up to the NUMBER of the next. */
  predicate CornersSoFar(cs: seq<Corner>) {
    && (forall i :: 0 <= i < |cs| ==> WellFormed(cs[i]))
    && (forall i :: 0 <= i < |cs| - 1 ==> CornerEnds(cs[i], Number))
  }

  /**
   * The corners of a face as the corner loop reads them, the line going on with a
   * token of kind `final`: each corner is read greedily, the next one starts with a
   * NUMBER, and the loop stops at the first token that is not a NUMBER.
   */
  predicate CornersRead(cs: seq<Corner>, final: TokenKind) {
    && final != Number
    && CornersSoFar(cs)
    && (cs != [] ==> CornerEnds(cs[|cs| - 1], final))
  }

  /** A well-formed corner read after corners the last of which ended at its NUMBER. */
  lemma CornersSnoc(cs: seq<Corner>, c: Corner)
    requires CornersSoFar(cs) && (cs != [] ==> CornerEnds(cs[|cs| - 1], Number)) && WellFormed(c)
    ensures CornersSoFar(cs + [c])
  {
    assert forall i :: 0 <= i < |cs| ==> (cs + [c])[i] == cs[i];
  }

  /** What the cascade of one line takes after the vector directives. */
  datatype Tail =
    | NoTail                                 // nothing: no later parser matched
    | FaceTail(corners: seq<Corner>)         // `f` and its corners
    | NamedTail(keyword: Tok, name: string)  // `usemtl`, `mtllib` or `o`, and the name kept
    | ShadeTail(operand: Tok)                // `s` and its operand

  /**
   * What the directive cascade of `parse` read from one line: a comment, or else the
   * operands of each vector directive that matched (`v`, `vn`, `vt`) and the rest.
   */
  datatype Directive =
    | Remark(text: string)
    | Cascade(v: Option<seq<string>>, n: Option<seq<string>>, t: Option<seq<string>>, tail: Tail)

  /** The tokens of a vector directive with keyword `k` and operands `o`, if it matched. */
  function VectorToks(k: TokenKind, o: Option<seq<string>>): seq<Tok>
    requires IsKeyword(k)
  {
    if o.Some? then [Tok(k, Spelling(k))] + NumberToks(o.value) else []
  }

  /** The tokens of the vector directives that matched, in cascade order. */
  function VectorsToks(v: Option<seq<string>>, n: Option<seq<string>>, t: Option<seq<string>>): seq<Tok> {
    VectorToks(Vertex, v) + VectorToks(Normal, n) + VectorToks(TexCo, t)
  }

  /** The log after each vector directive in turn, as the tokens of those that ran. */
  lemma VectorsToksJoin(x: seq<Tok>, v: Option<seq<string>>, n: Option<seq<string>>, t: Option<seq<string>>)
    ensures x + VectorToks(Vertex, v) == x + VectorsToks(v, None, None)
    ensures (x + VectorToks(Vertex, v)) + VectorToks(Normal, n) == x + VectorsToks(v, n, None)
    ensures ((x + VectorToks(Vertex, v)) + VectorToks(Normal, n)) + VectorToks(TexCo, t) == x + VectorsToks(v, n, t)
  {
    var a, b, c := VectorToks(Vertex, v), VectorToks(Normal, n), VectorToks(TexCo, t);
    assert VectorsToks(v, None, None) == a + [] + [];
    assert a + [] + [] == a;
    assert VectorsToks(v, n, None) == a + b + [];
    assert a + b + [] == a + b;
    assert (x + a) + b == x + (a + b);
    assert ((x + a) + b) + c == x + (a + b + c);
  }

  function TailToks(tail: Tail): seq<Tok> {
    match tail
    case NoTail => []
    case FaceTail(cs) => [Tok(Face, "f")] + RenderAll(cs)
    case NamedTail(keyword, name) => [keyword, Tok(StringToken, name)]
    case ShadeTail(operand) => [Tok(Shade, "s"), operand]
  }

  /** The tokens accepted for the directive `d`, in order. */
  function DirectiveToks(d: Directive): seq<Tok> {
    match d
    case Remark(text) => [Tok(Comment, text)]
    case Cascade(v, n, t, tail) => VectorsToks(v, n, t) + TailToks(tail)
  }

  /** The current kind before a vector directive with keyword `k`, from the kind `after` it. */
  function KindBefore(k: TokenKind, o: Option<seq<string>>, after: TokenKind): TokenKind {
    if o.Some? then k else after
  }

  /** The current kind before the vector directives that matched, from the kind `after` them. */
  function VectorsKind(v: Option<seq<string>>, n: Option<seq<string>>, t: Option<seq<string>>, after: TokenKind): TokenKind {
    KindBefore(Vertex, v, KindBefore(Normal, n, KindBefore(TexCo, t, after)))
  }

  function TailKind(tail: Tail, final: TokenKind): TokenKind {
    match tail
    case NoTail => final
    case FaceTail(_) => Face
    case NamedTail(keyword, _) => keyword.kind
    case ShadeTail(_) => Shade
  }

  /** The kind of the token a line starts with, when `d` is read from it and a token of kind `final` follows. */
  function StartKind(d: Directive, final: TokenKind): TokenKind {
    match d
    case Remark(_) => Comment
    case Cascade(v, n, t, tail) => VectorsKind(v, n, t, TailKind(tail, final))
  }

  /** The NUMBERs a vector directive with keyword `k` requires: three for `v` and `vn`, one for `vt`. */
  function Required(k: TokenKind): nat {
    if k == TexCo then 1 else 3
  }

  /** The components of an entry of the table of `k`: four for `v`, three for `vn`, two for `vt`. */
  function Size(k: TokenKind): nat {
    match k
    case Vertex => 4
    case Normal => 3
    case _ => 2
  }

  /**
   * A vector directive with keyword `k` read `o`, a token of kind `after` being
   * current after it: when its keyword was current it read the required operands and
   * the optional ones, each of these whenever a NUMBER was current; otherwise the
   * current token was not its keyword.
   */
  predicate VectorRead(k: TokenKind, o: Option<seq<string>>, after: TokenKind) {
    if o.Some? then Required(k) <= |o.value| <= Size(k) && (|o.value| == Size(k) || after != Number)
    else after != k
  }

  /** The vector parsers read `v`, `n` and `t`, in turn, a token of kind `after` being current after them. */
  predicate VectorsRead(v: Option<seq<string>>, n: Option<seq<string>>, t: Option<seq<string>>, after: TokenKind) {
    var kt := KindBefore(TexCo, t, after);
    && VectorRead(Vertex, v, KindBefore(Normal, n, kt))
    && VectorRead(Normal, n, kt)
    && VectorRead(TexCo, t, after)
  }

  /**
   * The vector parsers stopped at the last of them that matched, short of the NUMBERs
   * it requires, after those before it read theirs.
   */
  predicate VectorsCut(v: Option<seq<string>>, n: Option<seq<string>>, t: Option<seq<string>>) {
    if t.Some? then
      && |t.value| < Required(TexCo)
      && VectorRead(Vertex, v, KindBefore(Normal, n, TexCo)) && VectorRead(Normal, n, TexCo)
    else if n.Some? then |n.value| < Required(Normal) && VectorRead(Vertex, v, Normal)
    else v.Some? && |v.value| < Required(Vertex)
  }

  /** The end of the cascade read `tail`, a token of kind `final` being current after it. */
  predicate TailRead(tail: Tail, final: TokenKind) {
    match tail
    case NoTail => final !in {Face, UseMtl, MtlLib, Object, Shade}
    case FaceTail(cs) => cs != [] && UniformChannels(cs) && CornersRead(cs, final)
    case NamedTail(keyword, _) =>
      && keyword.kind in {UseMtl, MtlLib, Object} && keyword.lexeme == Spelling(keyword.kind)
      && final == EndOfLine
    case ShadeTail(operand) => operand.kind == Number || operand.kind == Off
  }

  /**
   * The cascade reads `d` from a line with no error, a token of kind `final` being
   * current after it. A comment is always followed by the end of its line; a line that
   * starts with no directive keyword reads as the empty cascade.
   */
  predicate ReadAs(d: Directive, final: TokenKind) {
    match d
    case Remark(_) => final == EndOfLine
    case Cascade(v, n, t, tail) =>
      && VectorsRead(v, n, t, TailKind(tail, final))
      && StartKind(d, final) != Comment
      && TailRead(tail, final)
  }

  /** The entry a vector directive with operands `o` appends to its table of `size`-vectors. */
  function Entry(o: Option<seq<string>>, size: nat): (e: seq<seq<Float>>)
    ensures |e| <= 1 && forall i :: 0 <= i < |e| ==> |e[i]| == size
  {
    if o.Some? && |o.value| <= size then [Components(o.value, size)] else []
  }

  /** The state a parse builds: the attribute tables, the corner lists and the shading flag. */
  datatype Mesh = Mesh(
    vertices: seq<Vector4>, normals: seq<Vector3>, texCos: seq<Vector2>,
    vIndices: seq<int>, tIndices: seq<int>, nIndices: seq<int>,
    smooth: bool)

  /** The vector directive with keyword `k`, if it matched with operands `o`, appends its entry to its table. */
  function AddEntry(k: TokenKind, o: Option<seq<string>>, m: Mesh): Mesh
    requires k in {Vertex, Normal, TexCo}
  {
    match k
    case Vertex => m.(vertices := m.vertices + Entry(o, 4))
    case Normal => m.(normals := m.normals + Entry(o, 3))
    case TexCo => m.(texCos := m.texCos + Entry(o, 2))
  }

  /** Each vector directive that matched appends its entry to its table, in cascade order. */
  function AddEntries(v: Option<seq<string>>, n: Option<seq<string>>, t: Option<seq<string>>, m: Mesh): Mesh {
    AddEntry(TexCo, t, AddEntry(Normal, n, AddEntry(Vertex, v, m)))
  }

  /** A face appends its fan to every channel, and `s` sets the shading flag. */
  function ApplyTail(tail: Tail, m: Mesh): Mesh {
    match tail
    case FaceTail(cs) =>
      m.(vIndices := m.vIndices + Fan(PositionIndices(cs)),
         tIndices := m.tIndices + Fan(TexIndices(cs)),
         nIndices := m.nIndices + Fan(NormalIndices(cs)))
    case ShadeTail(operand) => m.(smooth := Shading(operand, m.smooth))
    case _ => m
  }

  /** What the directive `d` does to the mesh. */
  function Apply(d: Directive, m: Mesh): Mesh {
    match d
    case Remark(_) => m
    case Cascade(v, n, t, tail) => ApplyTail(tail, AddEntries(v, n, t, m))
  }

  /** The tables and the corner lists of `b` extend those of `a`. */
  predicate Grows(a: Mesh, b: Mesh) {
    && a.vertices <= b.vertices && a.normals <= b.normals && a.texCos <= b.texCos
    && a.vIndices <= b.vIndices && a.tIndices <= b.tIndices && a.nIndices <= b.nIndices
  }

  /** A vector directive only appends. */
  lemma GrowsEntry(k: TokenKind, o: Option<seq<string>>, m: Mesh)
    requires k in {Vertex, Normal, TexCo}
    ensures Grows(m, AddEntry(k, o, m))
  {
  }

  /** The end of a cascade only appends, or sets the shading flag. */
  lemma GrowsTail(tail: Tail, m: Mesh)
    ensures Grows(m, ApplyTail(tail, m))
  {
  }

  lemma GrowsTrans(a: Mesh, b: Mesh, c: Mesh)
    requires Grows(a, b) && Grows(b, c)
    ensures Grows(a, c)
  {
  }

  /** The directives of `lines`, in order. */
  function ApplyAll(lines: seq<Directive>, m: Mesh): Mesh {
    if lines == [] then m else Apply(lines[|lines| - 1], ApplyAll(lines[..|lines| - 1], m))
  }

  /** A sequence of lines only appends to the tables and the corner lists. */
  lemma {:induction false} GrowsAll(lines: seq<Directive>, m: Mesh)
    ensures Grows(m, ApplyAll(lines, m))
  {
    if lines != [] {
      var init, d := lines[..|lines| - 1], lines[|lines| - 1];
      GrowsAll(init, m);
      var a := ApplyAll(init, m);
      match d
      case Remark(_) =>
      case Cascade(v, n, t, tail) =>
        GrowsEntry(Vertex, v, a);
        GrowsEntry(Normal, n, AddEntry(Vertex, v, a));
        GrowsEntry(TexCo, t, AddEntry(Normal, n, AddEntry(Vertex, v, a)));
        GrowsTail(tail, AddEntries(v, n, t, a));
        GrowsTrans(m, a, AddEntry(Vertex, v, a));
        GrowsTrans(m, AddEntry(Vertex, v, a), AddEntry(Normal, n, AddEntry(Vertex, v, a)));
        GrowsTrans(m, AddEntry(Normal, n, AddEntry(Vertex, v, a)), AddEntries(v, n, t, a));
        GrowsTrans(m, AddEntries(v, n, t, a), Apply(d, a));
    }
  }

  /** The tokens of the lines `lines`, each followed by the token that ended it. */
  function FileToks(lines: seq<Directive>, ends: seq<Tok>): seq<Tok>
    requires |lines| == |ends|
  {
    if lines == [] then []
    else FileToks(lines[..|lines| - 1], ends[..|ends| - 1]) + DirectiveToks(lines[|lines| - 1]) + [ends[|ends| - 1]]
  }

  /** Every line was read without error and ended with END_OF_LINE. */
  predicate LinesRead(lines: seq<Directive>, ends: seq<Tok>) {
    && |lines| == |ends|
    && forall i :: 0 <= i < |lines| ==> ends[i].kind == EndOfLine && ReadAs(lines[i], EndOfLine)
  }

  /**
   * A whole file read without error: lines ended by END_OF_LINE, then a last line
   * ended by END_OF_FILE.
   */
  predicate FileRead(lines: seq<Directive>, ends: seq<Tok>) {
    && |lines| == |ends| && |lines| >= 1
    && LinesRead(lines[..|lines| - 1], ends[..|ends| - 1])
    && ends[|ends| - 1].kind == EndOfFile && ReadAs(lines[|lines| - 1], EndOfFile)
  }

  /** One more line appends its tokens and its ending, and applies its directive last. */
  lemma FileSnoc(lines: seq<Directive>, ends: seq<Tok>, d: Directive, e: Tok, m: Mesh)
    requires |lines| == |ends|
    ensures FileToks(lines + [d], ends + [e]) == FileToks(lines, ends) + DirectiveToks(d) + [e]
    ensures ApplyAll(lines + [d], m) == Apply(d, ApplyAll(lines, m))
  {
    assert (lines + [d])[..|lines|] == lines;
    assert (ends + [e])[..|ends|] == ends;
  }

  /** A line read without error and ended by END_OF_LINE extends the lines read so far. */
  lemma LinesSnoc(lines: seq<Directive>, ends: seq<Tok>, d: Directive, e: Tok)
    requires LinesRead(lines, ends) && e.kind == EndOfLine && ReadAs(d, EndOfLine)
    ensures LinesRead(lines + [d], ends + [e])
  {
    assert forall i :: 0 <= i < |lines| ==> (lines + [d])[i] == lines[i] && (ends + [e])[i] == ends[i];
  }

  /** A line read without error and ended by END_OF_FILE completes the file. */
  lemma FileClose(lines: seq<Directive>, ends: seq<Tok>, d: Directive, e: Tok)
    requires LinesRead(lines, ends) && e.kind == EndOfFile && ReadAs(d, EndOfFile)
    ensures FileRead(lines + [d], ends + [e])
  {
    assert (lines + [d])[..|lines|] == lines && (ends + [e])[..|ends|] == ends;
  }
}
