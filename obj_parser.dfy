/**
 * The `ObjParser` class of obj_parser.hpp: a tokeniser with one token of lookahead
 * over a character stream, the line-oriented directive parsers that fill the
 * attribute tables and the triangulated corner lists, and the vertex unifier of
 * `writeWebGlCode`.
 *
 * Every parsing method is proved to change the fields exactly as the function of
 * the same operation in `ParserState`, `DirectiveSteps`, `LineSteps` or `FileSteps`
 * says, `Now()` being the fields as a value; what those functions keep and what
 * they read is proved there. A fatal `assert` of the source ends the parse: the
 * model records it in `fault` and every method returns as soon as `fault` is set.
 * Accepted tokens are logged in the ghost field `consumed`.
 */
module ObjParsing {
  import opened Wrappers
  import opened Lexing
  import opened Numbers
  import opened Triangulation
  import opened Unification
  import opened ObjSyntax
  import opened ParserState
  import opened DirectiveSteps
  import opened LineSteps
  import opened FileSteps

  class ObjParser {
    /** The characters of the stream; `pos` is the read position. */
    const input: seq<char>
    var pos: nat

    var vertices: seq<Vector4>
    var normals: seq<Vector3>
    var texCos: seq<Vector2>
    var vIndices: seq<int>
    var nIndices: seq<int>
    var tIndices: seq<int>
    var smooth: bool
    var done: bool

    var line: int

    /** The lexeme of the last accepted token. */
    var token: string
    /** The lexeme of the current token (`next_token` in the source). */
    var lookahead: string
    /** The kind of the current token. */
    var tokenType: TokenKind

    var fault: Fault
    ghost var consumed: seq<Tok>

    /** The attribute tables, the corner lists and the shading flag. */
    function MeshOf(): Mesh
      reads this`vertices, this`normals, this`texCos, this`vIndices, this`tIndices, this`nIndices, this`smooth
    {
      Mesh(vertices, normals, texCos, vIndices, tIndices, nIndices, smooth)
    }

    /** The fields other than `input` and `done`, as a value. */
    ghost function Now(): Snapshot
      reads this
    {
      Snapshot(pos, tokenType, lookahead, token, line, fault, consumed, MeshOf())
    }

    /** The parser state the methods keep. */
    ghost predicate Valid()
      reads this
    {
      Coherent(input, Now())
    }

    /**
     * A parser over `text`, in the state `Start` gives. The source leaves
     * `token_type`, `smooth` and `done` uninitialised; here they are UNKNOWN, false
     * and false.
     */
    constructor (text: seq<char>)
      ensures input == text && Now() == Start() && !done
      ensures Valid()
    {
      input := text;
      pos := 0;
      line := 1;
      token, lookahead, tokenType := "", "", Unknown;
      vertices, normals, texCos := [], [], [];
      vIndices, tIndices, nIndices := [], [], [];
      smooth, done := false, false;
      fault := NoFault;
      consumed := [];
    }

    // -------------------------------------------------------------------------
    // The tokeniser
    // -------------------------------------------------------------------------

    /**
     * The reading loops of `nextToken` and `parseString`: characters of class `k` from
     * `start` on, up to the first one outside it, which is left in the stream.
     */
    method ReadRun(start: nat, k: CharClass) returns (text: string, end: nat)
      requires start <= |input|
      ensures end == RunEnd(input, start, k)
      ensures text == input[start..end]
    {
      text, end := [], start;
      while end < |input| && InClass(input[end], k)
        invariant start <= end <= RunEnd(input, start, k)
        invariant text == input[start..end]
      {
        text := text + [input[end]];
        end := end + 1;
      }
    }

    /** The scanning part of `nextToken`: the blanks are skipped, then the branch of the next character. */
    method ScanFrom(p: nat) returns (r: Scanned)
      requires p <= |input|
      ensures r == Scan(input, p)
    {
      ScanSkips(input, p);
      ScanSkipsBlanks(input, p);
      var _, q := ReadRun(p, Blank);
      if q == |input| {
        r := EndOfInput;
      } else {
        r := ReadToken(q);
      }
    }

    /** The branches of `nextToken` on the first character that is not a blank. */
    method ReadToken(q: nat) returns (r: Scanned)
      requires q < |input| && !IsBlank(input[q])
      ensures r == ScanAt(input, q)
    {
      var c := input[q];
      if IsNewline(c) {
        // "\n\r" and "\r\n" are one line break
        if q + 1 < |input| && IsNewline(input[q + 1]) && input[q + 1] != c {
          r := Newline(q + 2);
        } else {
          r := Newline(q + 1);
        }
      } else if IsAlpha(c) {
        var rest, e := ReadRun(q + 1, Alnum);
        assert [c] + rest == input[q..e];
        r := Token(Classify([c] + rest), [c] + rest, e, 0);
      } else if IsDigit(c) || c == '-' {
        var rest, e := ReadRun(q + 1, NumberBody);
        assert [c] + rest == input[q..e];
        r := Token(Number, [c] + rest, e, 0);
      } else if c == '#' {
        var rest, e := ReadRun(q + 1, LineBody);
        if e == |input| {
          r := Unterminated;
        } else {
          assert [c] + rest == input[q..e];
          r := Token(Comment, [c] + rest, e, 1);
        }
      } else if c == '/' {
        r := Token(IndexSeparator, "/", q + 1, 0);
      } else {
        r := Stray(q + 1);
      }
    }

    /** `nextToken`: the current lexeme becomes `token` and the next token is scanned. */
    method NextToken()
      requires Valid() && fault == NoFault
      modifies this`token, this`pos, this`tokenType, this`lookahead, this`line, this`fault
      ensures Now() == Advance(input, old(Now()))
      ensures Valid()
    {
      AdvanceLaw(input, Now());
      var r := ScanFrom(pos);
      Shift(r);
    }

    /** The end of `nextToken`: the scan result `r` becomes current, or the read never ends. */
    method Shift(r: Scanned)
      modifies this`token, this`pos, this`tokenType, this`lookahead, this`line, this`fault
      ensures Now() == Shifted(|input|, old(Now()), r)
    {
      if r.Unterminated? {
        token, fault := lookahead, Diverges;
      } else {
        token, pos, tokenType, lookahead, line :=
          lookahead, PosAfter(r, |input|), KindAfter(r, tokenType), LexemeAfter(r, lookahead), line + LinesOf(r);
      }
    }

    /**
     * `parseString`: the rest of the line up to, not including, its newline becomes
     * `token` and the current kind STRING; `next_token` is left as it was.
     */
    method ParseString()
      requires Valid() && fault == NoFault
      modifies this`token, this`tokenType, this`pos, this`fault
      ensures Now() == StringRead(input, old(Now()))
      ensures Valid()
    {
      StringReadLaw(input, Now());
      var text, e := ReadRun(pos, LineBody);
      if e == |input| {
        fault := Diverges;
      } else {
        token, tokenType, pos := text, StringToken, e;
      }
    }

    /** `accept`: the current token is taken, and the next one scanned, when it is of kind `k`. */
    method Accept(k: TokenKind) returns (accepted: bool)
      requires Valid() && fault == NoFault
      modifies this`token, this`pos, this`tokenType, this`lookahead, this`line, this`fault, this`consumed
      ensures Now() == Accepted(input, k, old(Now())) && accepted == (old(tokenType) == k)
      ensures Valid()
    {
      ExpectedLaw(input, k, Now());
      accepted := tokenType == k;
      if accepted {
        ghost var taken := Tok(tokenType, lookahead);
        NextToken();
        consumed := consumed + [taken];
      }
    }

    /** `expect`: like `accept`, but a token of another kind is a fatal error. */
    method Expect(k: TokenKind)
      requires Valid() && fault == NoFault
      modifies this`token, this`pos, this`tokenType, this`lookahead, this`line, this`fault, this`consumed
      ensures Now() == Expected(input, k, old(Now()))
      ensures Valid()
    {
      ExpectedLaw(input, k, Now());
      var accepted := Accept(k);
      if !accepted {
        fault := UnexpectedToken(line, k, tokenType);
      }
    }

    // -------------------------------------------------------------------------
    // The vector directives
    // -------------------------------------------------------------------------

    /**
     * The loop of `count` NUMBERs, each a fatal error when missing; the values overwrite
     * the zeros of a fresh vector of `size` components.
     */
    method ReadNumbers(count: nat, size: nat) returns (vec: seq<Float>, ghost nums: seq<string>)
      requires Valid() && fault == NoFault && count <= size
      modifies this`token, this`pos, this`tokenType, this`lookahead, this`line, this`fault, this`consumed
      ensures var r := DirectiveSteps.Numbers(input, old(Now()), count); Now() == r.after && nums == r.value
      ensures fault == NoFault ==> vec == Components(nums, size)
      ensures Valid()
    {
      ghost var goal := DirectiveSteps.Numbers(input, Now(), count);
      NumbersFrom(input, Now(), count);
      vec := Components([], size);  // all Zero
      nums := [];
      var index := 0;
      while index < count
        invariant Valid() && fault == NoFault
        invariant index == |nums| <= count
        invariant NumbersAfter(input, Now(), count - index, nums) == goal
        invariant vec == Components(nums, size)
      {
        vec, nums, index := ReadComponent(vec, nums, index, count, size, goal);
        if fault != NoFault {
          return;
        }
      }
      NumbersDone(input, Now(), nums, goal);
    }

    /**
     * One pass of the loop of `ReadNumbers`: a NUMBER expected, and its value stored
     * at component `index`; `goal` is what the whole loop of `count` NUMBERs reads.
     */
    method ReadComponent(vec: seq<Float>, ghost nums: seq<string>, index: nat, count: nat, size: nat,
                         ghost goal: Step<seq<string>>)
      returns (vec': seq<Float>, ghost nums': seq<string>, index': nat)
      requires Valid() && fault == NoFault && index == |nums| < count <= size && vec == Components(nums, size)
      requires NumbersAfter(input, Now(), count - index, nums) == goal
      modifies this`token, this`pos, this`tokenType, this`lookahead, this`line, this`fault, this`consumed
      ensures Valid()
      ensures fault != NoFault ==> Now() == goal.after && nums' == goal.value
      ensures fault == NoFault ==> index' == |nums'| <= count && NumbersAfter(input, Now(), count - index', nums') == goal
      ensures fault == NoFault ==> vec' == Components(nums', size)
      ensures fault == NoFault ==> nums' == nums + [token]
    {
      Expect(Number);
      if fault != NoFault {
        return vec, nums, index;
      }
      nums' := nums + [token];
      ComponentsSnoc(nums, token, size);
      vec', index' := vec[index := Parsed(token)], index + 1;
    }

    /**
     * The operand loop of `parseVertex`, `parseNormal` and `parseTexCo` for the keyword
     * `k`: the NUMBERs it requires, then one more if its entry has room for it and the
     * current token is a NUMBER.
     */
    method ReadOperands(k: TokenKind) returns (vec: seq<Float>, ghost nums: seq<string>)
      requires Valid() && fault == NoFault && k in {Vertex, Normal, TexCo}
      modifies this`token, this`pos, this`tokenType, this`lookahead, this`line, this`fault, this`consumed
      ensures var r := Operands(input, old(Now()), Required(k), Size(k) > Required(k)); Now() == r.after && nums == r.value
      ensures fault == NoFault ==> vec == Components(nums, Size(k))
      ensures Valid()
    {
      ghost var s0 := Now();
      var required, size := Required(k), Size(k);
      NumbersCount(input, s0, required);
      vec, nums := ReadNumbers(required, size);
      if fault != NoFault || size == required {
        return;
      }
      var more := Accept(Number);
      if more && fault == NoFault {
        ComponentsSnoc(nums, token, size);
        vec, nums := vec[required := Parsed(token)], nums + [token];
      }
    }

    /**
     * `parseVertex`: `v` with three coordinates and an optional fourth, whose absence
     * leaves w zero, appends one entry to `vertices`. It reports no match even then;
     * `v` holds the operands when the keyword was current.
     */
    method ParseVertex() returns (matched: bool, ghost v: Option<seq<string>>)
      requires Valid() && fault == NoFault
      modifies this`token, this`pos, this`tokenType, this`lookahead, this`line, this`fault, this`consumed, this`vertices
      ensures var r := VectorParsed(input, Vertex, old(Now())); Now() == r.after && v == r.value
      ensures !matched && Valid()
    {
      matched, v := false, None;
      var isVertex := Accept(Vertex);
      if isVertex {
        v := Some([]);
        if fault == NoFault {
          ghost var nums := StoreVertex();
          v := Some(nums);
        }
      }
    }

    /** Appends the entry of the operands `nums`, read as `vec`, to `vertices`. */
    method PushVertex(vec: seq<Float>, ghost nums: seq<string>)
      requires Valid() && fault == NoFault && |nums| <= Size(Vertex) && vec == Components(nums, Size(Vertex))
      modifies this`vertices
      ensures Now() == old(Now()).(mesh := AddEntry(Vertex, Some(nums), old(Now()).mesh))
      ensures Valid()
    {
      vertices := vertices + [vec];
    }

    /** The rest of `parseVertex` once `v` is taken: its operands, and the entry they give. */
    method StoreVertex() returns (ghost nums: seq<string>)
      requires Valid() && fault == NoFault
      modifies this`token, this`pos, this`tokenType, this`lookahead, this`line, this`fault, this`consumed, this`vertices
      ensures var r := Stored(input, Vertex, old(Now())); Now() == r.after && nums == r.value
      ensures Valid()
    {
      var vec;
      vec, nums := ReadOperands(Vertex);
      if fault == NoFault {
        PushVertex(vec, nums);
      }
    }

    /**
     * `parseNormal`: `vn` with exactly three coordinates appends one entry to `normals`.
     * It reports no match.
     */
    method ParseNormal() returns (matched: bool, ghost n: Option<seq<string>>)
      requires Valid() && fault == NoFault
      modifies this`token, this`pos, this`tokenType, this`lookahead, this`line, this`fault, this`consumed, this`normals
      ensures var r := VectorParsed(input, Normal, old(Now())); Now() == r.after && n == r.value
      ensures !matched && Valid()
    {
      matched, n := false, None;
      var isNormal := Accept(Normal);
      if isNormal {
        n := Some([]);
        if fault == NoFault {
          ghost var nums := StoreNormal();
          n := Some(nums);
        }
      }
    }

    /** Appends the entry of the operands `nums`, read as `vec`, to `normals`. */
    method PushNormal(vec: seq<Float>, ghost nums: seq<string>)
      requires Valid() && fault == NoFault && |nums| <= Size(Normal) && vec == Components(nums, Size(Normal))
      modifies this`normals
      ensures Now() == old(Now()).(mesh := AddEntry(Normal, Some(nums), old(Now()).mesh))
      ensures Valid()
    {
      normals := normals + [vec];
    }

    /** The rest of `parseNormal` once `vn` is taken: its operands, and the entry they give. */
    method StoreNormal() returns (ghost nums: seq<string>)
      requires Valid() && fault == NoFault
      modifies this`token, this`pos, this`tokenType, this`lookahead, this`line, this`fault, this`consumed, this`normals
      ensures var r := Stored(input, Normal, old(Now())); Now() == r.after && nums == r.value
      ensures Valid()
    {
      var vec;
      vec, nums := ReadOperands(Normal);
      if fault == NoFault {
        PushNormal(vec, nums);
      }
    }

    /**
     * `parseTexCo`: `vt` with one coordinate and an optional second, zero when absent,
     * appends one entry to `texCos`. It reports no match.
     */
    method ParseTexCo() returns (matched: bool, ghost t: Option<seq<string>>)
      requires Valid() && fault == NoFault
      modifies this`token, this`pos, this`tokenType, this`lookahead, this`line, this`fault, this`consumed, this`texCos
      ensures var r := VectorParsed(input, TexCo, old(Now())); Now() == r.after && t == r.value
      ensures !matched && Valid()
    {
      matched, t := false, None;
      var isTexCo := Accept(TexCo);
      if isTexCo {
        t := Some([]);
        if fault == NoFault {
          ghost var nums := StoreTexCo();
          t := Some(nums);
        }
      }
    }

    /** Appends the entry of the operands `nums`, read as `vec`, to `texCos`. */
    method PushTexCo(vec: seq<Float>, ghost nums: seq<string>)
      requires Valid() && fault == NoFault && |nums| <= Size(TexCo) && vec == Components(nums, Size(TexCo))
      modifies this`texCos
      ensures Now() == old(Now()).(mesh := AddEntry(TexCo, Some(nums), old(Now()).mesh))
      ensures Valid()
    {
      texCos := texCos + [vec];
    }

    /** The rest of `parseTexCo` once `vt` is taken: its operands, and the entry they give. */
    method StoreTexCo() returns (ghost nums: seq<string>)
      requires Valid() && fault == NoFault
      modifies this`token, this`pos, this`tokenType, this`lookahead, this`line, this`fault, this`consumed, this`texCos
      ensures var r := Stored(input, TexCo, old(Now())); Now() == r.after && nums == r.value
      ensures Valid()
    {
      var vec;
      vec, nums := ReadOperands(TexCo);
      if fault == NoFault {
        PushTexCo(vec, nums);
      }
    }

    // -------------------------------------------------------------------------
    // f
    // -------------------------------------------------------------------------

    /**
     * One of the two optional parts of a face corner: '/' and, when a NUMBER is
     * current after it, that NUMBER. Nothing is read unless '/' is current.
     */
    method ReadCornerPart() returns (sep: bool, x: Option<string>)
      requires Valid() && fault == NoFault
      modifies this`token, this`pos, this`tokenType, this`lookahead, this`line, this`fault, this`consumed
      ensures var r := Part(input, old(Now())); Now() == r.after && (sep, x) == r.value
      ensures Valid()
    {
      x := None;
      sep := Accept(IndexSeparator);
      if sep && fault == NoFault {
        var isNumber := Accept(Number);
        if isNumber {
          x := Some(token);
        }
      }
    }

    /**
     * One pass of the corner loop: a NUMBER, then the two optional parts. Nothing is
     * read unless a NUMBER is current.
     */
    method ReadCorner() returns (found: bool, c: Corner)
      requires Valid() && fault == NoFault
      modifies this`token, this`pos, this`tokenType, this`lookahead, this`line, this`fault, this`consumed
      ensures found == (old(tokenType) == Number)
      ensures !found ==> Now() == old(Now())
      ensures found ==> var r := CornerRead(input, old(Now())); Now() == r.after && c == r.value
      ensures Valid()
    {
      found := Accept(Number);
      c := Bare(token);
      if !found || fault != NoFault {
        return;
      }
      var sep1, t := ReadCornerPart();
      c := c.(sep1 := sep1, t := t);
      if fault != NoFault {
        return;
      }
      var sep2, n := ReadCornerPart();
      c := c.(sep2 := sep2, n := n);
    }

    /**
     * The corner loop of `parseFace`, corners being read while a NUMBER is current;
     * `fv`, `ft` and `fn` are the indices they give, each the parsed value minus one.
     */
    method ReadCorners() returns (fv: seq<int>, ft: seq<int>, fn: seq<int>, ghost corners: seq<Corner>)
      requires Valid() && fault == NoFault
      modifies this`token, this`pos, this`tokenType, this`lookahead, this`line, this`fault, this`consumed
      ensures var r := CornersFrom(input, old(Now()), []); Now() == r.after && corners == r.value
      ensures fv == PositionIndices(corners) && ft == TexIndices(corners) && fn == NormalIndices(corners)
      ensures Valid()
    {
      ghost var s0 := Now();
      fv, ft, fn, corners := [], [], [], [];
      while true
        invariant Valid() && fault == NoFault
        invariant CornersLeft(input, s0, Now(), corners)
        invariant fv == PositionIndices(corners) && ft == TexIndices(corners) && fn == NormalIndices(corners)
        decreases Rank(input, Now())
      {
        CornersNext(input, s0, Now(), corners);
        var found, c := ReadCorner();
        if !found {
          return;
        }
        CornerStep([], corners, c);
        fv := fv + [StoI(c.v) - 1];
        if c.t.Some? {
          ft := ft + [StoI(c.t.value) - 1];
        }
        if c.n.Some? {
          fn := fn + [StoI(c.n.value) - 1];
        }
        corners := corners + [c];
        if fault != NoFault {
          return;
        }
      }
    }

    /** One pass of the triangulation loop: the triangle (c[0], c[i], c[i+1]) of every channel given. */
    method AppendTriangle(fv: seq<int>, ft: seq<int>, fn: seq<int>, i: nat)
      requires 1 <= i < |fv| - 1 && (ft == [] || |ft| == |fv|) && (fn == [] || |fn| == |fv|)
      modifies this`vIndices, this`tIndices, this`nIndices
      ensures vIndices == old(vIndices) + Triangle(fv, i)
      ensures tIndices == old(tIndices) + (if ft == [] then [] else Triangle(ft, i))
      ensures nIndices == old(nIndices) + (if fn == [] then [] else Triangle(fn, i))
    {
      vIndices := vIndices + [fv[0]];
      if |fn| > 0 {
        nIndices := nIndices + [fn[0]];
      }
      if |ft| > 0 {
        tIndices := tIndices + [ft[0]];
      }
      for j := 0 to 2
        invariant vIndices == old(vIndices) + Triangle(fv, i)[..j + 1]
        invariant ft == [] ==> tIndices == old(tIndices)
        invariant ft != [] ==> tIndices == old(tIndices) + Triangle(ft, i)[..j + 1]
        invariant fn == [] ==> nIndices == old(nIndices)
        invariant fn != [] ==> nIndices == old(nIndices) + Triangle(fn, i)[..j + 1]
      {
        vIndices := vIndices + [fv[i + j]];
        if |fn| > 0 {
          nIndices := nIndices + [fn[i + j]];
        }
        if |ft| > 0 {
          tIndices := tIndices + [ft[i + j]];
        }
      }
    }

    /**
     * The triangulation loop of `parseFace`: for i = 1 .. k-2 the triangle
     * (c[0], c[i], c[i+1]) is appended to every channel the face gives.
     */
    method AppendFan(fv: seq<int>, ft: seq<int>, fn: seq<int>)
      requires |fv| >= 1 && (ft == [] || |ft| == |fv|) && (fn == [] || |fn| == |fv|)
      modifies this`vIndices, this`tIndices, this`nIndices
      ensures vIndices == old(vIndices) + Fan(fv)
      ensures tIndices == old(tIndices) + Fan(ft)
      ensures nIndices == old(nIndices) + Fan(fn)
    {
      var i := 1;
      while i < |fv| - 1
        invariant 1 <= i && (i <= |fv| - 1 || i == 1)
        invariant vIndices == old(vIndices) + Fan(fv[..Min(i + 1, |fv|)])
        invariant tIndices == old(tIndices) + Fan(ft[..Min(i + 1, |ft|)])
        invariant nIndices == old(nIndices) + Fan(fn[..Min(i + 1, |fn|)])
      {
        AppendTriangle(fv, ft, fn, i);
        FanGrow(old(vIndices), fv, |fv|, i);
        FanGrow(old(tIndices), ft, |fv|, i);
        FanGrow(old(nIndices), fn, |fv|, i);
        i := i + 1;
      }
      assert fv[..Min(i + 1, |fv|)] == fv;
      assert ft[..Min(i + 1, |ft|)] == ft;
      assert fn[..Min(i + 1, |fn|)] == fn;
    }

    /**
     * `parseFace`: `f`, its corners, and then the checks on them and the
     * triangulation. `o` holds the corners read when `f` was current.
     */
    method ParseFace() returns (matched: bool, ghost o: Option<seq<Corner>>)
      requires Valid() && fault == NoFault
      modifies this`token, this`pos, this`tokenType, this`lookahead, this`line, this`fault, this`consumed,
        this`vIndices, this`tIndices, this`nIndices
      ensures var r := FaceParsed(input, old(Now())); Now() == r.after && o == r.value
      ensures matched == (old(tokenType) == Face)
      ensures Valid()
    {
      o := None;
      matched := Accept(Face);
      if matched {
        o := Some([]);
        if fault == NoFault {
          ghost var corners := ReadFace();
          o := Some(corners);
        }
      }
    }

    /** The rest of `parseFace` once `f` is taken: the corner loop and the end of the face. */
    method ReadFace() returns (ghost corners: seq<Corner>)
      requires Valid() && fault == NoFault
      modifies this`token, this`pos, this`tokenType, this`lookahead, this`line, this`fault, this`consumed,
        this`vIndices, this`tIndices, this`nIndices
      ensures var r := CornersFrom(input, old(Now()), []); corners == r.value
      ensures var r := CornersFrom(input, old(Now()), []);
        Now() == if r.after.fault != NoFault then r.after else FaceAdded(r.after, r.value)
      ensures Valid()
    {
      var fv, ft, fn;
      fv, ft, fn, corners := ReadCorners();
      if fault == NoFault {
        AddFace(fv, ft, fn);
      }
    }

    /**
     * The checks and the triangulation at the end of `parseFace`, on the indices the
     * corners gave: a channel given by some corners only, or no corner at all, is
     * fatal before anything is appended.
     */
    method AddFace(fv: seq<int>, ft: seq<int>, fn: seq<int>)
      requires Valid() && fault == NoFault
      modifies this`vIndices, this`tIndices, this`nIndices, this`fault
      ensures Now() == FansAdded(old(Now()), fv, ft, fn)
      ensures Valid()
    {
      FansKeep(input, Now(), Now(), fv, ft, fn);
      if (|ft| > 0 && |ft| != |fv|) || (|fn| > 0 && |fn| != |fv|) {
        fault := FaceChannelMismatch(line);
      } else if |fv| == 0 {
        // `vIndices.size() - 1` wraps around and the loop reads past the empty list
        fault := EmptyFace(line);
      } else {
        Triangulate(fv, ft, fn);
      }
    }

    /**
     * The triangulation loop of `parseFace` and the checks after it: the fan of the
     * face is appended to every channel, and a channel the mesh has on some faces
     * only is then fatal.
     */
    method Triangulate(fv: seq<int>, ft: seq<int>, fn: seq<int>)
      requires fault == NoFault
      requires |fv| >= 1 && (ft == [] || |ft| == |fv|) && (fn == [] || |fn| == |fv|)
      modifies this`vIndices, this`tIndices, this`nIndices, this`fault
      ensures Now() == FansAdded(old(Now()), fv, ft, fn)
    {
      AppendFan(fv, ft, fn);
      if (|nIndices| > 0 && |nIndices| != |vIndices|) || (|tIndices| > 0 && |tIndices| != |vIndices|) {
        fault := MeshChannelMismatch(line);
      }
    }

    // -------------------------------------------------------------------------
    // usemtl, mtllib, o, g and s
    // -------------------------------------------------------------------------

    /**
     * The directive with a free-text operand introduced by the keyword `k`: the
     * keyword, the rest of its line read as a STRING, and the STRING expected.
     */
    method ParseNamed(k: TokenKind) returns (matched: bool)
      requires Valid() && fault == NoFault
      modifies this`token, this`pos, this`tokenType, this`lookahead, this`line, this`fault, this`consumed
      ensures var r := NamedParsed(input, k, old(Now())); Now() == r.after && matched == r.value
      ensures Valid()
    {
      matched := Accept(k);
      if !matched || fault != NoFault {
        return;
      }
      ParseString();
      if fault == NoFault {
        Expect(StringToken);
      }
    }

    /** `parseUseMtl`: `usemtl` and a material name. */
    method ParseUseMtl() returns (matched: bool)
      requires Valid() && fault == NoFault
      modifies this`token, this`pos, this`tokenType, this`lookahead, this`line, this`fault, this`consumed
      ensures var r := NamedParsed(input, UseMtl, old(Now())); Now() == r.after && matched == r.value
      ensures Valid()
    {
      matched := ParseNamed(UseMtl);
    }

    /** `parseMtlLib`: `mtllib` and a library path. */
    method ParseMtlLib() returns (matched: bool)
      requires Valid() && fault == NoFault
      modifies this`token, this`pos, this`tokenType, this`lookahead, this`line, this`fault, this`consumed
      ensures var r := NamedParsed(input, MtlLib, old(Now())); Now() == r.after && matched == r.value
      ensures Valid()
    {
      matched := ParseNamed(MtlLib);
    }

    /** `parseObject`: `o` and an object name. */
    method ParseObject() returns (matched: bool)
      requires Valid() && fault == NoFault
      modifies this`token, this`pos, this`tokenType, this`lookahead, this`line, this`fault, this`consumed
      ensures var r := NamedParsed(input, Object, old(Now())); Now() == r.after && matched == r.value
      ensures Valid()
    {
      matched := ParseNamed(Object);
    }

    /**
     * `parseGroup` tests for the kind OBJECT, not GROUP, so it can only match where
     * `parseObject` already did: a `g` line is never matched.
     */
    method ParseGroup() returns (matched: bool)
      requires Valid() && fault == NoFault
      modifies this`token, this`pos, this`tokenType, this`lookahead, this`line, this`fault, this`consumed
      ensures var r := NamedParsed(input, Object, old(Now())); Now() == r.after && matched == r.value
      ensures Valid()
    {
      matched := ParseNamed(Object);
    }

    /**
     * `parseShade`: `s` and its operand, read by `ReadShading`. `o` holds the token
     * current after `s` when `s` was current.
     */
    method ParseShade() returns (matched: bool, ghost o: Option<Tok>)
      requires Valid() && fault == NoFault
      modifies this`token, this`pos, this`tokenType, this`lookahead, this`line, this`fault, this`consumed, this`smooth
      ensures var r := ShadeParsed(input, old(Now())); Now() == r.after && o == r.value
      ensures matched == (old(tokenType) == Shade)
      ensures Valid()
    {
      o := None;
      matched := Accept(Shade);
      if matched {
        o := Some(Tok(tokenType, lookahead));
        if fault == NoFault {
          ReadShading();
        }
      }
    }

    /**
     * The operand of `s`: a NUMBER, where "1" switches smooth shading on and any
     * other number is reported and ignored, or else `off`, which is then expected
     * and switches it off.
     */
    method ReadShading()
      requires Valid() && fault == NoFault
      modifies this`token, this`pos, this`tokenType, this`lookahead, this`line, this`fault, this`consumed, this`smooth
      ensures var s1 := old(Now());
        var s2 := if s1.tokenType == Number then Take(input, s1) else Expected(input, Off, s1);
        Now() == if s2.fault != NoFault then s2
                 else s2.(mesh := s2.mesh.(smooth := Shading(Tok(s1.tokenType, s1.lookahead), s2.mesh.smooth)))
      ensures Valid()
    {
      var isNumber := Accept(Number);
      if isNumber {
        if fault == NoFault && token == "1" {
          smooth := true;
        }
        // another number is reported on the error stream and otherwise ignored
      } else {
        SwitchOff();
      }
    }

    /** The `off` operand of `s`, expected; it switches smooth shading off. */
    method SwitchOff()
      requires Valid() && fault == NoFault
      modifies this`token, this`pos, this`tokenType, this`lookahead, this`line, this`fault, this`consumed, this`smooth
      ensures var s2 := Expected(input, Off, old(Now()));
        Now() == if s2.fault != NoFault then s2 else s2.(mesh := s2.mesh.(smooth := false))
      ensures Valid()
    {
      Expect(Off);
      if fault == NoFault {
        smooth := false;
      }
    }

    // -------------------------------------------------------------------------
    // The line loop
    // -------------------------------------------------------------------------

    /** The vector parsers of the cascade, each run unless the one before it faulted. */
    method ParseVectors() returns (ghost v: Option<seq<string>>, ghost n: Option<seq<string>>, ghost t: Option<seq<string>>)
      requires Valid() && fault == NoFault
      modifies this`token, this`pos, this`tokenType, this`lookahead, this`line, this`fault, this`consumed,
        this`vertices, this`normals, this`texCos
      ensures var r := VectorsParsed(input, old(Now())); Now() == r.after && (v, n, t) == r.value
      ensures Valid()
    {
      var matched;
      n, t := None, None;
      matched, v := ParseVertex();
      if fault != NoFault {
        return;
      }
      matched, n := ParseNormal();
      if fault != NoFault {
        return;
      }
      matched, t := ParseTexCo();
    }

    /** The rest of the cascade: the first of the face, named and `s` parsers that matches. */
    method ParseTail() returns (ghost tail: Tail)
      requires Valid() && fault == NoFault
      modifies this`token, this`pos, this`tokenType, this`lookahead, this`line, this`fault, this`consumed,
        this`vIndices, this`tIndices, this`nIndices, this`smooth
      ensures var r := TailParsed(input, old(Now())); Now() == r.after && tail == r.value
      ensures Valid()
    {
      var matched;
      ghost var f;
      matched, f := ParseFace();
      if matched {
        tail := FaceTail(f.value);
        return;
      }
      tail := ParseNamedTail();
    }

    /** The named and `s` parsers of the cascade, once `parseFace` did not match. */
    method ParseNamedTail() returns (ghost tail: Tail)
      requires Valid() && fault == NoFault && tokenType != Face
      modifies this`token, this`pos, this`tokenType, this`lookahead, this`line, this`fault, this`consumed, this`smooth
      ensures var r := TailParsed(input, old(Now())); Now() == r.after && tail == r.value
      ensures Valid()
    {
      // each parser of the cascade matches exactly when its keyword is current, so the
      // kind of the current token picks the one that matches
      if tokenType == UseMtl {
        var _ := ParseUseMtl();
        tail := NamedTail(Tok(UseMtl, "usemtl"), token);
      } else if tokenType == MtlLib {
        var _ := ParseMtlLib();
        tail := NamedTail(Tok(MtlLib, "mtllib"), token);
      } else {
        tail := ParseObjectTail();
      }
    }

    /** `parseObject`, `parseGroup` and `parseShade`, once none before them matched. */
    method ParseObjectTail() returns (ghost tail: Tail)
      requires Valid() && fault == NoFault && tokenType !in {Face, UseMtl, MtlLib}
      modifies this`token, this`pos, this`tokenType, this`lookahead, this`line, this`fault, this`consumed, this`smooth
      ensures var r := TailParsed(input, old(Now())); Now() == r.after && tail == r.value
      ensures Valid()
    {
      var matched := ParseObject();
      if matched {
        tail := NamedTail(Tok(Object, "o"), token);
        return;
      }
      matched := ParseGroup();
      if matched {
        // not reached: `parseObject` has already matched every OBJECT
        tail := NamedTail(Tok(Object, "o"), token);
        return;
      }
      ghost var h;
      matched, h := ParseShade();
      tail := if matched then ShadeTail(h.value) else NoTail;
    }

    /** The cascade of one line: a comment, or the vector parsers and then the rest. */
    method ParseDirective() returns (ghost d: Directive)
      requires Valid() && fault == NoFault
      modifies this`token, this`pos, this`tokenType, this`lookahead, this`line, this`fault, this`consumed,
        this`vertices, this`normals, this`texCos, this`vIndices, this`tIndices, this`nIndices, this`smooth
      ensures var r := DirectiveParsed(input, old(Now())); Now() == r.after && d == r.value
      ensures Valid()
    {
      ghost var text := lookahead;
      var isComment := Accept(Comment);
      if isComment {
        d := Remark(text);
        return;
      }
      ghost var v, n, t := ParseVectors();
      if fault != NoFault {
        d := Cascade(v, n, t, NoTail);
        return;
      }
      ghost var tail := ParseTail();
      d := Cascade(v, n, t, tail);
    }

    /** The end of a pass: END_OF_LINE is taken and the loop goes on, or END_OF_FILE is expected. */
    method ReadEnding() returns (more: bool)
      requires Valid() && fault == NoFault
      modifies this`token, this`pos, this`tokenType, this`lookahead, this`line, this`fault, this`consumed
      ensures var r := EndingRead(input, old(Now())); Now() == r.after && more == r.value
      ensures Valid()
    {
      more := Accept(EndOfLine);
      if !more {
        Expect(EndOfFile);
      }
    }

    /**
     * One pass of the loop in `parse`: the cascade and the end of its line. `d` is the
     * directive read and `ending` the token current after it.
     */
    method ParseLine() returns (more: bool, ghost d: Directive, ghost ending: Tok)
      requires Valid() && fault == NoFault
      modifies this`token, this`pos, this`tokenType, this`lookahead, this`line, this`fault, this`consumed,
        this`vertices, this`normals, this`texCos, this`vIndices, this`tIndices, this`nIndices, this`smooth
      ensures var r := LineParsed(input, old(Now())); Now() == r.after && (d, ending, more) == r.value
      ensures Valid()
    {
      d := ParseDirective();
      ending := Tok(tokenType, lookahead);
      more := false;
      if fault == NoFault {
        more := ReadEnding();
        more := more && fault == NoFault;
      }
    }

    /**
     * `parse`: the first token is scanned, then one line is parsed per pass until a
     * pass does not take END_OF_LINE. `lines` are the directives read and `ends` the
     * token current after each. `done` is set once the loop ends without a fault.
     */
    method Parse() returns (ghost lines: seq<Directive>, ghost ends: seq<Tok>)
      requires Valid() && fault == NoFault
      modifies this
      ensures var r := FileSteps.Parsed(input, old(Now())); Now() == r.after && (lines, ends) == r.value
      ensures done == (fault == NoFault || old(done))
      ensures Valid()
    {
      lines, ends := [], [];
      NextToken();
      if fault != NoFault {
        return;
      }
      ghost var s1 := Now();
      while true
        invariant Valid() && fault == NoFault && done == old(done)
        invariant LinesFrom(input, s1, [], []) == LinesFrom(input, Now(), lines, ends)
        decreases Rank(input, Now())
      {
        var more;
        ghost var d, ending;
        more, d, ending := ParseLine();
        lines, ends := lines + [d], ends + [ending];
        if !more {
          break;
        }
      }
      if fault == NoFault {
        done := true;
      }
    }

    // -------------------------------------------------------------------------
    // The vertex unifier of `writeWebGlCode`
    // -------------------------------------------------------------------------

    /** The key of every triangle corner. */
    function CornerKeys(): seq<Key>
      requires Aligned(vIndices, tIndices, nIndices)
      reads this
    {
      Keys(vIndices, tIndices, nIndices)
    }

    /** The attribute tables the unifier reads. */
    function TablesOf(): Tables
      reads this
    {
      Tables(vertices, texCos, normals)
    }

    /** Every corner index names an entry of its table; the source indexes them unchecked. */
    predicate IndicesInRange()
      reads this
    {
      Unification.IndicesInRange(vIndices, tIndices, nIndices, TablesOf())
    }

    /** The text `table_index` of corner i: its three indices joined by '/', an absent channel empty. */
    function TableIndex(i: nat): (key: string)
      requires Aligned(vIndices, tIndices, nIndices) && i < |vIndices|
      reads this
      ensures key == KeyText(CornerKeys()[i])
    {
      IntText(vIndices[i])
        + "/" + (if |tIndices| > 0 then IntText(tIndices[i]) else "")
        + "/" + (if |nIndices| > 0 then IntText(nIndices[i]) else "")
    }

    /** The floats one new vertex pushes: three position components, then u, v, then the normal. */
    method VertexFloats(i: nat) returns (a: seq<Float>)
      requires Aligned(vIndices, tIndices, nIndices) && IndicesInRange() && i < |vIndices|
      ensures InRange(CornerKeys()[i], TablesOf())
      ensures a == VertexData(CornerKeys()[i], TablesOf())
    {
      Unification.KeysInRange(vIndices, tIndices, nIndices, TablesOf());
      var p := vertices[vIndices[i]];
      a := [];
      for j := 0 to 3
        invariant a == p[..j]
      {
        a := a + [p[j]];
      }
      if |tIndices| > 0 {
        var t := texCos[tIndices[i]];
        for j := 0 to 2
          invariant a == p[..3] + t[..j]
        {
          a := a + [t[j]];
        }
        assert t[..2] == t;
      }
      ghost var b := a;
      if |nIndices| > 0 {
        var n := normals[nIndices[i]];
        for j := 0 to 3
          invariant a == b + n[..j]
        {
          a := a + [n[j]];
        }
        assert n[..3] == n;
      }
    }

    /**
     * The unifier: corners with equal (position, texcoord, normal) index texts share one
     * vertex; vertices are numbered in order of first occurrence, and the buffer holds
     * their floats in that order. The stride and the attribute offsets are in bytes.
     */
    method Unify() returns (indexArray: seq<nat>, data: seq<Float>, count: nat, stride: nat, texCoOffset: nat, normalOffset: nat)
      requires Valid() && done && fault == NoFault && IndicesInRange()
      ensures forall k :: k in CornerKeys() ==> InRange(k, TablesOf())
      ensures indexArray == IndexBuffer(CornerKeys())
      ensures count == |Distinct(CornerKeys())|
      ensures |indexArray| == |vIndices| && forall j :: 0 <= j < |indexArray| ==> indexArray[j] < count
      ensures data == Interleave(Distinct(CornerKeys()), TablesOf())
      ensures |data| == count * Width(tIndices != [], nIndices != [])
      ensures stride == 4 * Width(tIndices != [], nIndices != [])
      ensures texCoOffset == TexCoOffset() && normalOffset == NormalOffset(tIndices != [])
    {
      indexArray, data, count := NumberCorners();
      IndexBufferMeaning(CornerKeys());
      KeysUniform(vIndices, tIndices, nIndices);
      InterleaveLength(Distinct(CornerKeys()), TablesOf(), tIndices != [], nIndices != []);
      var vertexSize := 12;
      var normalSize := if |nIndices| > 0 then 12 else 0;
      var texCoSize := if |tIndices| > 0 then 8 else 0;
      stride := vertexSize + normalSize + texCoSize;
      texCoOffset, normalOffset := vertexSize, vertexSize + texCoSize;
    }

    /** The loop of the unifier over the corners, with its table of key texts. */
    method NumberCorners() returns (indexArray: seq<nat>, data: seq<Float>, count: nat)
      requires Aligned(vIndices, tIndices, nIndices) && IndicesInRange()
      ensures forall k :: k in CornerKeys() ==> InRange(k, TablesOf())
      ensures indexArray == IndexBuffer(CornerKeys())
      ensures count == |Distinct(CornerKeys())|
      ensures data == Interleave(Distinct(CornerKeys()), TablesOf())
    {
      Unification.KeysInRange(vIndices, tIndices, nIndices, TablesOf());
      var table: map<string, nat> := map[];
      count := 0;
      indexArray, data := [], [];
      for i := 0 to |vIndices|
        invariant Numbered(i, table, count, indexArray, data)
      {
        table, count, indexArray, data := NumberCorner(i, table, count, indexArray, data);
      }
      assert CornerKeys()[..|vIndices|] == CornerKeys();
    }

    /** The unifier's state after the first `i` corners. */
    ghost predicate Numbered(i: nat, table: map<string, nat>, count: nat, indexArray: seq<nat>, data: seq<Float>)
      requires Aligned(vIndices, tIndices, nIndices) && i <= |vIndices|
      requires forall k :: k in CornerKeys() ==> InRange(k, TablesOf())
      reads this
    {
      var ks := CornerKeys()[..i];
      && table == KeyTable(Distinct(ks))
      && count == |Distinct(ks)|
      && indexArray == IndexBuffer(ks)
      && data == Interleave(Distinct(ks), TablesOf())
    }

    /**
     * One pass of the unifier's loop: corner `i` gets the number of its key, a new
     * number and its floats pushed when its key text is not in the table yet.
     */
    method NumberCorner(i: nat, table: map<string, nat>, count: nat, indexArray: seq<nat>, data: seq<Float>)
      returns (table': map<string, nat>, count': nat, indexArray': seq<nat>, data': seq<Float>)
      requires Aligned(vIndices, tIndices, nIndices) && IndicesInRange() && i < |vIndices|
      requires forall k :: k in CornerKeys() ==> InRange(k, TablesOf())
      requires Numbered(i, table, count, indexArray, data)
      ensures Numbered(i + 1, table', count', indexArray', data')
    {
      UnifyStep(CornerKeys(), i, TablesOf());
      var key := TableIndex(i);
      table', count', data' := table, count, data;
      if key !in table {
        var a := VertexFloats(i);
        data' := data + a;
        table' := table[key := count];
        count' := count + 1;
      }
      indexArray' := indexArray + [table'[key]];
    }
  }

  /** The NUMBER loop from `s`, `left` NUMBERs being still to read after the lexemes `acc`. */
  ghost function NumbersAfter(input: seq<char>, s: Snapshot, left: nat, acc: seq<string>): Step<seq<string>>
    requires Current(input, s)
    decreases left
  {
    if left == 0 then Step(s, acc)
    else
      var s1 := Expected(input, Number, s);
      if s1.fault != NoFault then Step(s1, acc) else NumbersAfter(input, s1, left - 1, acc + [s1.token])
  }

  /** The loop form reads the NUMBERs `Numbers` does, after `acc`. */
  lemma {:induction false} NumbersAcc(input: seq<char>, s: Snapshot, left: nat, acc: seq<string>)
    requires Current(input, s)
    ensures var r := DirectiveSteps.Numbers(input, s, left); NumbersAfter(input, s, left, acc) == Step(r.after, acc + r.value)
    decreases left
  {
    if left == 0 {
      assert acc + [] == acc;
    } else {
      var s1 := Expected(input, Number, s);
      if s1.fault != NoFault {
        assert DirectiveSteps.Numbers(input, s, left) == Step(s1, []);
        assert acc + [] == acc;
      } else {
        var r := DirectiveSteps.Numbers(input, s1, left - 1);
        assert DirectiveSteps.Numbers(input, s, left) == Step(r.after, [s1.token] + r.value);
        NumbersAcc(input, s1, left - 1, acc + [s1.token]);
        AppendAssoc(acc, [s1.token], r.value);
      }
    }
  }

  /** Before the loop, all `count` NUMBERs are left. */
  lemma NumbersDone(input: seq<char>, s: Snapshot, acc: seq<string>, goal: Step<seq<string>>)
    requires Current(input, s) && NumbersAfter(input, s, 0, acc) == goal
    ensures s == goal.after && acc == goal.value
  {
  }

  /** With all `count` NUMBERs left and none read yet, the loop form is `Numbers` itself. */
  lemma NumbersFrom(input: seq<char>, s0: Snapshot, count: nat)
    requires Current(input, s0)
    ensures NumbersAfter(input, s0, count, []) == DirectiveSteps.Numbers(input, s0, count)
  {
    NumbersAcc(input, s0, count, []);
    assert [] + DirectiveSteps.Numbers(input, s0, count).value == DirectiveSteps.Numbers(input, s0, count).value;
  }

  /** The corner loop from `s0` is the corners `corners` read so far and the loop from `s` on. */
  ghost predicate CornersLeft(input: seq<char>, s0: Snapshot, s: Snapshot, corners: seq<Corner>)
    requires Current(input, s0) && Current(input, s)
  {
    CornersFrom(input, s0, []) == CornersFrom(input, s, corners)
  }

  /** One pass of the corner loop: it stops unless a NUMBER is current, and otherwise reads one corner. */
  lemma CornersNext(input: seq<char>, s0: Snapshot, s: Snapshot, corners: seq<Corner>)
    requires Current(input, s0) && Current(input, s) && CornersLeft(input, s0, s, corners)
    ensures s.tokenType != Number ==> CornersFrom(input, s0, []) == Step(s, corners)
    ensures s.tokenType == Number ==> var c := CornerRead(input, s);
      && (c.after.fault != NoFault ==> CornersFrom(input, s0, []) == Step(c.after, corners + [c.value]))
      && (c.after.fault == NoFault ==> CornersLeft(input, s0, c.after, corners + [c.value]))
  {
  }
}
