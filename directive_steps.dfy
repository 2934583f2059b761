/**
 * The directive parsers of `ObjParser` (obj_parser.hpp) as functions on a `Snapshot`:
 * the vector directives `v`, `vn` and `vt`, the face parser and its corner loop, the
 * named directives `usemtl`, `mtllib`, `o` and `g`, `s`, and the cascade that tries
 * them in turn on one line. Each law says what one of them reads from the input and
 * what it does to the mesh.
 */
module DirectiveSteps {
  import opened Wrappers
  import opened Lexing
  import opened Triangulation
  import opened Unification
  import opened ObjSyntax
  import opened ParserState

  // ---------------------------------------------------------------------------
  // v, vn, vt
  // ---------------------------------------------------------------------------

  /** `count` NUMBERs expected in turn, and their lexemes; the first fault stops the loop. */
  function Numbers(input: seq<char>, s: Snapshot, count: nat): (r: Step<seq<string>>)
    requires Current(input, s)
    ensures Current(input, r.after) && Rank(input, r.after) <= Rank(input, s)
    ensures |r.value| <= count
    decreases count
  {
    if count == 0 then Step(s, [])
    else
      var s1 := Expected(input, Number, s);
      if s1.fault != NoFault then Step(s1, [])
      else
        var r := Numbers(input, s1, count - 1);
        Step(r.after, [s1.token] + r.value)
  }

  /** One NUMBER expected: the step the operand loops repeat. */
  lemma NumberLaw(input: seq<char>, s: Snapshot)
    requires Coherent(input, s) && s.fault == NoFault
    ensures var s1 := Expected(input, Number, s);
      && Coherent(input, s1) && Stays(input, s, s1) && s1.mesh == s.mesh
      && (s1.fault == NoFault || s1.fault == Diverges || s1.fault == UnexpectedToken(s.line, Number, s.tokenType))
      && (s1.fault != Diverges && !s1.fault.UnexpectedToken? ==> s1.consumed == s.consumed + [Tok(Number, s1.token)])
      && (s1.fault.UnexpectedToken? ==> s1.consumed == s.consumed)
      && (s1.fault == NoFault ==> Rank(input, s1) < Rank(input, s))
  {
    ExpectedLaw(input, Number, s);
  }

  /**
   * The loop keeps the parser state and stays on its line; it stops short only at a
   * fault, an UNEXPECTED_TOKEN one being for a NUMBER.
   */
  lemma {:induction false} NumbersKeep(input: seq<char>, s: Snapshot, count: nat)
    requires Coherent(input, s) && s.fault == NoFault
    ensures var r := Numbers(input, s, count);
      && Coherent(input, r.after) && Stays(input, s, r.after)
      && (r.after.fault == NoFault || r.after.fault == Diverges
          || (r.after.fault.UnexpectedToken? && r.after.fault.expected == Number))
      && (r.after.fault == NoFault ==> count > 0 ==> Rank(input, r.after) < Rank(input, s))
    decreases count
  {
    if count > 0 {
      var s1 := Expected(input, Number, s);
      NumberLaw(input, s);
      if s1.fault == NoFault {
        NumbersKeep(input, s1, count - 1);
        StaysTrans(input, s, s1, Numbers(input, s1, count - 1).after);
      }
    }
  }

  /** What one NUMBER expected logs. */
  lemma NumberLogged(input: seq<char>, s: Snapshot)
    requires Current(input, s) && s.fault == NoFault
    ensures var s1 := Expected(input, Number, s);
      && s1.mesh == s.mesh
      && (s1.fault == NoFault ==> s1.consumed == s.consumed + [Tok(Number, s1.token)])
      && (s1.fault.UnexpectedToken? ==> s1.consumed == s.consumed)
  {
  }

  /** The loop falls short of `count` NUMBERs only at a fault, and leaves the mesh alone. */
  lemma {:induction false} NumbersCount(input: seq<char>, s: Snapshot, count: nat)
    requires Current(input, s) && s.fault == NoFault
    ensures var r := Numbers(input, s, count);
      && r.after.mesh == s.mesh
      && (r.after.fault.UnexpectedToken? ==> |r.value| < count)
      && (r.after.fault == NoFault ==> |r.value| == count)
    decreases count
  {
    if count > 0 {
      var s1 := Expected(input, Number, s);
      NumberLogged(input, s);
      if s1.fault == NoFault {
        NumbersCount(input, s1, count - 1);
      }
    }
  }

  /** The lexemes the loop keeps are those of the NUMBERs it took. */
  lemma {:induction false} NumbersLog(input: seq<char>, s: Snapshot, count: nat)
    requires Current(input, s) && s.fault == NoFault
    ensures var r := Numbers(input, s, count);
      r.after.fault == NoFault || r.after.fault.UnexpectedToken? ==> r.after.consumed == s.consumed + NumberToks(r.value)
    decreases count
  {
    if count > 0 {
      var s1 := Expected(input, Number, s);
      NumberLogged(input, s);
      if s1.fault == NoFault {
        NumbersLog(input, s1, count - 1);
        var r := Numbers(input, s1, count - 1);
        NumberToksCons(s1.token, r.value);
        AppendAssoc(s.consumed, [Tok(Number, s1.token)], NumberToks(r.value));
      }
    } else {
      assert s.consumed + [] == s.consumed;
    }
  }

  /** The operands of a vector directive: `required` NUMBERs, then one more when `optional` and a NUMBER is current. */
  function Operands(input: seq<char>, s: Snapshot, required: nat, optional: bool): (r: Step<seq<string>>)
    requires Current(input, s)
    ensures Current(input, r.after) && Rank(input, r.after) <= Rank(input, s)
    ensures |r.value| <= required + (if optional then 1 else 0)
  {
    var r := Numbers(input, s, required);
    if r.after.fault != NoFault || !optional then r
    else
      var more := r.after.tokenType == Number;
      var s1 := Accepted(input, Number, r.after);
      Step(s1, if more && s1.fault == NoFault then r.value + [s1.token] else r.value)
  }

  /** The operand loop keeps the parser state and stays on its line. */
  lemma OperandsKeep(input: seq<char>, s: Snapshot, required: nat, optional: bool)
    requires Coherent(input, s) && s.fault == NoFault && 1 <= required
    ensures var r := Operands(input, s, required, optional);
      && Coherent(input, r.after) && Stays(input, s, r.after)
      && (r.after.fault == NoFault || r.after.fault == Diverges
          || (r.after.fault.UnexpectedToken? && r.after.fault.expected == Number))
      && (r.after.fault == NoFault ==> Rank(input, r.after) < Rank(input, s))
  {
    NumbersKeep(input, s, required);
    var r := Numbers(input, s, required);
    if r.after.fault == NoFault && optional {
      ExpectedLaw(input, Number, r.after);
      StaysTrans(input, s, r.after, Accepted(input, Number, r.after));
    }
  }

  /**
   * The operand loop reads the tokens it keeps, at least `required` of them unless a
   * fault stopped it, and the optional one whenever a NUMBER is current for it.
   */
  lemma OperandsRead(input: seq<char>, s: Snapshot, required: nat, optional: bool)
    requires Current(input, s) && s.fault == NoFault
    ensures var r, size := Operands(input, s, required, optional), required + (if optional then 1 else 0);
      && r.after.mesh == s.mesh
      && (r.after.fault == NoFault || r.after.fault.UnexpectedToken? ==> r.after.consumed == s.consumed + NumberToks(r.value))
      && (r.after.fault.UnexpectedToken? ==> |r.value| < required)
      && (r.after.fault == NoFault ==> required <= |r.value| <= size && (|r.value| == size || r.after.tokenType != Number))
  {
    NumbersCount(input, s, required);
    NumbersLog(input, s, required);
    var r := Numbers(input, s, required);
    if r.after.fault == NoFault && optional && r.after.tokenType == Number {
      NumberToksSnoc(r.value, Take(input, r.after).token);
    }
  }

  /** The operands of the vector directive `k`, and its entry appended unless the read faulted. */
  function Stored(input: seq<char>, k: TokenKind, s: Snapshot): (r: Step<seq<string>>)
    requires k in {Vertex, Normal, TexCo} && Current(input, s)
    ensures Current(input, r.after) && Rank(input, r.after) <= Rank(input, s)
    ensures |r.value| <= Size(k)
  {
    var r := Operands(input, s, Required(k), Size(k) > Required(k));
    if r.after.fault == NoFault then Step(r.after.(mesh := AddEntry(k, Some(r.value), r.after.mesh)), r.value)
    else r
  }

  /**
   * `parseVertex`, `parseNormal` or `parseTexCo` for the keyword `k`: nothing unless
   * `k` is current; otherwise the keyword and its operands, `Some` of those read.
   */
  function VectorParsed(input: seq<char>, k: TokenKind, s: Snapshot): (r: Step<Option<seq<string>>>)
    requires k in {Vertex, Normal, TexCo} && Current(input, s)
    ensures Current(input, r.after) && Rank(input, r.after) <= Rank(input, s)
  {
    if s.tokenType != k then Step(s, None)
    else
      var s1 := Take(input, s);
      if s1.fault != NoFault then Step(s1, Some([]))
      else
        var r := Stored(input, k, s1);
        Step(r.after, Some(r.value))
  }

  /**
   * A vector directive with keyword `k` keeps the parser state from `s0` to `s1`: it
   * reads `Some` operands exactly when its keyword was current.
   */
  predicate VectorKept(input: seq<char>, k: TokenKind, s0: Snapshot, s1: Snapshot, o: Option<seq<string>>) {
    && Coherent(input, s1) && Stays(input, s0, s1)
    && o.Some? == (s0.tokenType == k)
    && (s1.fault == NoFault || s1.fault == Diverges || (s1.fault.UnexpectedToken? && s1.fault.expected == Number))
    && (s1.fault == NoFault && o.Some? ==> Rank(input, s1) < Rank(input, s0))
  }

  /**
   * What a vector directive with keyword `k` read from `s0` to `s1`: nothing unless
   * its keyword was current, and otherwise the keyword and the operands `o`. An
   * UNEXPECTED_TOKEN fault means fewer NUMBERs than it requires; with no fault its
   * operands were read as `VectorRead` says and one entry was appended to the table
   * of `k`; a fault leaves the mesh as it was.
   */
  predicate VectorRecorded(k: TokenKind, s0: Snapshot, s1: Snapshot, o: Option<seq<string>>)
    requires k in {Vertex, Normal, TexCo}
  {
    && (o.None? ==> s1 == s0)
    && (s1.fault != NoFault ==> s1.mesh == s0.mesh)
    && (s1.fault == NoFault || s1.fault.UnexpectedToken? ==> s1.consumed == s0.consumed + VectorToks(k, o))
    && (s1.fault.UnexpectedToken? ==> o.Some? && |o.value| < Required(k))
    && (s1.fault == NoFault ==>
          && VectorRead(k, o, s1.tokenType) && KindBefore(k, o, s1.tokenType) == s0.tokenType
          && s1.mesh == AddEntry(k, o, s0.mesh))
  }

  /** `parseVertex`, `parseNormal` and `parseTexCo` keep the parser state. */
  lemma VectorKeep(input: seq<char>, k: TokenKind, s: Snapshot)
    requires k in {Vertex, Normal, TexCo} && Coherent(input, s) && s.fault == NoFault
    ensures var r := VectorParsed(input, k, s); VectorKept(input, k, s, r.after, r.value)
  {
    if s.tokenType == k {
      var s1 := Take(input, s);
      AdvanceLaw(input, s);
      if s1.fault == NoFault {
        var r := Operands(input, s1, Required(k), Size(k) > Required(k));
        OperandsKeep(input, s1, Required(k), Size(k) > Required(k));
        StaysTrans(input, s, s1, r.after);
        if r.after.fault == NoFault {
          TablesKept(input, s, r.after, AddEntry(k, Some(r.value), r.after.mesh));
        }
      }
    }
  }

  /** `parseVertex`, `parseNormal` and `parseTexCo` read what `VectorRecorded` says. */
  lemma VectorLog(input: seq<char>, k: TokenKind, s: Snapshot)
    requires k in {Vertex, Normal, TexCo} && Ahead(input, s) && s.fault == NoFault
    ensures var r := VectorParsed(input, k, s); VectorRecorded(k, s, r.after, r.value)
  {
    if s.tokenType == k {
      var s1 := Take(input, s);
      if s1.fault == NoFault {
        var optional := Size(k) > Required(k);
        OperandsRead(input, s1, Required(k), optional);
        AppendAssoc(s.consumed, [Tok(k, Spelling(k))], NumberToks(Operands(input, s1, Required(k), optional).value));
      }
    } else {
      assert s.mesh.vertices + [] == s.mesh.vertices;
      assert s.mesh.normals + [] == s.mesh.normals;
      assert s.mesh.texCos + [] == s.mesh.texCos;
    }
  }

  /** What a vector directive does, in full. */
  predicate VectorStep(input: seq<char>, k: TokenKind, s0: Snapshot, s1: Snapshot, o: Option<seq<string>>)
    requires k in {Vertex, Normal, TexCo}
  {
    VectorKept(input, k, s0, s1, o) && VectorRecorded(k, s0, s1, o)
  }

  /** `parseVertex`, `parseNormal` and `parseTexCo` do what `VectorStep` says. */
  lemma VectorLaw(input: seq<char>, k: TokenKind, s: Snapshot)
    requires k in {Vertex, Normal, TexCo} && Coherent(input, s) && s.fault == NoFault
    ensures var r := VectorParsed(input, k, s); VectorStep(input, k, s, r.after, r.value)
  {
    VectorKeep(input, k, s);
    VectorLog(input, k, s);
  }

  /** The vector parsers tried in turn: each runs unless the one before it faulted. */
  function VectorsParsed(input: seq<char>, s: Snapshot): (r: Step<(Option<seq<string>>, Option<seq<string>>, Option<seq<string>>)>)
    requires Current(input, s)
    ensures Current(input, r.after) && Rank(input, r.after) <= Rank(input, s)
  {
    var a := VectorParsed(input, Vertex, s);
    if a.after.fault != NoFault then Step(a.after, (a.value, None, None))
    else
      var b := VectorParsed(input, Normal, a.after);
      if b.after.fault != NoFault then Step(b.after, (a.value, b.value, None))
      else
        var c := VectorParsed(input, TexCo, b.after);
        Step(c.after, (a.value, b.value, c.value))
  }

  /**
   * What the vector parsers did from `s0` to `s1`, having read `v`, `n` and `t`: since
   * none of them reports a match, they all run one after the other. An
   * UNEXPECTED_TOKEN fault means the last of them that matched found fewer NUMBERs
   * than it requires; with no fault the operands were read as `VectorsRead` says and
   * each that matched appended its entry.
   */
  predicate VectorsStep(input: seq<char>, s0: Snapshot, s1: Snapshot,
                        v: Option<seq<string>>, n: Option<seq<string>>, t: Option<seq<string>>) {
    && Coherent(input, s1) && Stays(input, s0, s1) && Grows(s0.mesh, s1.mesh)
    && (s0.tokenType !in {Vertex, Normal, TexCo} ==> s1 == s0 && v == n == t == None)
    && (s1.fault == NoFault || s1.fault == Diverges || (s1.fault.UnexpectedToken? && s1.fault.expected == Number))
    && (s1.fault != Diverges ==> s1.consumed == s0.consumed + VectorsToks(v, n, t))
    && (s1.fault.UnexpectedToken? ==> VectorsCut(v, n, t) && VectorsKind(v, n, t, s1.tokenType) == s0.tokenType)
    && (s1.fault == NoFault ==>
          && VectorsRead(v, n, t, s1.tokenType) && VectorsKind(v, n, t, s1.tokenType) == s0.tokenType
          && s1.mesh == AddEntries(v, n, t, s0.mesh))
  }

  /** The vector parsers when `v` faults. */
  lemma VectorsAtVertex(input: seq<char>, s0: Snapshot, s1: Snapshot, v: Option<seq<string>>)
    requires Coherent(input, s0) && s0.fault == NoFault
    requires VectorStep(input, Vertex, s0, s1, v) && s1.fault != NoFault
    ensures VectorsStep(input, s0, s1, v, None, None)
  {
    VectorsToksJoin(s0.consumed, v, None, None);
  }

  /** The vector parsers when `vn` faults. */
  lemma VectorsAtNormal(input: seq<char>, s0: Snapshot, s1: Snapshot, s2: Snapshot,
                        v: Option<seq<string>>, n: Option<seq<string>>)
    requires Coherent(input, s0) && s0.fault == NoFault
    requires VectorStep(input, Vertex, s0, s1, v) && s1.fault == NoFault
    requires VectorStep(input, Normal, s1, s2, n) && s2.fault != NoFault
    ensures VectorsStep(input, s0, s2, v, n, None)
  {
    StaysTrans(input, s0, s1, s2);
    GrowsEntry(Vertex, v, s0.mesh);
    VectorsToksJoin(s0.consumed, v, n, None);
  }

  /** The vector parsers when neither `v` nor `vn` faults. */
  lemma VectorsToEnd(input: seq<char>, s0: Snapshot, s1: Snapshot, s2: Snapshot, s3: Snapshot,
                     v: Option<seq<string>>, n: Option<seq<string>>, t: Option<seq<string>>)
    requires Coherent(input, s0) && s0.fault == NoFault
    requires VectorStep(input, Vertex, s0, s1, v) && s1.fault == NoFault
    requires VectorStep(input, Normal, s1, s2, n) && s2.fault == NoFault
    requires VectorStep(input, TexCo, s2, s3, t)
    ensures VectorsStep(input, s0, s3, v, n, t)
  {
    StaysTrans(input, s0, s1, s2);
    StaysTrans(input, s0, s2, s3);
    GrowsEntry(Vertex, v, s0.mesh);
    GrowsEntry(Normal, n, s1.mesh);
    GrowsEntry(TexCo, t, s2.mesh);
    GrowsTrans(s0.mesh, s1.mesh, s2.mesh);
    GrowsTrans(s0.mesh, s2.mesh, s3.mesh);
    VectorsToksJoin(s0.consumed, v, n, t);
  }

  /** `parseVertex() || parseNormal() || parseTexCo()` does what `VectorsStep` says. */
  lemma VectorsLaw(input: seq<char>, s: Snapshot)
    requires Coherent(input, s) && s.fault == NoFault
    ensures var r := VectorsParsed(input, s); VectorsStep(input, s, r.after, r.value.0, r.value.1, r.value.2)
  {
    var a := VectorParsed(input, Vertex, s);
    VectorLaw(input, Vertex, s);
    if a.after.fault != NoFault {
      VectorsAtVertex(input, s, a.after, a.value);
    } else {
      var b := VectorParsed(input, Normal, a.after);
      VectorLaw(input, Normal, a.after);
      if b.after.fault != NoFault {
        VectorsAtNormal(input, s, a.after, b.after, a.value, b.value);
      } else {
        var c := VectorParsed(input, TexCo, b.after);
        VectorLaw(input, TexCo, b.after);
        VectorsToEnd(input, s, a.after, b.after, c.after, a.value, b.value, c.value);
      }
    }
  }

  // ---------------------------------------------------------------------------
  // f
  // ---------------------------------------------------------------------------

  /** An optional '/' [NUMBER] part of a corner: whether the '/' was taken, and the NUMBER after it. */
  function Part(input: seq<char>, s: Snapshot): (r: Step<(bool, Option<string>)>)
    requires Current(input, s)
    ensures Current(input, r.after) && Rank(input, r.after) <= Rank(input, s)
  {
    if s.tokenType != IndexSeparator then Step(s, (false, None))
    else
      var s1 := Take(input, s);
      if s1.fault != NoFault || s1.tokenType != Number then Step(s1, (true, None))
      else
        var s2 := Take(input, s1);
        Step(s2, (true, Some(s2.token)))
  }

  /** A part keeps the parser state and stays on its line; it is taken exactly when '/' is current. */
  lemma PartKeep(input: seq<char>, s: Snapshot)
    requires Coherent(input, s) && s.fault == NoFault
    ensures var r := Part(input, s);
      && Coherent(input, r.after) && Stays(input, s, r.after)
      && (r.after.fault == NoFault || r.after.fault == Diverges)
      && r.value.0 == (s.tokenType == IndexSeparator)
      && (r.after.fault == NoFault && r.value.0 ==> Rank(input, r.after) < Rank(input, s))
  {
    if s.tokenType == IndexSeparator {
      var s1 := Take(input, s);
      AdvanceLaw(input, s);
      if s1.fault == NoFault && s1.tokenType == Number {
        AdvanceLaw(input, s1);
        StaysTrans(input, s, s1, Take(input, s1));
      }
    }
  }

  /**
   * A part reads its '/' and the NUMBER after it, greedily: a NUMBER current after the
   * '/' is always taken, and nothing is taken unless '/' is current.
   */
  lemma PartLog(input: seq<char>, s: Snapshot)
    requires Ahead(input, s) && s.fault == NoFault
    ensures var r := Part(input, s); var sep, x := r.value.0, r.value.1;
      && r.after.mesh == s.mesh
      && (x.Some? ==> sep)
      && (!sep ==> r.after == s)
      && (r.after.fault == NoFault ==>
            && r.after.consumed == s.consumed + PartToks(sep, x)
            && (sep && x.None? ==> r.after.tokenType != Number))
  {
    if s.tokenType == IndexSeparator {
      var s1 := Take(input, s);
      if s1.fault == NoFault && s1.tokenType == Number {
        AppendAssoc(s.consumed, [Tok(IndexSeparator, "/")], [Tok(Number, s1.lookahead)]);
      } else {
        assert [Tok(IndexSeparator, "/")] + [] == [Tok(IndexSeparator, "/")];
      }
    } else {
      assert s.consumed + ([] + []) == s.consumed;
    }
  }

  /** The blank corner a loop pass starts from, with the position index `v`. */
  function Bare(v: string): Corner {
    Corner(v, false, None, false, None)
  }

  /** One pass of the corner loop, a NUMBER being current: the position index and the two optional parts. */
  function CornerRead(input: seq<char>, s: Snapshot): (r: Step<Corner>)
    requires Current(input, s)
    ensures Current(input, r.after) && Rank(input, r.after) <= Rank(input, s)
    ensures r.after.fault == NoFault && s.tokenType != EndOfFile ==> Rank(input, r.after) < Rank(input, s)
  {
    var s1 := Take(input, s);
    if s1.fault != NoFault then Step(s1, Bare(s1.token))
    else
      var a := Part(input, s1);
      if a.after.fault != NoFault then Step(a.after, Bare(s1.token).(sep1 := a.value.0, t := a.value.1))
      else
        var b := Part(input, a.after);
        Step(b.after, Corner(s1.token, a.value.0, a.value.1, b.value.0, b.value.1))
  }

  /** A loop pass keeps the parser state and stays on its line. */
  lemma CornerKeep(input: seq<char>, s: Snapshot)
    requires Coherent(input, s) && s.fault == NoFault && s.tokenType == Number
    ensures var r := CornerRead(input, s);
      && Coherent(input, r.after) && Stays(input, s, r.after)
      && (r.after.fault == NoFault || r.after.fault == Diverges)
  {
    var s1 := Take(input, s);
    AdvanceLaw(input, s);
    if s1.fault == NoFault {
      var a := Part(input, s1);
      PartKeep(input, s1);
      StaysTrans(input, s, s1, a.after);
      if a.after.fault == NoFault {
        PartKeep(input, a.after);
        StaysTrans(input, s, a.after, Part(input, a.after).after);
      }
    }
  }

  /** A loop pass reads one corner, greedily, up to the token current after it. */
  lemma CornerLog(input: seq<char>, s: Snapshot)
    requires Coherent(input, s) && s.fault == NoFault && s.tokenType == Number
    ensures var r := CornerRead(input, s);
      && r.after.mesh == s.mesh
      && (r.after.fault == NoFault ==>
            && r.after.consumed == s.consumed + Render(r.value)
            && WellFormed(r.value) && CornerEnds(r.value, r.after.tokenType))
  {
    var s1 := Take(input, s);
    AdvanceLaw(input, s);
    if s1.fault == NoFault {
      var a := Part(input, s1);
      PartLog(input, s1);
      if a.after.fault == NoFault {
        PartKeep(input, s1);
        PartKeep(input, a.after);
        PartLog(input, a.after);
        var b := Part(input, a.after);
        if b.after.fault == NoFault {
          CornerParts(s.consumed, s1, a.after, a.value.0, a.value.1, b.after, b.value.0, b.value.1);
        }
      }
    }
  }

  /**
   * A corner read as its position index, taken into `s1`, then the part `sep1`, `t`
   * up to `sa` and the part `sep2`, `n` up to `sb`, each taken greedily, after the
   * tokens `log`.
   */
  lemma CornerParts(log: seq<Tok>, s1: Snapshot, sa: Snapshot, sep1: bool, t: Option<string>,
                    sb: Snapshot, sep2: bool, n: Option<string>)
    requires s1.consumed == log + [Tok(Number, s1.token)]
    requires sep1 == (s1.tokenType == IndexSeparator) && (!sep1 ==> sa == s1) && (t.Some? ==> sep1)
    requires sa.consumed == s1.consumed + PartToks(sep1, t) && (sep1 && t.None? ==> sa.tokenType != Number)
    requires sep2 == (sa.tokenType == IndexSeparator) && (!sep2 ==> sb == sa) && (n.Some? ==> sep2)
    requires sb.consumed == sa.consumed + PartToks(sep2, n) && (sep2 && n.None? ==> sb.tokenType != Number)
    ensures var c := Corner(s1.token, sep1, t, sep2, n);
      sb.consumed == log + Render(c) && WellFormed(c) && CornerEnds(c, sb.tokenType)
  {
    var v := [Tok(Number, s1.token)];
    AppendAssoc(log + v, PartToks(sep1, t), PartToks(sep2, n));
    AppendAssoc(log, v, PartToks(sep1, t) + PartToks(sep2, n));
    AppendAssoc(v, PartToks(sep1, t), PartToks(sep2, n));
  }

  /** The corner loop of `parseFace` from `s`, after the corners `acc`. */
  function CornersFrom(input: seq<char>, s: Snapshot, acc: seq<Corner>): (r: Step<seq<Corner>>)
    requires Current(input, s)
    ensures Current(input, r.after) && Rank(input, r.after) <= Rank(input, s)
    decreases Rank(input, s)
  {
    if s.tokenType != Number then Step(s, acc)
    else
      var c := CornerRead(input, s);
      if c.after.fault != NoFault then Step(c.after, acc + [c.value])
      else CornersFrom(input, c.after, acc + [c.value])
  }

  /** The corner loop keeps the parser state and stays on its line. */
  lemma {:induction false} CornersKeep(input: seq<char>, s: Snapshot, acc: seq<Corner>)
    requires Coherent(input, s) && s.fault == NoFault
    ensures var r := CornersFrom(input, s, acc);
      && Coherent(input, r.after) && Stays(input, s, r.after)
      && (r.after.fault == NoFault || r.after.fault == Diverges)
    decreases Rank(input, s)
  {
    if s.tokenType == Number {
      var c := CornerRead(input, s);
      CornerKeep(input, s);
      if c.after.fault == NoFault {
        CornersKeep(input, c.after, acc + [c.value]);
        StaysTrans(input, s, c.after, CornersFrom(input, c.after, acc + [c.value]).after);
      }
    }
  }

  /**
   * The corner loop reads the corners it returns after `acc`, each greedily, and stops
   * at the first token that is not a NUMBER.
   */
  lemma {:induction false} CornersLog(input: seq<char>, s: Snapshot, acc: seq<Corner>, log: seq<Tok>)
    requires Coherent(input, s) && s.fault == NoFault
    requires s.consumed == log + RenderAll(acc) && CornersSoFar(acc)
    requires acc != [] ==> CornerEnds(acc[|acc| - 1], s.tokenType)
    ensures var r := CornersFrom(input, s, acc);
      && r.after.mesh == s.mesh
      && (r.after.fault == NoFault ==>
            r.after.consumed == log + RenderAll(r.value) && CornersRead(r.value, r.after.tokenType))
    decreases Rank(input, s)
  {
    if s.tokenType == Number {
      var c := CornerRead(input, s);
      CornerLog(input, s);
      if c.after.fault == NoFault {
        CornerKeep(input, s);
        CornerStep(log, acc, c.value);
        CornersSnoc(acc, c.value);
        CornersLog(input, c.after, acc + [c.value], log);
      }
    }
  }

  /**
   * The checks and the triangulation at the end of `parseFace`, on the corners `cs`:
   * a channel given by some corners only, or no corner at all, is fatal before
   * anything is appended; otherwise the fan is appended to every channel, and a
   * channel the mesh has on some faces only is then fatal.
   */
  function FaceAdded(s: Snapshot, cs: seq<Corner>): Snapshot {
    FansAdded(s, PositionIndices(cs), TexIndices(cs), NormalIndices(cs))
  }

  /** The same on the position, texture and normal indices `fv`, `ft`, `fn` given by the corners. */
  function FansAdded(s: Snapshot, fv: seq<int>, ft: seq<int>, fn: seq<int>): Snapshot {
    if (|ft| > 0 && |ft| != |fv|) || (|fn| > 0 && |fn| != |fv|) then s.(fault := FaceChannelMismatch(s.line))
    else if |fv| == 0 then s.(fault := EmptyFace(s.line))
    else
      var m := s.mesh.(vIndices := s.mesh.vIndices + Fan(fv), tIndices := s.mesh.tIndices + Fan(ft),
                       nIndices := s.mesh.nIndices + Fan(fn));
      s.(mesh := m, fault := if Aligned(m.vIndices, m.tIndices, m.nIndices) then NoFault else MeshChannelMismatch(s.line))
  }

  /** The end of `parseFace` keeps the parser state and stays on its line. */
  lemma FaceAddedKeep(input: seq<char>, s0: Snapshot, s: Snapshot, cs: seq<Corner>)
    requires Coherent(input, s) && s.fault == NoFault && Stays(input, s0, s)
    ensures Coherent(input, FaceAdded(s, cs)) && Stays(input, s0, FaceAdded(s, cs))
  {
    FansKeep(input, s0, s, PositionIndices(cs), TexIndices(cs), NormalIndices(cs));
  }

  /** The same on the index sequences the corners give. */
  lemma FansKeep(input: seq<char>, s0: Snapshot, s: Snapshot, fv: seq<int>, ft: seq<int>, fn: seq<int>)
    requires Coherent(input, s) && s.fault == NoFault && Stays(input, s0, s)
    ensures Coherent(input, FansAdded(s, fv, ft, fn)) && Stays(input, s0, FansAdded(s, fv, ft, fn))
  {
    if (|ft| > 0 && |ft| != |fv|) || (|fn| > 0 && |fn| != |fv|) {
      MeshChanged(input, s0, s, s.mesh, FaceChannelMismatch(s.line));
    } else if |fv| == 0 {
      MeshChanged(input, s0, s, s.mesh, EmptyFace(s.line));
    } else {
      var m := s.mesh.(vIndices := s.mesh.vIndices + Fan(fv), tIndices := s.mesh.tIndices + Fan(ft),
                       nIndices := s.mesh.nIndices + Fan(fn));
      FanTriples(fv);
      AddTriangles(|s.mesh.vIndices|, |Fan(fv)|);
      MeshChanged(input, s0, s, m, if Aligned(m.vIndices, m.tIndices, m.nIndices) then NoFault else MeshChannelMismatch(s.line));
    }
  }

  /**
   * The checks at the end of `parseFace`: a FACE_CHANNEL_MISMATCH exactly when the
   * corners are not uniform and an EMPTY_FACE exactly when there are none, both
   * leaving the mesh as it was; otherwise the fan of the face is appended, and a
   * MESH_CHANNEL_MISMATCH exactly when the channels of the mesh are then not aligned.
   */
  lemma FaceAddedLaw(s: Snapshot, cs: seq<Corner>)
    ensures var s1 := FaceAdded(s, cs);
      && s1.tokenType == s.tokenType && s1.consumed == s.consumed
      && (s1.fault == NoFault || s1.fault.FaceChannelMismatch? || s1.fault.EmptyFace? || s1.fault.MeshChannelMismatch?)
      && (s1.fault.FaceChannelMismatch? <==> !UniformChannels(cs))
      && (s1.fault.EmptyFace? <==> UniformChannels(cs) && cs == [])
      && (s1.fault.FaceChannelMismatch? || s1.fault.EmptyFace? ==> s1.mesh == s.mesh)
      && (s1.fault == NoFault || s1.fault.MeshChannelMismatch? ==>
            && s1.mesh == ApplyTail(FaceTail(cs), s.mesh)
            && (s1.fault.MeshChannelMismatch? <==> !Aligned(s1.mesh.vIndices, s1.mesh.tIndices, s1.mesh.nIndices)))
  {
    PositionCount(cs);
    UniformByCounts(cs);
  }

  /** `parseFace`: nothing unless `f` is current; otherwise `f`, the corner loop and the end of the face. */
  function FaceParsed(input: seq<char>, s: Snapshot): (r: Step<Option<seq<Corner>>>)
    requires Current(input, s)
    ensures Current(input, r.after) && Rank(input, r.after) <= Rank(input, s)
  {
    if s.tokenType != Face then Step(s, None)
    else
      var s1 := Take(input, s);
      if s1.fault != NoFault then Step(s1, Some([]))
      else
        var c := CornersFrom(input, s1, []);
        if c.after.fault != NoFault then Step(c.after, Some(c.value))
        else Step(FaceAdded(c.after, c.value), Some(c.value))
  }

  /**
   * What `parseFace` keeps from `s0` to `s1`: the parser state, the line, the
   * corners `o` read exactly when `f` was current, and a fault that is one of the
   * face's own or a read that never ends.
   */
  predicate FaceKept(input: seq<char>, s0: Snapshot, s1: Snapshot, o: Option<seq<Corner>>) {
    && Coherent(input, s1) && Stays(input, s0, s1)
    && o.Some? == (s0.tokenType == Face)
    && (s1.fault == NoFault || s1.fault == Diverges || s1.fault.FaceChannelMismatch?
        || s1.fault.EmptyFace? || s1.fault.MeshChannelMismatch?)
    && (s1.fault == NoFault && o.Some? ==> Rank(input, s1) < Rank(input, s0))
  }

  /**
   * What `parseFace` read from `s0` to `s1`: nothing unless `f` was current, and
   * otherwise, unless the read never ends, `f` and the corners `o`, each read
   * greedily. A FACE_CHANNEL_MISMATCH means the corners are not uniform and an
   * EMPTY_FACE that there are none; otherwise the fan of the face was appended, and a
   * MESH_CHANNEL_MISMATCH means the mesh's channels are then not aligned. Every
   * other fault leaves the mesh as it was.
   */
  predicate FaceRecorded(s0: Snapshot, s1: Snapshot, o: Option<seq<Corner>>) {
    && (o.None? ==> s1 == s0)
    && (o.Some? && s1.fault != Diverges ==>
          && s1.consumed == s0.consumed + TailToks(FaceTail(o.value))
          && CornersRead(o.value, s1.tokenType)
          && (s1.fault.FaceChannelMismatch? <==> !UniformChannels(o.value))
          && (s1.fault.EmptyFace? <==> UniformChannels(o.value) && o.value == []))
    && (o.Some? && (s1.fault == NoFault || s1.fault.MeshChannelMismatch?) ==>
          && s1.mesh == ApplyTail(FaceTail(o.value), s0.mesh)
          && (s1.fault.MeshChannelMismatch? <==> !Aligned(s1.mesh.vIndices, s1.mesh.tIndices, s1.mesh.nIndices)))
    && (!(s1.fault == NoFault || s1.fault.MeshChannelMismatch?) ==> s1.mesh == s0.mesh)
  }

  /** `parseFace` keeps what `FaceKept` says. */
  lemma FaceKeep(input: seq<char>, s: Snapshot)
    requires Coherent(input, s) && s.fault == NoFault
    ensures var r := FaceParsed(input, s); FaceKept(input, s, r.after, r.value)
  {
    if s.tokenType == Face {
      var s1 := Take(input, s);
      AdvanceLaw(input, s);
      if s1.fault == NoFault {
        var c := CornersFrom(input, s1, []);
        CornersKeep(input, s1, []);
        StaysTrans(input, s, s1, c.after);
        if c.after.fault == NoFault {
          FaceAddedKeep(input, s, c.after, c.value);
          FaceAddedLaw(c.after, c.value);
        }
      }
    }
  }

  /** The end of `parseFace`, after `f` and the corners `cs` were read from `s0` to `s`. */
  lemma FaceEndRecorded(s0: Snapshot, s: Snapshot, cs: seq<Corner>)
    requires s0.tokenType == Face && s.fault == NoFault && s.mesh == s0.mesh
    requires s.consumed == s0.consumed + TailToks(FaceTail(cs)) && CornersRead(cs, s.tokenType)
    ensures FaceRecorded(s0, FaceAdded(s, cs), Some(cs))
  {
    FaceAddedLaw(s, cs);
  }

  /** `parseFace` reads what `FaceRecorded` says. */
  lemma FaceLog(input: seq<char>, s: Snapshot)
    requires Coherent(input, s) && s.fault == NoFault
    ensures var r := FaceParsed(input, s); FaceRecorded(s, r.after, r.value)
  {
    if s.tokenType == Face {
      var s1 := Take(input, s);
      AdvanceLaw(input, s);
      if s1.fault == NoFault {
        var log := s.consumed + [Tok(Face, "f")];
        assert s1.consumed == log + RenderAll([]);
        var c := CornersFrom(input, s1, []);
        CornersLog(input, s1, [], log);
        CornersKeep(input, s1, []);
        if c.after.fault == NoFault {
          AppendAssoc(s.consumed, [Tok(Face, "f")], RenderAll(c.value));
          FaceEndRecorded(s, c.after, c.value);
        }
      }
    }
  }

  /** `parseFace`: both halves. */
  predicate FaceStep(input: seq<char>, s0: Snapshot, s1: Snapshot, o: Option<seq<Corner>>) {
    FaceKept(input, s0, s1, o) && FaceRecorded(s0, s1, o)
  }

  /** `parseFace` does what `FaceStep` says. */
  lemma FaceLaw(input: seq<char>, s: Snapshot)
    requires Coherent(input, s) && s.fault == NoFault
    ensures var r := FaceParsed(input, s); FaceStep(input, s, r.after, r.value)
  {
    FaceKeep(input, s);
    FaceLog(input, s);
  }

  // ---------------------------------------------------------------------------
  // `usemtl`, `mtllib`, `o` and `g`
  // ---------------------------------------------------------------------------

  /**
   * `parseUseMtl`, `parseMtlLib`, `parseObject` and `parseGroup` for the keyword kind
   * `k` they accept: the keyword is taken, which makes the token after it current;
   * the rest of the line from there is read as a STRING, and the STRING is expected,
   * which makes that first token's lexeme the name kept (`token`). The value says
   * whether the keyword was current.
   */
  function NamedParsed(input: seq<char>, k: TokenKind, s: Snapshot): (r: Step<bool>)
    requires Current(input, s)
    ensures Current(input, r.after) && Rank(input, r.after) <= Rank(input, s)
  {
    if s.tokenType != k then Step(s, false)
    else
      var s1 := Take(input, s);
      if s1.fault != NoFault then Step(s1, true)
      else
        var s2 := StringRead(input, s1);
        if s2.fault != NoFault then Step(s2, true)
        else Step(Expected(input, StringToken, s2), true)
  }

  /**
   * The operand of a named directive at `p` is never left: the token after the
   * keyword is a comment that meets no newline, or no newline follows it.
   */
  predicate OperandUnended(input: seq<char>, p: nat)
    requires p <= |input|
  {
    var r := Scan(input, p);
    r.Unterminated? || LineUnended(input, PosAfter(r, |input|))
  }

  /**
   * What a named directive with keyword `k` keeps from `s0` to `s1`: the parser
   * state and the mesh; it matched exactly when `k` was current; and with no fault
   * the newline that ends the STRING is current.
   */
  predicate NamedKept(input: seq<char>, k: TokenKind, s0: Snapshot, s1: Snapshot, matched: bool) {
    && Coherent(input, s1) && s1.mesh == s0.mesh
    && matched == (s0.tokenType == k)
    && (s1.fault == NoFault || s1.fault == Diverges)
    && (matched && s1.fault == NoFault ==> s1.tokenType == EndOfLine && Rank(input, s1) < Rank(input, s0))
  }

  /**
   * What a named directive with keyword `k` read from `s0` to `s1`: nothing unless
   * it matched; otherwise the read never ends exactly when its operand is unended,
   * and with no fault the keyword and a STRING were taken, the name kept being the
   * lexeme of the token that followed the keyword, not the rest of the line.
   */
  predicate NamedRecorded(input: seq<char>, k: TokenKind, s0: Snapshot, s1: Snapshot, matched: bool)
    requires k in {UseMtl, MtlLib, Object} && s0.pos <= |input|
  {
    && (!matched ==> s1 == s0)
    && (matched ==> (s1.fault == Diverges <==> OperandUnended(input, s0.pos)))
    && (matched && s1.fault == Diverges ==> s1.consumed == s0.consumed + [Tok(k, Spelling(k))])
    && (matched && s1.fault == NoFault ==>
          && s1.token == LexemeAfter(Scan(input, s0.pos), s0.lookahead)
          && s1.consumed == s0.consumed + TailToks(NamedTail(Tok(k, Spelling(k)), s1.token)))
  }

  /** A named directive keeps what `NamedKept` says. */
  lemma NamedKeep(input: seq<char>, k: TokenKind, s: Snapshot)
    requires k in {UseMtl, MtlLib, Object} && Coherent(input, s) && s.fault == NoFault
    ensures var r := NamedParsed(input, k, s); NamedKept(input, k, s, r.after, r.value)
  {
    if s.tokenType == k {
      var s1 := Take(input, s);
      AdvanceLaw(input, s);
      if s1.fault == NoFault {
        var s2 := StringRead(input, s1);
        StringReadLaw(input, s1);
        if s2.fault == NoFault {
          ExpectedLaw(input, StringToken, s2);
          ScanAfter(input, s2.pos, StringToken, s2.lookahead);
        }
      }
    }
  }

  /** A named directive reads what `NamedRecorded` says. */
  lemma NamedLog(input: seq<char>, k: TokenKind, s: Snapshot)
    requires k in {UseMtl, MtlLib, Object} && Coherent(input, s) && s.fault == NoFault
    ensures var r := NamedParsed(input, k, s); NamedRecorded(input, k, s, r.after, r.value)
  {
    if s.tokenType == k {
      var s1 := Take(input, s);
      AdvanceLaw(input, s);
      if s1.fault == NoFault {
        var s2 := StringRead(input, s1);
        StringReadLaw(input, s1);
        if s2.fault == NoFault {
          ExpectedLaw(input, StringToken, s2);
          AppendAssoc(s.consumed, [Tok(k, Spelling(k))], [Tok(StringToken, s1.lookahead)]);
        }
      }
    }
  }

  /** `parseGroup` accepts OBJECT, not GROUP: where `parseObject` did not match, neither does it. */
  lemma GroupUnmatched(input: seq<char>, s: Snapshot)
    requires Current(input, s) && !NamedParsed(input, Object, s).value
    ensures NamedParsed(input, Object, s) == Step(s, false)
  {
  }

  // ---------------------------------------------------------------------------
  // `s`
  // ---------------------------------------------------------------------------

  /**
   * `parseShade`: when `s` is current it is taken, and the token after it is its
   * operand (the value). A NUMBER is taken and sets the shading flag as `Shading`
   * says; anything else must be `off`, which clears it. The flag is set only once the
   * operand was taken.
   */
  function ShadeParsed(input: seq<char>, s: Snapshot): (r: Step<Option<Tok>>)
    requires Current(input, s)
    ensures Current(input, r.after) && Rank(input, r.after) <= Rank(input, s)
  {
    if s.tokenType != Shade then Step(s, None)
    else
      var s1 := Take(input, s);
      var operand := Tok(s1.tokenType, s1.lookahead);
      if s1.fault != NoFault then Step(s1, Some(operand))
      else
        var s2 := if s1.tokenType == Number then Take(input, s1) else Expected(input, Off, s1);
        if s2.fault != NoFault then Step(s2, Some(operand))
        else Step(s2.(mesh := s2.mesh.(smooth := Shading(operand, s2.mesh.smooth))), Some(operand))
  }

  /**
   * What `parseShade` keeps from `s0` to `s1`: the parser state and the line; the
   * operand `o` is read exactly when `s` was current; and a fault is an operand
   * other than `off` where a NUMBER is not, or a read that never ends.
   */
  predicate ShadeKept(input: seq<char>, s0: Snapshot, s1: Snapshot, o: Option<Tok>) {
    && Coherent(input, s1) && Stays(input, s0, s1)
    && o.Some? == (s0.tokenType == Shade)
    && (s1.fault == NoFault || s1.fault == Diverges || (s1.fault.UnexpectedToken? && s1.fault.expected == Off))
    && (s1.fault == NoFault && o.Some? ==> Rank(input, s1) < Rank(input, s0))
  }

  /**
   * What `parseShade` read from `s0` to `s1`: nothing unless `s` was current. An
   * UNEXPECTED_TOKEN fault means the operand, still current, is neither a NUMBER nor
   * `off`, and only `s` was taken; with no fault `s` and the operand were taken and
   * the flag set as `Shading` says. A fault leaves the mesh as it was.
   */
  predicate ShadeRecorded(s0: Snapshot, s1: Snapshot, o: Option<Tok>) {
    && (o.None? ==> s1 == s0)
    && (s1.fault != NoFault ==> s1.mesh == s0.mesh)
    && (s1.fault.UnexpectedToken? ==>
          && o == Some(Tok(s1.tokenType, s1.lookahead)) && o.value.kind != Number && o.value.kind != Off
          && s1.consumed == s0.consumed + [Tok(Shade, "s")])
    && (s1.fault == NoFault && o.Some? ==>
          && (o.value.kind == Number || o.value.kind == Off)
          && s1.consumed == s0.consumed + TailToks(ShadeTail(o.value))
          && s1.mesh == ApplyTail(ShadeTail(o.value), s0.mesh))
  }

  /** `parseShade` keeps what `ShadeKept` says. */
  lemma ShadeKeep(input: seq<char>, s: Snapshot)
    requires Coherent(input, s) && s.fault == NoFault
    ensures var r := ShadeParsed(input, s); ShadeKept(input, s, r.after, r.value)
  {
    if s.tokenType == Shade {
      var s1 := Take(input, s);
      AdvanceLaw(input, s);
      if s1.fault == NoFault {
        ExpectedLaw(input, Number, s1);
        ExpectedLaw(input, Off, s1);
        var s2 := if s1.tokenType == Number then Take(input, s1) else Expected(input, Off, s1);
        StaysTrans(input, s, s1, s2);
        if s2.fault == NoFault {
          TablesKept(input, s, s2, s2.mesh.(smooth := Shading(Tok(s1.tokenType, s1.lookahead), s2.mesh.smooth)));
        }
      }
    }
  }

  /** `parseShade` reads what `ShadeRecorded` says. */
  lemma ShadeLog(input: seq<char>, s: Snapshot)
    requires Coherent(input, s) && s.fault == NoFault
    ensures var r := ShadeParsed(input, s); ShadeRecorded(s, r.after, r.value)
  {
    if s.tokenType == Shade {
      var s1 := Take(input, s);
      if s1.fault == NoFault {
        var operand := Tok(s1.tokenType, s1.lookahead);
        AppendAssoc(s.consumed, [Tok(Shade, "s")], [operand]);
        var s2 := if s1.tokenType == Number then Take(input, s1) else Expected(input, Off, s1);
        if s1.tokenType != Number {
          AdvanceLaw(input, s);
          ExpectedLaw(input, Off, s1);
        }
        assert s2.mesh == s.mesh;
        if s2.fault == NoFault {
          assert s2.consumed == s.consumed + TailToks(ShadeTail(operand));
        }
      }
    }
  }

  // ---------------------------------------------------------------------------
  // Comments
  // ---------------------------------------------------------------------------

  /**
   * `accept(COMMENT)` with a comment current: the comment is taken, its newline
   * becomes current, and nothing else changes.
   */
  lemma CommentLaw(input: seq<char>, s: Snapshot)
    requires Coherent(input, s) && s.fault == NoFault && s.tokenType == Comment
    ensures var s1 := Take(input, s);
      && Coherent(input, s1) && s1.fault == NoFault && s1.tokenType == EndOfLine
      && s1.consumed == s.consumed + [Tok(Comment, s.lookahead)] && s1.mesh == s.mesh
      && Rank(input, s1) < Rank(input, s)
  {
    AdvanceLaw(input, s);
    ScanAfter(input, s.pos, Comment, s.lookahead);
  }
}
