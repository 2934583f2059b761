/**
 * The loop of `ObjParser::parse` (obj_parser.hpp) as functions on a `Snapshot`: the
 * cascade of directive parsers on one line, the end of the line, and the lines of a
 * file in turn. The laws say what a line and a whole file read, what they do to the
 * mesh, and which fault stops them.
 */
module LineSteps {
  import opened Wrappers
  import opened Lexing
  import opened Unification
  import opened ObjSyntax
  import opened ParserState
  import opened DirectiveSteps

  // ---------------------------------------------------------------------------
  // The end of the cascade
  // ---------------------------------------------------------------------------

  /**
   * The parsers after the vector directives, tried in turn while none has matched:
   * `parseFace`, `parseUseMtl`, `parseMtlLib`, `parseObject`, `parseGroup` (which
   * accepts OBJECT) and `parseShade`. A parser that does not match leaves the state as
   * it was, so each is applied to `s`. The value is what the one that matched read.
   */
  function TailParsed(input: seq<char>, s: Snapshot): (r: Step<Tail>)
    requires Current(input, s)
    ensures Current(input, r.after) && Rank(input, r.after) <= Rank(input, s)
  {
    var f := FaceParsed(input, s);
    if f.value.Some? then Step(f.after, FaceTail(f.value.value))
    else
      var u := NamedParsed(input, UseMtl, s);
      if u.value then Step(u.after, NamedTail(Tok(UseMtl, "usemtl"), u.after.token))
      else
        var l := NamedParsed(input, MtlLib, s);
        if l.value then Step(l.after, NamedTail(Tok(MtlLib, "mtllib"), l.after.token))
        else
          var o := NamedParsed(input, Object, s);
          if o.value then Step(o.after, NamedTail(Tok(Object, "o"), o.after.token))
          else
            var g := NamedParsed(input, Object, s);
            if g.value then Step(g.after, NamedTail(Tok(Object, "o"), g.after.token))
            else
              var h := ShadeParsed(input, s);
              if h.value.Some? then Step(h.after, ShadeTail(h.value.value))
              else Step(s, NoTail)
  }

  /**
   * What the end of the cascade keeps from `s0` to `s1`: the parser state, and a
   * fault that is one of those its parsers find.
   */
  predicate TailKept(input: seq<char>, s0: Snapshot, s1: Snapshot, tail: Tail) {
    && Coherent(input, s1)
    && (|| s1.fault == NoFault || s1.fault == Diverges
        || (s1.fault.UnexpectedToken? && s1.fault.expected == Off)
        || s1.fault.FaceChannelMismatch? || s1.fault.EmptyFace? || s1.fault.MeshChannelMismatch?)
    && (s1.fault == NoFault && tail != NoTail ==> Rank(input, s1) < Rank(input, s0))
  }

  /**
   * What the end of the cascade read from `s0` to `s1`: the parser whose keyword was
   * current read `tail`, as its own law says, and nothing was read when none was.
   * With no fault `tail` was read as `TailRead` says, its tokens were taken and it
   * was applied to the mesh.
   */
  predicate TailRecorded(input: seq<char>, s0: Snapshot, s1: Snapshot, tail: Tail)
    requires s0.pos <= |input|
  {
    && TailKind(tail, s1.tokenType) == s0.tokenType
    && (match tail
        case NoTail => s1 == s0 && s0.tokenType !in {Face, UseMtl, MtlLib, Object, Shade}
        case FaceTail(cs) => FaceRecorded(s0, s1, Some(cs))
        case NamedTail(keyword, name) =>
          && keyword.kind in {UseMtl, MtlLib, Object} && keyword.lexeme == Spelling(keyword.kind)
          && name == s1.token && NamedRecorded(input, keyword.kind, s0, s1, true)
        case ShadeTail(operand) => ShadeRecorded(s0, s1, Some(operand)))
    && TailFault(s1.fault, tail, s1.mesh)
    && (s1.fault == NoFault ==>
          && TailRead(tail, s1.tokenType)
          && s1.consumed == s0.consumed + TailToks(tail)
          && s1.mesh == ApplyTail(tail, s0.mesh))
  }

  /**
   * The fault `f` that stopped the end of the cascade after it read `tail`, the mesh
   * being `m`, names its cause: an `s` operand that is not `off`, a face with channels
   * on some corners only, a face with no corner, or a mesh whose channels are no
   * longer aligned.
   */
  predicate TailFault(f: Fault, tail: Tail, m: Mesh) {
    && (f.UnexpectedToken? ==> f.expected == Off && tail.ShadeTail?)
    && (f.FaceChannelMismatch? ==> tail.FaceTail? && !UniformChannels(tail.corners))
    && (f.EmptyFace? ==> tail == FaceTail([]))
    && (f.MeshChannelMismatch? ==> tail.FaceTail? && !Aligned(m.vIndices, m.tIndices, m.nIndices))
  }

  /** The end of the cascade leaves the mesh as it was, or applies what it read. */
  lemma TailMesh(input: seq<char>, s: Snapshot)
    requires Coherent(input, s) && s.fault == NoFault
    ensures var r := TailParsed(input, s); r.after.mesh == s.mesh || r.after.mesh == ApplyTail(r.value, s.mesh)
  {
    TailLog(input, s);
  }

  /** The end of the cascade keeps what `TailKept` says. */
  lemma TailKeep(input: seq<char>, s: Snapshot)
    requires Coherent(input, s) && s.fault == NoFault
    ensures var r := TailParsed(input, s); TailKept(input, s, r.after, r.value)
  {
    if s.tokenType == Face {
      FaceKeep(input, s);
    } else if s.tokenType in {UseMtl, MtlLib, Object} {
      NamedKeep(input, s.tokenType, s);
    } else {
      ShadeKeep(input, s);
    }
  }

  /** The end of the cascade reads what `TailRecorded` says. */
  lemma TailLog(input: seq<char>, s: Snapshot)
    requires Coherent(input, s) && s.fault == NoFault
    ensures var r := TailParsed(input, s); TailRecorded(input, s, r.after, r.value)
  {
    if s.tokenType == Face {
      FaceTailLog(input, s);
    } else if s.tokenType in {UseMtl, MtlLib, Object} {
      NamedTailLog(input, s);
    } else {
      ShadeTailLog(input, s);
    }
  }

  /** `TailLog` when `f` is current. */
  lemma FaceTailLog(input: seq<char>, s: Snapshot)
    requires Coherent(input, s) && s.fault == NoFault && s.tokenType == Face
    ensures var r := TailParsed(input, s); TailRecorded(input, s, r.after, r.value)
  {
    FaceLog(input, s);
    FaceKeep(input, s);
  }

  /** `TailLog` when `usemtl`, `mtllib` or `o` is current. */
  lemma NamedTailLog(input: seq<char>, s: Snapshot)
    requires Coherent(input, s) && s.fault == NoFault && s.tokenType in {UseMtl, MtlLib, Object}
    ensures var r := TailParsed(input, s); TailRecorded(input, s, r.after, r.value)
  {
    var k := s.tokenType;
    var u := NamedParsed(input, k, s);
    NamedTailIs(input, s);
    NamedLog(input, k, s);
    NamedKeep(input, k, s);
    assert TailKind(NamedTail(Tok(k, Spelling(k)), u.after.token), u.after.tokenType) == k;
  }

  /** With `usemtl`, `mtllib` or `o` current, the end of the cascade is that directive's parser. */
  lemma NamedTailIs(input: seq<char>, s: Snapshot)
    requires Current(input, s) && s.tokenType in {UseMtl, MtlLib, Object}
    ensures var u := NamedParsed(input, s.tokenType, s);
      TailParsed(input, s) == Step(u.after, NamedTail(Tok(s.tokenType, Spelling(s.tokenType)), u.after.token))
  {
  }

  /** `TailLog` when neither `f` nor a named directive is current. */
  lemma ShadeTailLog(input: seq<char>, s: Snapshot)
    requires Coherent(input, s) && s.fault == NoFault && s.tokenType !in {Face, UseMtl, MtlLib, Object}
    ensures var r := TailParsed(input, s); TailRecorded(input, s, r.after, r.value)
  {
    ShadeLog(input, s);
    ShadeKeep(input, s);
    if s.tokenType != Shade {
      assert s.consumed + [] == s.consumed;
    }
  }

  // ---------------------------------------------------------------------------
  // One line
  // ---------------------------------------------------------------------------

  /**
   * The cascade of one line in `parse`: a comment is taken; otherwise the vector
   * parsers run, and unless they faulted, the end of the cascade.
   */
  function DirectiveParsed(input: seq<char>, s: Snapshot): (r: Step<Directive>)
    requires Current(input, s)
    ensures Current(input, r.after) && Rank(input, r.after) <= Rank(input, s)
  {
    if s.tokenType == Comment then Step(Take(input, s), Remark(s.lookahead))
    else
      var a := VectorsParsed(input, s);
      var (v, n, t) := a.value;
      if a.after.fault != NoFault then Step(a.after, Cascade(v, n, t, NoTail))
      else
        var b := TailParsed(input, a.after);
        Step(b.after, Cascade(v, n, t, b.value))
  }

  /**
   * The fault `f` that stopped the directive `d` names its cause, the mesh being `m`
   * after it: too few NUMBERs for the last vector directive that matched, an `s`
   * operand that is not `off`, a face with channels on some corners only, a face
   * with no corner, or a mesh whose channels are no longer aligned.
   */
  predicate FaultCause(f: Fault, d: Directive, m: Mesh) {
    && (f.UnexpectedToken? ==>
          || (f.expected == Number && d.Cascade? && d.tail == NoTail && VectorsCut(d.v, d.n, d.t))
          || (f.expected == Off && d.Cascade? && d.tail.ShadeTail?))
    && (f.FaceChannelMismatch? ==> d.Cascade? && d.tail.FaceTail? && !UniformChannels(d.tail.corners))
    && (f.EmptyFace? ==> d.Cascade? && d.tail == FaceTail([]))
    && (f.MeshChannelMismatch? ==> d.Cascade? && d.tail.FaceTail? && !Aligned(m.vIndices, m.tIndices, m.nIndices))
  }

  /**
   * What the cascade did from `s0` to `s1`, having read `d`: the parser state is kept
   * and the mesh only grows; `d` is a comment exactly when one was current; with no
   * fault `d` was read as `ReadAs` says, from a line that starts with a token of kind
   * `StartKind`, its tokens were taken and it was applied to the mesh; and a fault
   * names its cause.
   */
  predicate DirectiveStep(input: seq<char>, s0: Snapshot, s1: Snapshot, d: Directive) {
    && Coherent(input, s1) && Grows(s0.mesh, s1.mesh)
    && d.Remark? == (s0.tokenType == Comment)
    && (s1.fault == NoFault ==>
          && ReadAs(d, s1.tokenType) && StartKind(d, s1.tokenType) == s0.tokenType
          && s1.consumed == s0.consumed + DirectiveToks(d)
          && s1.mesh == Apply(d, s0.mesh)
          && Rank(input, s1) <= Rank(input, s0))
    && FaultCause(s1.fault, d, s1.mesh)
  }

  /** A cascade that read `v`, `n` and `t` to `sv` and then `tail`, with no fault. */
  lemma CascadeRead(input: seq<char>, s0: Snapshot, sv: Snapshot, s1: Snapshot,
                    v: Option<seq<string>>, n: Option<seq<string>>, t: Option<seq<string>>, tail: Tail)
    requires Coherent(input, s0) && s0.fault == NoFault && s0.tokenType != Comment
    requires VectorsStep(input, s0, sv, v, n, t) && sv.fault == NoFault
    requires TailKept(input, sv, s1, tail) && TailRecorded(input, sv, s1, tail)
    requires s1.fault == NoFault && Rank(input, s1) <= Rank(input, s0)
    ensures DirectiveStep(input, s0, s1, Cascade(v, n, t, tail))
  {
    GrowsTail(tail, sv.mesh);
    GrowsTrans(s0.mesh, sv.mesh, s1.mesh);
    AppendAssoc(s0.consumed, VectorsToks(v, n, t), TailToks(tail));
  }

  /** A cascade that read `v`, `n` and `t` to `sv` and then `tail`, which faulted. */
  lemma CascadeFault(input: seq<char>, s0: Snapshot, sv: Snapshot, s1: Snapshot,
                     v: Option<seq<string>>, n: Option<seq<string>>, t: Option<seq<string>>, tail: Tail)
    requires s0.tokenType != Comment && Grows(s0.mesh, sv.mesh)
    requires TailKept(input, sv, s1, tail) && TailFault(s1.fault, tail, s1.mesh)
    requires s1.mesh == sv.mesh || s1.mesh == ApplyTail(tail, sv.mesh)
    requires s1.fault != NoFault
    ensures DirectiveStep(input, s0, s1, Cascade(v, n, t, tail))
  {
    GrowsTail(tail, sv.mesh);
    GrowsTrans(s0.mesh, sv.mesh, s1.mesh);
  }

  /** The cascade does what `DirectiveStep` says. */
  lemma DirectiveLaw(input: seq<char>, s: Snapshot)
    requires Coherent(input, s) && s.fault == NoFault
    ensures var r := DirectiveParsed(input, s); DirectiveStep(input, s, r.after, r.value)
  {
    if s.tokenType == Comment {
      CommentLaw(input, s);
    } else if VectorsParsed(input, s).after.fault != NoFault {
      VectorsLaw(input, s);
    } else {
      CascadeLaw(input, s);
    }
  }

  /** `DirectiveLaw` when the vector parsers did not fault. */
  lemma CascadeLaw(input: seq<char>, s: Snapshot)
    requires Coherent(input, s) && s.fault == NoFault && s.tokenType != Comment
    requires VectorsParsed(input, s).after.fault == NoFault
    ensures var r := DirectiveParsed(input, s); DirectiveStep(input, s, r.after, r.value)
  {
    var a := VectorsParsed(input, s);
    var (v, n, t) := a.value;
    VectorsLaw(input, s);
    var b := TailParsed(input, a.after);
    TailKeep(input, a.after);
    TailLog(input, a.after);
    if b.after.fault == NoFault {
      CascadeRead(input, s, a.after, b.after, v, n, t, b.value);
    } else {
      TailMesh(input, a.after);
      CascadeFault(input, s, a.after, b.after, v, n, t, b.value);
    }
  }
}
