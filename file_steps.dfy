/**
 * The loop of `ObjParser::parse` (obj_parser.hpp) over the lines of a file, as
 * functions on a `Snapshot`: the test at the end of each line, one pass of the loop,
 * and the passes from the first `nextToken` on. The laws say what a whole parse read,
 * what it built, and why it stopped.
 */
module FileSteps {
  import opened Wrappers
  import opened Lexing
  import opened Unification
  import opened ObjSyntax
  import opened ParserState
  import opened DirectiveSteps
  import opened LineSteps

  // ---------------------------------------------------------------------------
  // The end of a line
  // ---------------------------------------------------------------------------

  /**
   * The test at the end of a pass: END_OF_LINE is taken and the loop goes on (the
   * value), or else END_OF_FILE is expected and the loop ends.
   */
  function EndingRead(input: seq<char>, s: Snapshot): (r: Step<bool>)
    requires Current(input, s)
    ensures Current(input, r.after) && Rank(input, r.after) <= Rank(input, s)
    ensures r.value && r.after.fault == NoFault ==> Rank(input, r.after) < Rank(input, s)
  {
    if s.tokenType == EndOfLine then Step(Take(input, s), true)
    else Step(Expected(input, EndOfFile, s), false)
  }

  /**
   * What the end of a line did from `s0` to `s1`: the loop goes on exactly when
   * END_OF_LINE was current. END_OF_LINE or END_OF_FILE is taken; taking END_OF_LINE
   * never ends exactly when a comment that meets no newline follows; after
   * END_OF_FILE the input is read to its end; any other token is an UNEXPECTED_TOKEN
   * fault that names it. The mesh is left as it was.
   */
  predicate EndingStep(input: seq<char>, s0: Snapshot, s1: Snapshot, more: bool)
    requires s0.pos <= |input|
  {
    && Coherent(input, s1) && s1.mesh == s0.mesh
    && more == (s0.tokenType == EndOfLine)
    && (s0.tokenType == EndOfLine || s0.tokenType == EndOfFile ==>
          s1.consumed == s0.consumed + [Tok(s0.tokenType, s0.lookahead)])
    && (s0.tokenType == EndOfLine ==>
          && (s1.fault == NoFault || s1.fault == Diverges)
          && (s1.fault == Diverges <==> Scan(input, s0.pos).Unterminated?))
    && (s0.tokenType == EndOfFile ==> s1.fault == NoFault && s1.tokenType == EndOfFile && s1.pos == |input|)
    && (s0.tokenType != EndOfLine && s0.tokenType != EndOfFile ==>
          s1.fault == UnexpectedToken(s0.line, EndOfFile, s0.tokenType) && s1.consumed == s0.consumed)
  }

  /** The end of a line does what `EndingStep` says. */
  lemma EndingLaw(input: seq<char>, s: Snapshot)
    requires Coherent(input, s) && s.fault == NoFault
    ensures var r := EndingRead(input, s); EndingStep(input, s, r.after, r.value)
  {
    ExpectedLaw(input, EndOfLine, s);
    ExpectedLaw(input, EndOfFile, s);
    if s.tokenType == EndOfFile {
      ScanAfter(input, s.pos, EndOfFile, s.lookahead);
    }
  }

  // ---------------------------------------------------------------------------
  // One pass of the loop
  // ---------------------------------------------------------------------------

  /**
   * One pass of the loop in `parse`: the cascade, and unless it faulted, the end of
   * the line. The value is the directive read, the token current after it, and
   * whether the loop goes on.
   */
  function LineParsed(input: seq<char>, s: Snapshot): (r: Step<(Directive, Tok, bool)>)
    requires Current(input, s)
    ensures Current(input, r.after) && Rank(input, r.after) <= Rank(input, s)
    ensures r.value.2 && r.after.fault == NoFault ==> Rank(input, r.after) < Rank(input, s)
  {
    var a := DirectiveParsed(input, s);
    var ending := Tok(a.after.tokenType, a.after.lookahead);
    if a.after.fault != NoFault then Step(a.after, (a.value, ending, false))
    else
      var b := EndingRead(input, a.after);
      Step(b.after, (a.value, ending, b.value && b.after.fault == NoFault))
  }

  /**
   * The fault `f` that stopped a pass that read `d`, the token `ending` being current
   * after it and the mesh being `m`, names its cause: the cascade's own faults, a
   * read that never ends, or a token after a whole directive that ends neither the
   * line nor the file.
   */
  predicate LineFault(f: Fault, d: Directive, ending: Tok, m: Mesh) {
    if f.UnexpectedToken? && f.expected == EndOfFile then
      f.got == ending.kind && ending.kind != EndOfLine && ending.kind != EndOfFile && ReadAs(d, ending.kind)
    else FaultCause(f, d, m)
  }

  /**
   * What one pass did from `s0` to `s1`, having read `d` and then `ending`: the
   * parser state is kept and the mesh only grows. With no fault, `d` was read as
   * `ReadAs` says, `ending` ends the line, or the file when the loop stops, and the
   * tokens of both were taken and `d` applied to the mesh; a token after `d` that is
   * neither is fatal; and a fault names its cause.
   */
  predicate LineStep(input: seq<char>, s0: Snapshot, s1: Snapshot, d: Directive, ending: Tok, more: bool) {
    && Coherent(input, s1) && Grows(s0.mesh, s1.mesh)
    && (more ==> s1.fault == NoFault && ending.kind == EndOfLine && Rank(input, s1) < Rank(input, s0))
    && (s1.fault == NoFault ==>
          && ReadAs(d, ending.kind) && StartKind(d, ending.kind) == s0.tokenType
          && s1.consumed == s0.consumed + DirectiveToks(d) + [ending]
          && s1.mesh == Apply(d, s0.mesh)
          && (!more ==> ending.kind == EndOfFile && s1.tokenType == EndOfFile && s1.pos == |input|))
    && (s1.fault.UnexpectedToken? && s1.fault.expected == EndOfFile ==>
          && s1.consumed == s0.consumed + DirectiveToks(d) && s1.mesh == Apply(d, s0.mesh))
    && LineFault(s1.fault, d, ending, s1.mesh)
  }

  /** A pass whose cascade read `d` to `mid` and faulted. */
  lemma LineCut(input: seq<char>, s0: Snapshot, mid: Snapshot, d: Directive)
    requires DirectiveStep(input, s0, mid, d) && mid.fault != NoFault
    ensures LineStep(input, s0, mid, d, Tok(mid.tokenType, mid.lookahead), false)
  {
  }

  /** A pass whose cascade read `d` to `mid`, and whose end of line went on to `s1`. */
  lemma LineJoin(input: seq<char>, s0: Snapshot, mid: Snapshot, s1: Snapshot, d: Directive, more: bool)
    requires Coherent(input, s0) && s0.fault == NoFault
    requires DirectiveStep(input, s0, mid, d) && mid.fault == NoFault
    requires EndingStep(input, mid, s1, more)
    requires more && s1.fault == NoFault ==> Rank(input, s1) < Rank(input, mid)
    ensures LineStep(input, s0, s1, d, Tok(mid.tokenType, mid.lookahead), more && s1.fault == NoFault)
  {
    if s1.fault == NoFault {
      AppendAssoc(s0.consumed, DirectiveToks(d), [Tok(mid.tokenType, mid.lookahead)]);
    }
  }

  /** One pass does what `LineStep` says. */
  lemma LineLaw(input: seq<char>, s: Snapshot)
    requires Coherent(input, s) && s.fault == NoFault
    ensures var r := LineParsed(input, s); LineStep(input, s, r.after, r.value.0, r.value.1, r.value.2)
  {
    var a := DirectiveParsed(input, s);
    DirectiveLaw(input, s);
    if a.after.fault == NoFault {
      var b := EndingRead(input, a.after);
      EndingLaw(input, a.after);
      LineJoin(input, s, a.after, b.after, a.value, b.value);
    } else {
      LineCut(input, s, a.after, a.value);
    }
  }

  // ---------------------------------------------------------------------------
  // The passes of the loop
  // ---------------------------------------------------------------------------

  /**
   * The passes of the loop in `parse` from `s`, after the lines `lines` ended by
   * `ends`: each pass appends its directive and its ending, and the loop goes on
   * while a pass took END_OF_LINE.
   */
  function LinesFrom(input: seq<char>, s: Snapshot, lines: seq<Directive>, ends: seq<Tok>): (r: Step<(seq<Directive>, seq<Tok>)>)
    requires Current(input, s)
    ensures Current(input, r.after) && Rank(input, r.after) <= Rank(input, s)
    decreases Rank(input, s)
  {
    var l := LineParsed(input, s);
    var (d, ending, more) := l.value;
    if more then LinesFrom(input, l.after, lines + [d], ends + [ending])
    else Step(l.after, (lines + [d], ends + [ending]))
  }

  /** The mesh of a parser before `parse`: no attributes, no corners, flat shading. */
  const NoMesh := Mesh([], [], [], [], [], [], false)

  /** A parser before `parse`: at the start of the input on line 1, with no token read. */
  function Start(): Snapshot {
    Snapshot(0, Unknown, "", "", 1, NoFault, [], NoMesh)
  }

  /**
   * `parse`: the first token is scanned and the loop runs until a pass does not take
   * END_OF_LINE. The value is the lines read and the token that ended each.
   */
  function FileParsed(input: seq<char>): (r: Step<(seq<Directive>, seq<Tok>)>)
  {
    Parsed(input, Start())
  }

  /** `parse` on a parser in the state `s`. */
  function Parsed(input: seq<char>, s: Snapshot): (r: Step<(seq<Directive>, seq<Tok>)>)
    requires Current(input, s)
    ensures Current(input, r.after)
  {
    var s1 := Advance(input, s);
    if s1.fault != NoFault then Step(s1, ([], []))
    else LinesFrom(input, s1, [], [])
  }

  /**
   * How a parse that read `lines`, each ended by a token of `ends`, from the mesh
   * `m0` ended in `s1`: the parser state is kept. With no fault the whole input was
   * read as `FileRead` says, its tokens were all taken, and the mesh is every
   * directive applied in turn. A fault stops the last line only, after all the lines
   * before it were read whole and applied, and names its cause.
   */
  predicate FileOutcome(input: seq<char>, s1: Snapshot, lines: seq<Directive>, ends: seq<Tok>, m0: Mesh) {
    && Coherent(input, s1) && |lines| == |ends|
    && (lines == [] ==> s1.fault == Diverges)
    && (s1.fault == NoFault ==>
          && FileRead(lines, ends) && s1.consumed == FileToks(lines, ends) && s1.mesh == ApplyAll(lines, m0)
          && s1.tokenType == EndOfFile && s1.pos == |input|)
    && (s1.fault != NoFault && lines != [] ==>
          && LinesRead(lines[..|lines| - 1], ends[..|ends| - 1])
          && Grows(ApplyAll(lines[..|lines| - 1], m0), s1.mesh)
          && LineFault(s1.fault, lines[|lines| - 1], ends[|ends| - 1], s1.mesh))
  }

  /** The loop from `s` does what `FileOutcome` says, given the lines read before `s`. */
  lemma {:induction false} LinesLaw(input: seq<char>, s: Snapshot, lines: seq<Directive>, ends: seq<Tok>, m0: Mesh)
    requires Coherent(input, s) && s.fault == NoFault
    requires LinesRead(lines, ends) && s.consumed == FileToks(lines, ends) && s.mesh == ApplyAll(lines, m0)
    ensures var r := LinesFrom(input, s, lines, ends); FileOutcome(input, r.after, r.value.0, r.value.1, m0)
    decreases Rank(input, s)
  {
    var l := LineParsed(input, s);
    var (d, ending, more) := l.value;
    LineLaw(input, s);
    FileSnoc(lines, ends, d, ending, m0);
    if more {
      LinesSnoc(lines, ends, d, ending);
      LinesLaw(input, l.after, lines + [d], ends + [ending], m0);
    } else if l.after.fault == NoFault {
      FileClose(lines, ends, d, ending);
    } else {
      LastLine(lines, ends, d, ending);
    }
  }

  /** The lines before the last. */
  lemma LastLine(lines: seq<Directive>, ends: seq<Tok>, d: Directive, e: Tok)
    ensures (lines + [d])[..|lines|] == lines && (ends + [e])[..|ends|] == ends
    ensures (lines + [d])[|lines|] == d && (ends + [e])[|ends|] == e
  {
  }

  /** `parse` does what `FileOutcome` says, from a parser with no mesh. */
  lemma FileLaw(input: seq<char>)
    ensures var r := FileParsed(input); FileOutcome(input, r.after, r.value.0, r.value.1, NoMesh)
  {
    AdvanceLaw(input, Start());
    var s := Advance(input, Start());
    if s.fault == NoFault {
      LinesLaw(input, s, [], [], NoMesh);
    }
  }
}
