/**
 * The fields of an `ObjParser` (obj_parser.hpp) at one moment, taken as a value, and
 * the tokeniser's operations on them (`nextToken`, `accept`, `expect`, `parseString`)
 * as functions from the value before to the value after. The methods of the class
 * are proved to compute these functions; the lemmas here state what each operation
 * keeps and what it reads.
 */
module ParserState {
  import opened Lexing
  import opened Unification
  import opened ObjSyntax

  /** Why a parse stopped early. */
  datatype Fault =
    | NoFault
    | UnexpectedToken(line: int, expected: TokenKind, got: TokenKind)  // `expect` saw another kind
    | FaceChannelMismatch(line: int)  // some corners of one face have a channel, others not
    | MeshChannelMismatch(line: int)  // a channel is present on some faces but not on others
    | EmptyFace(line: int)            // `f` without corners: `size() - 1` wraps around
    | Diverges                        // a comment or free text meets no newline: reading never ends

  /**
   * The fields of a parser other than its input and `done`: the read position, the
   * current token (`token_type`, `next_token`), the last accepted lexeme (`token`),
   * the line counter, the fault, the log of accepted tokens and the mesh.
   */
  datatype Snapshot = Snapshot(
    pos: nat, tokenType: TokenKind, lookahead: string, token: string, line: int,
    fault: Fault, consumed: seq<Tok>, mesh: Mesh)

  /** The state after an operation, and what the operation read. */
  datatype Step<T> = Step(after: Snapshot, value: T)

  /** The read position is in the input, and at its end once END_OF_FILE is current. */
  predicate Current(input: seq<char>, s: Snapshot) {
    s.pos <= |input| && (s.tokenType == EndOfFile ==> s.pos == |input|)
  }

  /**
   * The current token agrees with the input: `Current`, and a separator or a keyword
   * is current with its spelling, and a current comment is followed by its newline.
   */
  predicate Ahead(input: seq<char>, s: Snapshot) {
    && Current(input, s)
    && (s.tokenType == IndexSeparator ==> s.lookahead == "/")
    && (IsKeyword(s.tokenType) ==> s.lookahead == Spelling(s.tokenType))
    && (s.tokenType == Comment ==> s.pos < |input| && IsNewline(input[s.pos]))
  }

  /**
   * A fault agrees with the input: an unexpected token is the current one, of another
   * kind than the one expected; a fault found on a line names the current line; and a
   * read that never ends is one on a line that no newline ends.
   */
  predicate Tied(input: seq<char>, s: Snapshot) {
    && (s.fault.UnexpectedToken? ==> s.fault.got == s.tokenType && s.fault.got != s.fault.expected)
    && (s.fault != NoFault && s.fault != Diverges ==> s.fault.line == s.line)
    && (s.fault == Diverges ==> LineUnended(input, s.pos))
  }

  /** The corner lists hold whole triangles, and the channels stay aligned while there is no fault. */
  predicate Shaped(s: Snapshot) {
    && |s.mesh.vIndices| % 3 == 0
    && (s.fault == NoFault ==> Aligned(s.mesh.vIndices, s.mesh.tIndices, s.mesh.nIndices))
  }

  /** The parser state the methods keep. */
  predicate Coherent(input: seq<char>, s: Snapshot) {
    Ahead(input, s) && Tied(input, s) && Shaped(s)
  }

  /** Decreases with every accepted token other than END_OF_FILE. */
  function Rank(input: seq<char>, s: Snapshot): int {
    2 * (|input| - s.pos) + (if s.tokenType == EndOfFile then 0 else 1)
  }

  /**
   * What is read from `s0` to `s1` stays on the line it started on: unless END_OF_LINE
   * became current, the position is still on that line; nothing is read when
   * END_OF_LINE was current; and a read that never ends started on a line that no
   * newline ends.
   */
  predicate Stays(input: seq<char>, s0: Snapshot, s1: Snapshot) {
    && s0.pos <= s1.pos <= |input|
    && (s0.tokenType == EndOfLine ==> s1.pos == s0.pos && s1.tokenType == EndOfLine && s1.fault != Diverges)
    && (s1.fault != Diverges && s1.tokenType != EndOfLine ==> s1.pos <= LineEnd(input, s0.pos))
    && (s1.fault == Diverges ==> LineUnended(input, s0.pos))
  }

  /** Staying on a line from `s0` to `s1` and from there to `s2` stays on it from `s0` to `s2`. */
  lemma StaysTrans(input: seq<char>, s0: Snapshot, s1: Snapshot, s2: Snapshot)
    requires Stays(input, s0, s1) && s1.fault == NoFault && Stays(input, s1, s2)
    ensures Stays(input, s0, s2)
  {
    if s1.tokenType != EndOfLine {
      LineEndStep(input, s0.pos, s1.pos);
    }
  }

  /** A new attribute table in the mesh keeps the parser state and the line it is on. */
  lemma TablesKept(input: seq<char>, s0: Snapshot, s: Snapshot, m: Mesh)
    requires Coherent(input, s) && Stays(input, s0, s)
    requires m.vIndices == s.mesh.vIndices && m.tIndices == s.mesh.tIndices && m.nIndices == s.mesh.nIndices
    ensures Coherent(input, s.(mesh := m)) && Stays(input, s0, s.(mesh := m))
    ensures Rank(input, s.(mesh := m)) == Rank(input, s)
  {
  }

  /**
   * A new mesh and a fault found on the current line keep the parser state and the
   * line it is on, as long as the corner lists hold whole triangles and, with no
   * fault, stay aligned.
   */
  lemma MeshChanged(input: seq<char>, s0: Snapshot, s: Snapshot, m: Mesh, f: Fault)
    requires Coherent(input, s) && Stays(input, s0, s) && s.fault == NoFault
    requires f == NoFault || ((f.FaceChannelMismatch? || f.EmptyFace? || f.MeshChannelMismatch?) && f.line == s.line)
    requires |m.vIndices| % 3 == 0 && (f == NoFault ==> Aligned(m.vIndices, m.tIndices, m.nIndices))
    ensures Coherent(input, s.(mesh := m, fault := f)) && Stays(input, s0, s.(mesh := m, fault := f))
  {
  }

  // ---------------------------------------------------------------------------
  // The tokeniser
  // ---------------------------------------------------------------------------

  /**
   * `nextToken`: the current lexeme becomes `token` and the next token is scanned. A
   * comment that meets no newline is never left: the read diverges.
   */
  function Advance(input: seq<char>, s: Snapshot): (s1: Snapshot)
    requires Current(input, s)
    ensures Current(input, s1) && Rank(input, s1) <= Rank(input, s)
    ensures s1.fault == NoFault && s.tokenType != EndOfFile ==> Rank(input, s1) < Rank(input, s)
  {
    ScanRank(input, s.pos, s.tokenType);
    Shifted(|input|, s, Scan(input, s.pos))
  }

  /** The state after a scan that found `r` in an input of length `n`. */
  function Shifted(n: nat, s: Snapshot, r: Scanned): Snapshot {
    if r.Unterminated? then s.(token := s.lookahead, fault := Diverges)
    else
      s.(token := s.lookahead, pos := PosAfter(r, n), tokenType := KindAfter(r, s.tokenType),
         lookahead := LexemeAfter(r, s.lookahead), line := s.line + LinesOf(r))
  }

  /** `accept` when the current token is of the kind asked for: it is logged, and the next one scanned. */
  function Take(input: seq<char>, s: Snapshot): (s1: Snapshot)
    requires Current(input, s)
    ensures Current(input, s1) && Rank(input, s1) <= Rank(input, s)
    ensures s1.fault == NoFault && s.tokenType != EndOfFile ==> Rank(input, s1) < Rank(input, s)
  {
    Advance(input, s).(consumed := s.consumed + [Tok(s.tokenType, s.lookahead)])
  }

  /** `accept(k)`: the current token is taken when it is of kind `k`, and nothing happens otherwise. */
  function Accepted(input: seq<char>, k: TokenKind, s: Snapshot): (s1: Snapshot)
    requires Current(input, s)
    ensures Current(input, s1) && Rank(input, s1) <= Rank(input, s)
  {
    if s.tokenType == k then Take(input, s) else s
  }

  /** `expect(k)`: like `accept(k)`, but a current token of another kind is a fatal error. */
  function Expected(input: seq<char>, k: TokenKind, s: Snapshot): (s1: Snapshot)
    requires Current(input, s)
    ensures Current(input, s1) && Rank(input, s1) <= Rank(input, s)
  {
    if s.tokenType == k then Take(input, s) else s.(fault := UnexpectedToken(s.line, k, s.tokenType))
  }

  /**
   * `parseString`: the rest of the line from the read position, up to and not
   * including its newline, becomes `token`, and the current kind STRING; the current
   * lexeme is left as it was. With no newline left the read never ends.
   */
  function StringRead(input: seq<char>, s: Snapshot): (s1: Snapshot)
    requires Current(input, s)
    ensures Current(input, s1) && Rank(input, s1) <= Rank(input, s)
  {
    var e := RunEnd(input, s.pos, LineBody);
    if e == |input| then s.(fault := Diverges)
    else s.(token := input[s.pos..e], tokenType := StringToken, pos := e)
  }

  /**
   * `nextToken` keeps the parser state: it is left at a fault only when a comment
   * meets no newline, and a scan from anything but END_OF_LINE stays on its line.
   */
  lemma AdvanceLaw(input: seq<char>, s: Snapshot)
    requires Coherent(input, s) && s.fault == NoFault
    ensures var s1 := Advance(input, s);
      && Coherent(input, s1)
      && (s1.fault == NoFault || s1.fault == Diverges)
      && (s1.fault == Diverges <==> Scan(input, s.pos).Unterminated?)
      && (s.tokenType != EndOfLine ==> Stays(input, s, s1))
  {
    ScanAfter(input, s.pos, s.tokenType, s.lookahead);
    ScanLineEnd(input, s.pos);
    ScanProgress(input, s.pos);
  }

  /** The same for `accept` and `expect`, which also keep the state when the kind asked for is not current. */
  lemma ExpectedLaw(input: seq<char>, k: TokenKind, s: Snapshot)
    requires Coherent(input, s) && s.fault == NoFault
    ensures var a, x := Accepted(input, k, s), Expected(input, k, s);
      && Coherent(input, a) && Coherent(input, x)
      && (a.fault == NoFault || a.fault == Diverges)
      && (s.tokenType == k ==> (a.fault == Diverges <==> Scan(input, s.pos).Unterminated?))
      && (k != EndOfLine ==> Stays(input, s, a) && Stays(input, s, x))
  {
    AdvanceLaw(input, s);
  }

  /**
   * `parseString` keeps the parser state: the read never ends exactly when no newline
   * follows, and otherwise stops at the newline, on the same line.
   */
  lemma StringReadLaw(input: seq<char>, s: Snapshot)
    requires Coherent(input, s) && s.fault == NoFault
    ensures var s1 := StringRead(input, s);
      && Coherent(input, s1)
      && (s1.fault == NoFault || s1.fault == Diverges)
      && (s1.fault == Diverges <==> LineUnended(input, s.pos))
      && (s1.fault == NoFault ==> s1.pos == LineEnd(input, s.pos) < |input| && IsNewline(input[s1.pos]))
  {
  }
}
