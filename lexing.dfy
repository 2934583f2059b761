/**
 * The character classes, keywords and the one-token scanner of the OBJ parser
 * (`ObjParser::nextToken` in obj_parser.hpp), stated as pure functions over the
 * input characters. The class in obj_parser.dfy runs the same scan with loops
 * and is proved to agree with `Scan`.
 */
module Lexing {

  /** The token kinds of the parser, in the order of its `TokenType` enum. */
  datatype TokenKind =
    | Comment | Vertex | Normal | TexCo | Face | UseMtl | MtlLib | Object | Group | Shade
    | IndexSeparator | Number | EndOfFile | Unknown | StringToken | EndOfLine | On | Off

  predicate IsNewline(c: char) { c == '\n' || c == '\r' }

  /** `isspace` in the C locale, without the two newline characters. */
  predicate IsBlank(c: char) { c == ' ' || c == '\t' || c as int == 0x0B || c as int == 0x0C }

  predicate IsAlpha(c: char) { 'a' <= c <= 'z' || 'A' <= c <= 'Z' }

  predicate IsDigit(c: char) { '0' <= c <= '9' }

  /** The runs of characters the scanner consumes greedily. */
  datatype CharClass =
    | Blank        // whitespace skipped before a token
    | Alnum        // the rest of a word
    | NumberBody   // the rest of a number: digits, '.', 'e', 'E'
    | LineBody     // the rest of a comment or a free-text operand

  predicate InClass(c: char, k: CharClass) {
    match k
    case Blank => IsBlank(c)
    case Alnum => IsAlpha(c) || IsDigit(c)
    case NumberBody => IsDigit(c) || c == '.' || c == 'e' || c == 'E'
    case LineBody => !IsNewline(c)
  }

  /** The end of the longest run of class `k` starting at `i`. */
  function RunEnd(s: seq<char>, i: nat, k: CharClass): (e: nat)
    requires i <= |s|
    ensures i <= e <= |s|
    ensures forall j :: i <= j < e ==> InClass(s[j], k)
    ensures e == |s| || !InClass(s[e], k)
    decreases |s| - i
  {
    if i == |s| || !InClass(s[i], k) then i else RunEnd(s, i + 1, k)
  }

  /**
   * `RunEnd` is the only end with the run property: if every character from `i` up to
   * `e` is in class `k` and `e` is the end of `s` or a character outside `k`, then
   * `RunEnd(s, i, k)` is `e`.
   */
  lemma {:induction false} RunEndUnique(s: seq<char>, i: nat, k: CharClass, e: nat)
    requires i <= e <= |s|
    requires forall j :: i <= j < e ==> InClass(s[j], k)
    requires e == |s| || !InClass(s[e], k)
    ensures RunEnd(s, i, k) == e
    decreases e - i
  {
    if i < e {
      RunEndUnique(s, i + 1, k, e);
    }
  }

  /** The kinds that start a line the parser handles: a comment or a directive keyword. */
  predicate IsDirective(k: TokenKind) {
    k in {Comment, Vertex, Normal, TexCo, Face, UseMtl, MtlLib, Object, Shade}
  }

  predicate IsKeyword(k: TokenKind) {
    k in {Vertex, Normal, TexCo, Face, UseMtl, MtlLib, Object, Group, Shade, On, Off}
  }

  /** The spelling of each keyword (the `*_STR` constants of the parser). */
  function Spelling(k: TokenKind): string
    requires IsKeyword(k)
  {
    match k
    case Vertex => "v"
    case Normal => "vn"
    case TexCo => "vt"
    case Face => "f"
    case UseMtl => "usemtl"
    case MtlLib => "mtllib"
    case Object => "o"
    case Group => "g"
    case Shade => "s"
    case On => "on"
    case Off => "off"
  }

  /** The comparison chain that gives a word its kind. */
  function Classify(word: string): (r: TokenKind)
    ensures r == Unknown || (IsKeyword(r) && Spelling(r) == word)
    ensures r == Unknown <==> forall k :: IsKeyword(k) ==> Spelling(k) != word
  {
    if word == "v" then Vertex
    else if word == "vn" then Normal
    else if word == "vt" then TexCo
    else if word == "f" then Face
    else if word == "usemtl" then UseMtl
    else if word == "mtllib" then MtlLib
    else if word == "o" then Object
    else if word == "g" then Group
    else if word == "s" then Shade
    else if word == "on" then On
    else if word == "off" then Off
    else Unknown
  }

  /** Every keyword is recognised from its spelling, and a word that is not UNKNOWN is the spelling of its kind. */
  lemma ClassifySpelling(word: string, k: TokenKind)
    ensures IsKeyword(k) ==> Classify(Spelling(k)) == k
    ensures Classify(word) != Unknown ==> IsKeyword(Classify(word)) && Spelling(Classify(word)) == word
  {
  }

  /** What one call of the scanner finds from a stream position. */
  datatype Scanned =
    | Token(kind: TokenKind, text: string, end: nat, lines: nat)  // a token that carries a lexeme
    | Newline(end: nat)                                          // END_OF_LINE; the lexeme is kept
    | EndOfInput                                                 // END_OF_FILE; the lexeme is kept
    | Stray(end: nat)                                            // a character no branch handles
    | Unterminated                                               // a comment that meets no newline

  /** The position of the first character of the next token. */
  function TokenStart(s: seq<char>, p: nat): nat
    requires p <= |s|
  {
    RunEnd(s, p, Blank)
  }

  /**
   * One step of the scanner from position `p`, as `nextToken` takes it: END_OF_FILE at
   * the end of the input, and otherwise the branch for the character at `p`.
   */
  function Scan(s: seq<char>, p: nat): (r: Scanned)
    requires p <= |s|
    ensures r.Token? || r.Newline? || r.Stray? ==> p < r.end <= |s|
    decreases |s| - p, 1
  {
    if p == |s| then EndOfInput else ScanAt(s, p)
  }

  /**
   * What the character at `q` starts: a blank other than a newline is skipped and the
   * scan goes on after it; any other character takes its own branch.
   */
  function ScanAt(s: seq<char>, q: nat): (r: Scanned)
    requires q < |s|
    ensures r.Token? || r.Newline? || r.Stray? ==> q < r.end <= |s|
    ensures !IsBlank(s[q]) ==> !r.EndOfInput?
    ensures !IsBlank(s[q]) ==> (r.Newline? <==> IsNewline(s[q]))
    ensures !IsBlank(s[q]) ==> (r.Unterminated? <==> s[q] == '#' && RunEnd(s, q + 1, LineBody) == |s|)
    decreases |s| - q, 0
  {
    var c := s[q];
    if IsBlank(c) then Scan(s, q + 1)
    else if IsNewline(c) then
      if q + 1 < |s| && IsNewline(s[q + 1]) && s[q + 1] != c then Newline(q + 2) else Newline(q + 1)
    else if IsAlpha(c) then
      var e := RunEnd(s, q + 1, Alnum);
      Token(Classify(s[q..e]), s[q..e], e, 0)
    else if IsDigit(c) || c == '-' then
      var e := RunEnd(s, q + 1, NumberBody);
      Token(Number, s[q..e], e, 0)
    else if c == '#' then
      var e := RunEnd(s, q + 1, LineBody);
      if e == |s| then Unterminated else Token(Comment, s[q..e], e, 1)
    else if c == '/' then
      Token(IndexSeparator, "/", q + 1, 0)
    else
      Stray(q + 1)
  }

  /**
   * The scan from `p` is the branch taken at the first character that is not a blank,
   * or END_OF_FILE when there is none.
   */
  lemma {:induction false} ScanSkips(s: seq<char>, p: nat)
    requires p <= |s|
    ensures Scan(s, p) == (if TokenStart(s, p) == |s| then EndOfInput else ScanAt(s, TokenStart(s, p)))
    ensures Scan(s, p).EndOfInput? <==> TokenStart(s, p) == |s|
    ensures var r := Scan(s, p); r.Token? || r.Newline? || r.Stray? ==> TokenStart(s, p) < r.end <= |s|
    decreases |s| - p
  {
    if p < |s| && IsBlank(s[p]) {
      ScanSkips(s, p + 1);
    }
  }

  /** Every scan other than at the end of input consumes at least one character. */
  lemma ScanProgress(s: seq<char>, p: nat)
    requires p <= |s|
    ensures Scan(s, p).Token? ==> p < Scan(s, p).end <= |s|
    ensures Scan(s, p).Newline? ==> p < Scan(s, p).end <= |s|
    ensures Scan(s, p).Stray? ==> p < Scan(s, p).end <= |s|
  {
    ScanSkips(s, p);
  }

  /** The scanner first skips blanks other than newlines. */
  lemma ScanSkipsBlanks(s: seq<char>, p: nat)
    requires p <= |s|
    ensures p <= TokenStart(s, p) <= |s|
    ensures forall j :: p <= j < TokenStart(s, p) ==> IsBlank(s[j])
    ensures TokenStart(s, p) < |s| ==> !IsBlank(s[TokenStart(s, p)])
  {
  }

  /** END_OF_FILE is found exactly when nothing but blanks is left, and again on every later call. */
  lemma ScanEndOfInput(s: seq<char>, p: nat)
    requires p <= |s|
    ensures Scan(s, p) == EndOfInput <==> forall j :: p <= j < |s| ==> IsBlank(s[j])
    ensures Scan(s, |s|) == EndOfInput
  {
    ScanSkips(s, p);
    if forall j :: p <= j < |s| ==> IsBlank(s[j]) {
      RunEndUnique(s, p, Blank, |s|);
    }
  }

  /**
   * A newline yields one END_OF_LINE that also swallows an immediately following
   * newline character of the other kind (CR LF or LF CR), and only that one.
   */
  lemma ScanNewline(s: seq<char>, p: nat)
    requires p <= |s|
    requires TokenStart(s, p) < |s| && IsNewline(s[TokenStart(s, p)])
    ensures Scan(s, p) == ScanAt(s, TokenStart(s, p))
    ensures var q := TokenStart(s, p);
      Scan(s, p).Newline? &&
      (Scan(s, p).end == q + 2 <==> q + 1 < |s| && IsNewline(s[q + 1]) && s[q + 1] != s[q]) &&
      (Scan(s, p).end == q + 1 || Scan(s, p).end == q + 2)
  {
    ScanSkips(s, p);
  }

  /**
   * A letter starts a word that runs to the last alphanumeric character; the word is
   * classified as a keyword when it spells one and as UNKNOWN otherwise.
   */
  lemma ScanWord(s: seq<char>, p: nat)
    requires p <= |s|
    requires TokenStart(s, p) < |s| && IsAlpha(s[TokenStart(s, p)])
    ensures Scan(s, p) == ScanAt(s, TokenStart(s, p))
    ensures var q, r := TokenStart(s, p), Scan(s, p);
      && r.Token? && r.lines == 0
      && r.text == s[q..r.end] && |r.text| >= 1
      && (forall j :: 0 <= j < |r.text| ==> IsAlpha(r.text[j]) || IsDigit(r.text[j]))
      && (r.end == |s| || !(IsAlpha(s[r.end]) || IsDigit(s[r.end])))
      && r.kind == Classify(r.text)
      && (IsKeyword(r.kind) || r.kind == Unknown)
      && (r.kind == Unknown <==> forall k :: IsKeyword(k) ==> Spelling(k) != r.text)
  {
    ScanSkips(s, p);
  }

  /**
   * A digit or '-' starts a NUMBER that runs over digits, '.', 'e' and 'E'; so '-'
   * can only be its first character. Nothing checks that the text is a valid number.
   */
  lemma ScanNumber(s: seq<char>, p: nat)
    requires p <= |s|
    requires TokenStart(s, p) < |s|
    requires IsDigit(s[TokenStart(s, p)]) || s[TokenStart(s, p)] == '-'
    ensures Scan(s, p) == ScanAt(s, TokenStart(s, p))
    ensures var q, r := TokenStart(s, p), Scan(s, p);
      && r == Token(Number, r.text, r.end, 0)
      && r.text == s[q..r.end] && |r.text| >= 1 && r.text[0] == s[q]
      && (forall j :: 1 <= j < |r.text| ==> InClass(r.text[j], NumberBody) && r.text[j] != '-')
      && (r.end == |s| || !InClass(s[r.end], NumberBody))
  {
    ScanSkips(s, p);
  }

  /** '/' is a one-character INDEX_SEPARATOR. */
  lemma ScanSeparator(s: seq<char>, p: nat)
    requires p <= |s|
    requires TokenStart(s, p) < |s| && s[TokenStart(s, p)] == '/'
    ensures Scan(s, p) == ScanAt(s, TokenStart(s, p))
    ensures Scan(s, p) == Token(IndexSeparator, "/", TokenStart(s, p) + 1, 0)
  {
    ScanSkips(s, p);
  }

  /**
   * '#' starts a COMMENT that runs up to, not including, the next newline and counts one
   * line; with no newline left the source reads forever and the scan is unterminated.
   */
  lemma ScanComment(s: seq<char>, p: nat)
    requires p <= |s|
    requires TokenStart(s, p) < |s| && s[TokenStart(s, p)] == '#'
    ensures Scan(s, p) == ScanAt(s, TokenStart(s, p))
    ensures var q, r := TokenStart(s, p), Scan(s, p);
      && (r.Unterminated? <==> forall j :: q <= j < |s| ==> !IsNewline(s[j]))
      && (!r.Unterminated? ==>
            && r == Token(Comment, s[q..r.end], r.end, 1)
            && r.end < |s| && IsNewline(s[r.end])
            && r.text[0] == '#'
            && forall j :: 0 <= j < |r.text| ==> !IsNewline(r.text[j]))
  {
    ScanSkips(s, p);
    var q := TokenStart(s, p);
    if forall j :: q <= j < |s| ==> !IsNewline(s[j]) {
      RunEndUnique(s, q + 1, LineBody, |s|);
    }
  }

  /** Any other character is consumed without producing a token of its own. */
  lemma ScanStray(s: seq<char>, p: nat)
    requires p <= |s|
    requires TokenStart(s, p) < |s|
    requires var c := s[TokenStart(s, p)];
      !IsNewline(c) && !IsAlpha(c) && !IsDigit(c) && c != '-' && c != '#' && c != '/'
    ensures Scan(s, p) == ScanAt(s, TokenStart(s, p))
    ensures Scan(s, p) == Stray(TokenStart(s, p) + 1)
  {
    ScanSkips(s, p);
  }

  /**
   * A scanned token is never END_OF_FILE or END_OF_LINE, an INDEX_SEPARATOR is always
   * "/", and a stray character or a token is only found where input is left.
   */
  lemma ScanKinds(s: seq<char>, p: nat)
    requires p <= |s|
    ensures var r := Scan(s, p);
      && (r.Token? ==> r.kind != EndOfFile && r.kind != EndOfLine)
      && (r.Token? && r.kind == IndexSeparator ==> r.text == "/")
      && (!r.EndOfInput? ==> p < |s|)
  {
    ScanSkips(s, p);
  }

  /** The current token kind after a scan that found `r`; a stray character keeps `prev`. */
  function KindAfter(r: Scanned, prev: TokenKind): TokenKind {
    match r
    case Token(k, _, _, _) => k
    case Newline(_) => EndOfLine
    case EndOfInput => EndOfFile
    case _ => prev
  }

  /** The lexeme of the current token after a scan that found `r`. */
  function LexemeAfter(r: Scanned, prev: string): string {
    if r.Token? then r.text else prev
  }

  /** The read position after a scan that found `r` in an input of length `n`. */
  function PosAfter(r: Scanned, n: nat): nat
    requires !r.Unterminated?
  {
    if r.EndOfInput? then n else r.end
  }

  /** The lines a scan that found `r` counts. */
  function LinesOf(r: Scanned): nat {
    match r
    case Token(_, _, _, lines) => lines
    case Newline(_) => 1
    case _ => 0
  }

  /**
   * A scan never moves back, and the measure 2 * (characters left) + (1 unless at
   * END_OF_FILE) never grows, and shrinks unless END_OF_FILE was already current.
   */
  lemma ScanRank(s: seq<char>, p: nat, prev: TokenKind)
    requires p <= |s| && (prev == EndOfFile ==> p == |s|)
    ensures var r := Scan(s, p);
      !r.Unterminated? ==>
        var q, k := PosAfter(r, |s|), KindAfter(r, prev);
        && p <= q <= |s|
        && (k == EndOfFile ==> q == |s|)
        && 2 * (|s| - q) + (if k == EndOfFile then 0 else 1) <= 2 * (|s| - p) + (if prev == EndOfFile then 0 else 1)
        && (prev != EndOfFile ==>
              2 * (|s| - q) + (if k == EndOfFile then 0 else 1) < 2 * (|s| - p) + 1)
  {
    ScanProgress(s, p);
    ScanKinds(s, p);
    ScanEndOfInput(s, p);
  }

  /**
   * The tokeniser's state stays consistent across a scan: the read position stays in
   * the input and is at its end once END_OF_FILE is current, a current separator has
   * the lexeme "/", a current keyword its spelling, a current comment is followed by
   * its newline, and the measure 2 * (characters left) + (1 unless at END_OF_FILE)
   * never grows, and shrinks unless END_OF_FILE was already current.
   */
  lemma ScanAfter(s: seq<char>, p: nat, prev: TokenKind, prevText: string)
    requires p <= |s|
    requires prev == EndOfFile ==> p == |s|
    requires prev == IndexSeparator ==> prevText == "/"
    requires IsKeyword(prev) ==> prevText == Spelling(prev)
    requires prev == Comment ==> p < |s| && IsNewline(s[p])
    ensures var r := Scan(s, p);
      !r.Unterminated? ==>
        var q, k := PosAfter(r, |s|), KindAfter(r, prev);
        && q <= |s|
        && (k == EndOfFile ==> q == |s|)
        && (k == IndexSeparator ==> LexemeAfter(r, prevText) == "/")
        && (IsKeyword(k) ==> LexemeAfter(r, prevText) == Spelling(k))
        && (k == Comment ==> q < |s| && IsNewline(s[q]))
        && 2 * (|s| - q) + (if k == EndOfFile then 0 else 1) <= 2 * (|s| - p) + (if prev == EndOfFile then 0 else 1)
        && (prev != EndOfFile ==>
              2 * (|s| - q) + (if k == EndOfFile then 0 else 1) < 2 * (|s| - p) + 1)
  {
    ScanSkips(s, p);
    ScanProgress(s, p);
    ScanKinds(s, p);
    if prev == Comment {
      ScanAtNewline(s, p);
    }
    var q := TokenStart(s, p);
    if q < |s| && s[q] == '#' {
      ScanComment(s, p);
    }
  }

  /** Scanning from a newline character yields END_OF_LINE. */
  lemma ScanAtNewline(s: seq<char>, p: nat)
    requires p < |s| && IsNewline(s[p])
    ensures Scan(s, p).Newline?
  {
    ScanSkips(s, p);
    assert TokenStart(s, p) == p;
  }

  /** The position of the first newline at or after `p`, or the end of the input: where the line of `p` ends. */
  function LineEnd(s: seq<char>, p: nat): (e: nat)
    requires p <= |s|
    ensures p <= e <= |s|
    ensures forall j :: p <= j < e ==> !IsNewline(s[j])
    ensures e < |s| ==> IsNewline(s[e])
  {
    RunEnd(s, p, LineBody)
  }

  /** A position that has not passed the end of its line has the same line end. */
  lemma LineEndStep(s: seq<char>, a: nat, b: nat)
    requires a <= |s| && a <= b <= LineEnd(s, a)
    ensures LineEnd(s, b) == LineEnd(s, a)
  {
    RunEndUnique(s, b, LineBody, LineEnd(s, a));
  }

  /**
   * One scan stays on the line it starts on: a token or a stray character ends at or
   * before the line's end, END_OF_LINE is found at the line's end, and END_OF_FILE or a
   * comment that reads forever is only found on a line that no newline ends.
   */
  lemma ScanLineEnd(s: seq<char>, p: nat)
    requires p <= |s|
    ensures var r := Scan(s, p);
      && (r.Token? || r.Stray? ==> r.end <= LineEnd(s, p))
      && (r.Newline? ==> LineEnd(s, p) == TokenStart(s, p))
      && (r.EndOfInput? || r.Unterminated? ==> LineEnd(s, p) == |s|)
  {
    ScanSkips(s, p);
    var q, r, e := TokenStart(s, p), Scan(s, p), LineEnd(s, p);
    assert q <= e;
    if q < |s| && s[q] == '#' {
      var c := RunEnd(s, q + 1, LineBody);
      assert forall j :: p <= j < c ==> !IsNewline(s[j]);
      if c < |s| {
        RunEndUnique(s, p, LineBody, c);
      } else {
        RunEndUnique(s, p, LineBody, |s|);
      }
    } else if r.Token? || r.Stray? {
      assert forall j :: p <= j < r.end ==> !IsNewline(s[j]);
    } else if r.EndOfInput? {
      RunEndUnique(s, p, LineBody, |s|);
    }
  }

  /**
   * Reading a free-text operand after the token that starts at or after `p` never
   * ends: the scan of that token never ends, or no newline follows it.
   */
  predicate OperandUnterminated(s: seq<char>, p: nat) {
    && p <= |s|
    && var r := Scan(s, p);
       r.Unterminated? || LineUnended(s, PosAfter(r, |s|))
  }

  /** No newline follows position `p`: the line of `p` is the last and does not end. */
  predicate LineUnended(s: seq<char>, p: nat) {
    p <= |s| && LineEnd(s, p) == |s|
  }
}
