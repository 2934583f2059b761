# obj2webgl's OBJ parser in Dafny

This is a model of the `ObjParser` class (obj_parser.hpp) of obj2webgl, with proofs. obj2webgl turns a Wavefront OBJ mesh into WebGL code. The class has three parts:

- **A tokeniser.** `nextToken`, `parseString`, `accept` and `expect` work over a character stream with one token of lookahead.
- **Directive parsers.** The loop in `parse` handles each line with the cascade `accept(COMMENT)`, `parseVertex`, `parseNormal`, `parseTexCo`, `parseFace`, `parseUseMtl`, `parseMtlLib`, `parseObject`, `parseGroup`, `parseShade`. It then takes END_OF_LINE or expects END_OF_FILE. The parsers fill:
  - the attribute tables `vertices`, `normals` and `texCos`;
  - the fan-triangulated corner lists `vIndices`, `tIndices` and `nIndices`;
  - the shading flag `smooth`.
- **The vertex unifier of `writeWebGlCode`.** Every distinct (position, texture coordinate, normal) index key becomes one interleaved vertex, and every triangle corner becomes that vertex's number. The stride and attribute offsets follow from the channels present.

The model is in two layers.

- **Specification functions.** Each one is a pure function of the input text and a `Snapshot` of the parser's fields. It returns the state after the step and what the step read. Each has laws that state its meaning:
  - the tokens taken, collected in a ghost log `consumed`;
  - the grammar they follow;
  - the entries appended to the mesh;
  - which fault stops the step, and why.
- **The class `ObjParser`.** Its methods work by loops and field updates, as the C++ does. Each method's `ensures` says that the new state is what its specification function gives for the old one.

Files:

- `wrappers.dfy` (module `Wrappers`): `Option`.
- `lexing.dfy` (module `Lexing`):
  - token kinds, keyword spellings and character classes;
  - the scanner as a pure function `Scan` over the input and a position;
  - lemmas on each branch of the scanner, and on the line a scan stays on.
- `numbers.dfy` (module `Numbers`):
  - attribute values and the fixed-size vectors of matrix.hpp;
  - `stoi` on index lexemes.
- `triangulation.dfy` (module `Triangulation`): the fan of a face and its layout.
- `unification.dfy` (module `Unification`):
  - the reference definition of the unifier: corner keys, their `table_index` text, distinct keys in order of first occurrence, and the index buffer;
  - the interleaved vertex buffer and the attribute offsets, and the properties of all of these.
- `syntax.dfy` (module `ObjSyntax`):
  - what a line reads, as a `Directive`, and the tokens it is made of;
  - the grammar a line read without error follows (`ReadAs`);
  - the `Mesh` a parse builds, and what each directive does to it (`Apply`).
- `parser_state.dfy` (module `ParserState`):
  - the `Snapshot` of the parser's fields and its faults;
  - the invariant `Coherent` that every method keeps;
  - `nextToken`, `accept`, `expect` and `parseString` as functions, with their laws.
- `directive_steps.dfy` (module `DirectiveSteps`): the directive parsers as functions, with their laws.
- `line_steps.dfy` (module `LineSteps`): the cascade of one line, with its law.
- `file_steps.dfy` (module `FileSteps`):
  - the end of a line, one pass of the loop in `parse`, and the whole parse, as functions;
  - the laws saying what a parse read, what it built, and why it stopped.
- `obj_parser.dfy` (module `ObjParsing`): the class `ObjParser`.
  - The stream becomes the input string `input` and a read position `pos`.
  - Every method is proved against the functions above.

How the model treats the source's failures and quirks:

- **Fatal conditions.** Each of these is recorded in the field `fault` with its reason, and every method returns as soon as `fault` is set:
  - a failing `assert`: an `expect` on the wrong token, or a face with mixed channels;
  - an empty face, which makes `vIndices.size() - 1` wrap around;
  - a read that never ends. That happens when a comment, or the operand of `usemtl`/`mtllib`/`o`, is never followed by a newline. The model proves that this fault arises exactly then.
- **Behaviour kept as written:**
  - `parseVertex`, `parseNormal` and `parseTexCo` always report no match, so the rest of the directive cascade is tried after them.
  - `parseGroup` tests for OBJECT, so a `g` line is left to the end-of-line test, where it is fatal.
  - The name a `usemtl`/`mtllib`/`o` line keeps is the lexeme of the token after the keyword. When the keyword ends its line, that is the keyword itself, and the next line is read as the operand.
  - A comment counts a line and so does the newline after it.
  - A character that no branch of `nextToken` handles is consumed, while the current kind and lexeme stay as they were.
  - A token left over after a directive (`v 1 2 3 4 5`, `f 1 2 3 x`) is fatal at the `expect(END_OF_FILE)` that ends the loop.
- **Dispatch.** The method for the end of the cascade picks the parser for the current kind, instead of calling each parser in turn. This is equivalent, because a parser whose keyword is not current changes nothing and reports no match (`ParseNamed`, `ParseShade`). `parseGroup` is still called after `parseObject`.

## Model

| member | source | states |
|---|---|---|
| Lexing.RunEnd | obj_parser.hpp:104-106 | the end of the longest run of a character class: every character before it is in the class, the one at it is not |
| Lexing.RunEndUnique | obj_parser.hpp:125-131 | any end whose characters before it are all in the class, and whose character at it is not, is the run's end |
| Lexing.Classify | obj_parser.hpp:132-156 | a word is given the keyword kind it spells, or UNKNOWN exactly when it spells no keyword |
| Lexing.ClassifySpelling | obj_parser.hpp:132-156 | every keyword is recognised from its `*_STR` spelling; a word classified as anything but UNKNOWN spells its kind |
| Lexing.Scan | obj_parser.hpp:97-192 | one call of `nextToken` from a position: a token, a stray character or a newline ends after the position and within the input |
| Lexing.ScanAt | obj_parser.hpp:108-191 | the branch on the first non-blank character: a newline character gives END_OF_LINE; a `#` that meets no newline never ends; nothing but a blank run reaches END_OF_FILE |
| Lexing.ScanSkipsBlanks | obj_parser.hpp:104-106 | the scan starts after a run of whitespace other than `\n` and `\r` |
| Lexing.ScanSkips | obj_parser.hpp:104-108 | a scan is the branch taken at the first non-blank character, or END_OF_FILE when only blanks are left |
| Lexing.ScanEndOfInput | obj_parser.hpp:108-111 | END_OF_FILE exactly when only blanks are left, in particular at the end of the input |
| Lexing.ScanNewline | obj_parser.hpp:112-120 | a newline is one END_OF_LINE and also takes exactly one immediately following newline character of the other kind |
| Lexing.ScanWord | obj_parser.hpp:122-157 | a letter starts a maximal alphanumeric word, whose kind is `Classify` of its text |
| Lexing.ScanNumber | obj_parser.hpp:158-171 | a digit or `-` starts a NUMBER over digits, `.`, `e`, `E`; `-` only as its first character |
| Lexing.ScanComment | obj_parser.hpp:173-185 | `#` starts a COMMENT up to, not including, the next newline and counts one line; with no newline left the read never ends |
| Lexing.ScanSeparator | obj_parser.hpp:186-191 | `/` is a one-character INDEX_SEPARATOR |
| Lexing.ScanStray | obj_parser.hpp:108-191 | a character no branch handles is consumed and makes no token |
| Lexing.ScanProgress | obj_parser.hpp:104-191 | every scan except at end of input consumes at least one character and stays in the input |
| Lexing.ScanKinds | obj_parser.hpp:108-191 | a scanned token is never END_OF_FILE or END_OF_LINE, and a separator's lexeme is "/" |
| Lexing.ScanRank | obj_parser.hpp:97-192 | a scan never moves back, and the measure 2*(characters left) + (1 unless at END_OF_FILE) shrinks unless END_OF_FILE was current |
| Lexing.ScanAfter | obj_parser.hpp:97-192 | after a scan the position is in the input and at its end once END_OF_FILE is current; a current keyword has its spelling, a separator "/", and a comment is followed by its newline |
| Lexing.ScanAtNewline | obj_parser.hpp:199-205 | the newline `parseString` stops at (and ungets) scans as END_OF_LINE |
| Lexing.LineEnd | obj_parser.hpp:201-204 | where the line of a position ends: the first newline character at or after it, or the end of the input |
| Lexing.LineEndStep | obj_parser.hpp:201-204 | a position not past its line's end has the same line end |
| Lexing.ScanLineEnd | obj_parser.hpp:104-191 | one scan stays on its line: a token or a stray character ends by the line's end, END_OF_LINE is found at it, and END_OF_FILE or an endless comment only on a line no newline ends |
| Numbers.Components | obj_parser.hpp:240-256 | a default (zero) vector whose first components are the values read, in order, and whose other components stay zero |
| Numbers.ComponentsSnoc | obj_parser.hpp:245-247 | reading one more value overwrites the next component |
| Numbers.DigitCount | obj_parser.hpp:321 | the leading digits `stoi` reads: all digits, followed by a non-digit or the end |
| Unification.StoIIntText | obj_parser.hpp:321 | `StoI`, the model of `stoi`, reads back the decimal text of every int, a leading minus included |
| Triangulation.FanLength | obj_parser.hpp:349-364 | `Fan` of a face of k >= 3 corners has 3(k-2) corners, and of 1 or 2 corners none |
| Triangulation.FanTriples | obj_parser.hpp:349-364 | a fan is a whole number of triangles |
| Triangulation.FanAt | obj_parser.hpp:349-364 | each fan corner copies a face corner chosen only by its position in the fan, so parallel channels stay aligned |
| Triangulation.FanTriangle | obj_parser.hpp:349-364 | triangle i of the fan is (c0, ci, ci+1), for i = 1 .. k-2 |
| Triangulation.FanSnoc | obj_parser.hpp:349-364 | one more corner appends the triangle (c0, c(k-1), c(k)) and keeps the earlier ones |
| Triangulation.FanStep | obj_parser.hpp:349-364 | one pass of the loop adds triangle i to the fan of the first i+1 corners |
| Unification.IntTextInjective | obj_parser.hpp:531-536 | `IntText`, the model of `to_string`, determines the int |
| Unification.KeyTextInjective | obj_parser.hpp:530-537 | two corner keys have the same `table_index` text (`KeyText`) exactly when they are equal |
| Unification.Keys | obj_parser.hpp:528-537 | one key per corner, with its position index and its t and n index, or none when that list is empty |
| Unification.KeysInRange | obj_parser.hpp:544-557 | with all indices in range, every key names entries of the tables |
| Unification.Distinct | obj_parser.hpp:539-560 | the distinct keys in order of first occurrence: the same keys, none twice |
| Unification.IndexOf | obj_parser.hpp:558-561 | the number of a key is its position among the distinct keys |
| Unification.IndexOfUnique | obj_parser.hpp:558-561 | a position holding the key, among distinct keys, is its number |
| Unification.IndexBuffer | obj_parser.hpp:561 | one number per corner |
| Unification.DistinctPrefix | obj_parser.hpp:528-562 | the distinct keys of a prefix are a prefix of the distinct keys, so numbers once given never change |
| Unification.IndexBufferSnoc | obj_parser.hpp:528-562 | a further corner appends its number and keeps the earlier numbers |
| Unification.DistinctBound | obj_parser.hpp:528-562 | there are never more vertices than corners |
| Unification.IndexBufferMeaning | obj_parser.hpp:528-562 | every number is below the vertex count, and two corners get the same number exactly when their keys are equal |
| Unification.FirstOccurrence | obj_parser.hpp:539-559 | a corner with a new key gets the count of vertices before it; any other corner gets an earlier number |
| Unification.VertexData | obj_parser.hpp:544-557 | the floats of one vertex: position x, y, z (w dropped), then u, v, then the normal, Width of them |
| Unification.OffsetsMatchVertexData | obj_parser.hpp:564-569 | the position sits at float 0, the texcoord at float 3 and the normal at float 3 + 2*hasT of each vertex |
| Unification.InterleaveLength | obj_parser.hpp:544-557 | `Interleave`, the buffer `data`, holds Width floats per vertex |
| Unification.InterleaveLayout | obj_parser.hpp:544-557 | vertex r occupies floats r*Width .. (r+1)*Width, in VertexData order |
| Unification.KeyTableLookup | obj_parser.hpp:539-561 | `KeyTable`, the `index_table`, holds the text of exactly the numbered keys, each mapped to its number |
| Unification.DistinctSnoc | obj_parser.hpp:539-559 | a new key is appended to the distinct keys, a seen one changes nothing |
| Unification.InterleaveSnoc | obj_parser.hpp:544-557 | a new vertex appends its floats to the buffer |
| Unification.UnifyStep | obj_parser.hpp:528-562 | one pass of the unifier's loop keeps the table, the numbers, the vertex count and the buffer equal to the reference definition |
| Unification.UnifySeen | obj_parser.hpp:539-561 | a pass on a key already in the table pushes no data and reuses its number |
| Unification.UnifyNew | obj_parser.hpp:542-561 | a pass on a new key pushes its floats and gives it the next number |
| Unification.AttributeLayout | obj_parser.hpp:564-569 | what the attribute pointers read at stride and offset is the vertex's position, texture coordinate and normal |
| Unification.KeysUniform | obj_parser.hpp:564-569 | every vertex has the mesh's channel layout (a texcoord iff `tIndices` is non-empty, likewise the normal) |
| Unification.UnifiedCorner | obj_parser.hpp:528-562 | reading the buffer through a corner's number gives exactly that corner's own floats |
| ObjSyntax.NumberToks | obj_parser.hpp:243-255 | the NUMBER tokens a vector's values were read from, one per value |
| ObjSyntax.NumberToksSnoc | obj_parser.hpp:251-255 | one more value read appends its NUMBER token |
| ObjSyntax.RenderAllSnoc | obj_parser.hpp:319-341 | the tokens of one more corner follow those of the earlier ones |
| ObjSyntax.IndicesSnoc | obj_parser.hpp:319-341 | a further corner appends `StoI` of its index, minus one, to `PositionIndices` and to each of `TexIndices` and `NormalIndices` it gives |
| ObjSyntax.CornerStep | obj_parser.hpp:319-341 | one more corner appends its tokens and its indices to those read before |
| ObjSyntax.PositionCount | obj_parser.hpp:319-322 | a face gives one position index per corner |
| ObjSyntax.TexCount | obj_parser.hpp:324-331 | the texcoord list is as long as the face iff every corner gave one, and empty iff none did |
| ObjSyntax.NormalCount | obj_parser.hpp:333-340 | the same for the normal list |
| ObjSyntax.UniformByCounts | obj_parser.hpp:343-346 | the two size checks hold exactly when each channel is given by every corner or by none |
| ObjSyntax.FanGrow | obj_parser.hpp:349-364 | one pass of the triangulation loop on a channel, present or absent |
| ObjSyntax.CornersSnoc | obj_parser.hpp:319-341 | a well-formed corner read greedily after corners that ended at a NUMBER extends the corners read so far |
| ObjSyntax.Entry | obj_parser.hpp:240-258 | a vector directive that matched appends one entry of its table's size, one that did not append none |
| ObjSyntax.GrowsEntry | obj_parser.hpp:258-306 | a vector directive only appends to the tables |
| ObjSyntax.GrowsTail | obj_parser.hpp:349-444 | the end of the cascade only appends corners, or sets the shading flag |
| ObjSyntax.GrowsAll | obj_parser.hpp:486-508 | the lines of a parse only append to the mesh |
| ObjSyntax.FileSnoc | obj_parser.hpp:489-506 | one more line appends its tokens and its ending, and applies its directive to the mesh |
| ObjSyntax.LinesSnoc | obj_parser.hpp:501-502 | a line read without error and ended by END_OF_LINE extends the lines read |
| ObjSyntax.FileClose | obj_parser.hpp:501-504 | a line read without error and ended by END_OF_FILE completes the file |
| ParserState.Advance | obj_parser.hpp:97-192 | `nextToken` on a snapshot: the position stays in the input and the progress measure never grows; it shrinks when the scan ends and END_OF_FILE was not current |
| ParserState.AdvanceLaw | obj_parser.hpp:97-192 | `nextToken` keeps the parser invariant; it faults exactly when the scan is a comment that meets no newline, and stays on its line unless END_OF_LINE was current |
| ParserState.Take | obj_parser.hpp:213-216 | the current token is logged and the next one scanned, with progress |
| ParserState.Accepted | obj_parser.hpp:211-220 | `accept(k)`: the token is taken when it is of kind `k`, otherwise nothing changes |
| ParserState.Expected | obj_parser.hpp:222-234 | `expect(k)`: as `accept`, but another kind is an UNEXPECTED_TOKEN fault naming the line, `k` and the kind found |
| ParserState.ExpectedLaw | obj_parser.hpp:211-234 | `accept` and `expect` keep the invariant and stay on the line; `accept` of the current kind faults exactly when the scan never ends |
| ParserState.StringRead | obj_parser.hpp:197-209 | `parseString` on a snapshot: the rest of the line, up to its newline, becomes `token` with kind STRING, and the current lexeme stays |
| ParserState.StringReadLaw | obj_parser.hpp:197-209 | `parseString` faults exactly when no newline follows, and otherwise stops at that newline, on the same line |
| DirectiveSteps.Numbers | obj_parser.hpp:243-249 | the loop of `count` expected NUMBERs reads at most `count` lexemes and never loses progress |
| DirectiveSteps.NumberLaw | obj_parser.hpp:243-244 | one expected NUMBER: a NUMBER is taken, or the fault is UNEXPECTED_TOKEN for NUMBER naming the kind found, logging nothing |
| DirectiveSteps.NumbersKeep | obj_parser.hpp:243-249 | the NUMBER loop keeps the invariant and stays on its line; an UNEXPECTED_TOKEN fault is for a NUMBER |
| DirectiveSteps.NumberLogged | obj_parser.hpp:243-246 | one expected NUMBER logs that NUMBER, or nothing on a wrong token, and leaves the mesh |
| DirectiveSteps.NumbersCount | obj_parser.hpp:243-249 | the loop reads exactly `count` NUMBERs without a fault, fewer only when a non-NUMBER stops it |
| DirectiveSteps.NumbersLog | obj_parser.hpp:243-249 | the lexemes the loop keeps are those of the NUMBER tokens it took |
| DirectiveSteps.Operands | obj_parser.hpp:240-255 | the required NUMBERs, then one more when the entry has room: at most `required + 1` lexemes |
| DirectiveSteps.OperandsKeep | obj_parser.hpp:240-255 | the operand reading keeps the invariant and stays on its line, with progress |
| DirectiveSteps.OperandsRead | obj_parser.hpp:240-255 | the operands are the NUMBERs taken; fewer than required only at a wrong token; the optional one is taken whenever a NUMBER is current for it |
| DirectiveSteps.Stored | obj_parser.hpp:240-258 | the operands are read and, unless that faulted, their entry appended to the table of the keyword |
| DirectiveSteps.VectorParsed | obj_parser.hpp:236-309 | `parseVertex`, `parseNormal` and `parseTexCo` on a snapshot, with progress |
| DirectiveSteps.VectorKeep | obj_parser.hpp:236-309 | a vector directive reads `Some` operands exactly when its keyword was current, keeps the invariant and stays on its line; a fault is a read that never ends or too few NUMBERs |
| DirectiveSteps.VectorLog | obj_parser.hpp:236-309 | nothing is read unless the keyword was current; too few NUMBERs is the only UNEXPECTED_TOKEN cause; without fault the keyword and its operands were taken and exactly one entry appended (w or v zero when absent); a fault leaves the mesh |
| DirectiveSteps.VectorLaw | obj_parser.hpp:236-309 | both halves, `VectorKept` and `VectorRecorded`, for each vector directive |
| DirectiveSteps.VectorsParsed | obj_parser.hpp:492-494 | the three vector parsers on one line, each run unless the one before it faulted |
| DirectiveSteps.VectorsLaw | obj_parser.hpp:492-494 | `v`, `vn`, `vt` all run in turn since none reports a match; a line starting with none of them is left as it is; without fault each that matched appended its entry in cascade order; an UNEXPECTED_TOKEN means the last that matched lacked NUMBERs |
| DirectiveSteps.Part | obj_parser.hpp:324-331 | an optional `/` and, after it, an optional NUMBER, with progress |
| DirectiveSteps.PartKeep | obj_parser.hpp:324-331 | a part is taken exactly when `/` is current; it keeps the invariant and stays on its line |
| DirectiveSteps.PartLog | obj_parser.hpp:324-331 | greedy: a NUMBER current after the `/` is always taken; nothing is read unless `/` is current; the tokens taken are logged |
| DirectiveSteps.CornerRead | obj_parser.hpp:319-340 | one pass of the corner loop: the position index and the two optional parts, with progress |
| DirectiveSteps.CornerKeep | obj_parser.hpp:319-340 | a corner keeps the invariant and stays on its line |
| DirectiveSteps.CornerLog | obj_parser.hpp:319-340 | a corner is read greedily as `v`, `v/`, `v/t`, `v//`, `v//n`, `v/t/`, `v/t/n` or `v/`/...: its tokens are logged, it is well formed, and the token after it could not extend it |
| DirectiveSteps.CornersFrom | obj_parser.hpp:319-341 | the corner loop while a NUMBER is current, never losing progress |
| DirectiveSteps.CornersKeep | obj_parser.hpp:319-341 | the corner loop keeps the invariant and stays on its line |
| DirectiveSteps.CornersLog | obj_parser.hpp:319-341 | the corners returned are the tokens taken, each read greedily, and the loop stops at the first token that is not a NUMBER |
| DirectiveSteps.FansKeep | obj_parser.hpp:343-370 | the checks and the triangulation keep the invariant: whole triangles and, with no fault, aligned channels |
| DirectiveSteps.FaceAddedLaw | obj_parser.hpp:343-370 | FACE_CHANNEL_MISMATCH exactly when the corners are not uniform, EMPTY_FACE exactly when there are none, both leaving the mesh; otherwise the fan is appended, and MESH_CHANNEL_MISMATCH exactly when the mesh's channels are then misaligned |
| DirectiveSteps.FaceParsed | obj_parser.hpp:311-375 | `parseFace` on a snapshot, with progress |
| DirectiveSteps.FaceKeep | obj_parser.hpp:311-375 | `parseFace` reads corners exactly when `f` was current, keeps the invariant and its line; a fault is one of the face's own or a read that never ends |
| DirectiveSteps.FaceLog | obj_parser.hpp:311-375 | unless the read never ends, `f` and the corners returned are the tokens taken, read greedily, and the face faults exactly as `FaceAddedLaw` says; with no fault or a mesh mismatch the fan was appended; other faults leave the mesh |
| DirectiveSteps.FaceLaw | obj_parser.hpp:311-375 | both halves, `FaceKept` and `FaceRecorded` |
| DirectiveSteps.NamedParsed | obj_parser.hpp:377-426 | `parseUseMtl`, `parseMtlLib`, `parseObject` and `parseGroup` on a snapshot, with progress |
| DirectiveSteps.NamedKeep | obj_parser.hpp:377-426 | matches exactly when its keyword is current; the mesh is unchanged; with no fault the newline after the STRING is current |
| DirectiveSteps.NamedLog | obj_parser.hpp:377-426 | nothing is read unless it matched; the read never ends exactly when the operand is unended; with no fault the keyword and a STRING were taken and the name kept is the lexeme of the token after the keyword, which is the keyword itself when the keyword ends its line (the next line is then read as the operand) |
| DirectiveSteps.GroupUnmatched | obj_parser.hpp:415-426 | `parseGroup` tests OBJECT: where `parseObject` did not match, neither does it, and it changes nothing |
| DirectiveSteps.ShadeParsed | obj_parser.hpp:428-449 | `parseShade` on a snapshot, with progress |
| DirectiveSteps.ShadeKeep | obj_parser.hpp:428-449 | reads an operand exactly when `s` was current, keeps the invariant and its line; a fault is an operand neither NUMBER nor `off`, or a read that never ends |
| DirectiveSteps.ShadeLog | obj_parser.hpp:428-449 | nothing unless `s` was current; UNEXPECTED_TOKEN exactly for an operand neither NUMBER nor `off`, which stays current; with no fault `s` and its operand were taken and the flag set by `Shading` ("1" sets it, another number leaves it, `off` clears it) |
| DirectiveSteps.CommentLaw | obj_parser.hpp:491 | `accept(COMMENT)` takes the comment, its newline becomes current and the mesh is unchanged |
| LineSteps.TailParsed | obj_parser.hpp:495-500 | the parsers after the vector ones, tried in turn, with progress |
| LineSteps.TailKeep | obj_parser.hpp:495-500 | the end of the cascade keeps the invariant and its line; a fault is one of its parsers' own |
| LineSteps.TailLog | obj_parser.hpp:495-500 | the parser whose keyword is current reads the tail, as its own law says; none reads anything when none is current, including on a `g` line; with no fault its tokens were taken and it was applied to the mesh |
| LineSteps.TailMesh | obj_parser.hpp:495-500 | the end of the cascade leaves the mesh or applies what it read |
| LineSteps.DirectiveParsed | obj_parser.hpp:491-500 | the cascade of one line, with progress |
| LineSteps.DirectiveLaw | obj_parser.hpp:491-500 | the cascade keeps the invariant and only grows the mesh; it reads a comment exactly when one is current; with no fault the line follows `ReadAs`, its tokens were taken and the mesh is `Apply` of the directive; a fault names its cause |
| FileSteps.EndingRead | obj_parser.hpp:501-505 | the end-of-line test, with progress when END_OF_LINE is taken |
| FileSteps.EndingLaw | obj_parser.hpp:501-505 | the loop goes on exactly when END_OF_LINE is current; END_OF_FILE ends the input; any other token is UNEXPECTED_TOKEN(line, END_OF_FILE, that kind) |
| FileSteps.LineParsed | obj_parser.hpp:489-506 | one pass of the loop: the cascade, then the end-of-line test; it goes on only with progress |
| FileSteps.LineLaw | obj_parser.hpp:489-506 | with no fault the line follows `ReadAs`, it ends with END_OF_LINE (going on) or END_OF_FILE (stopping), and the mesh is `Apply` of it; a surplus token after a whole directive is fatal; every fault names its cause |
| FileSteps.LinesFrom | obj_parser.hpp:489-506 | the passes of the loop while a pass takes END_OF_LINE |
| FileSteps.Parsed | obj_parser.hpp:486-508 | `parse`: the first token, then the loop |
| FileSteps.LinesLaw | obj_parser.hpp:489-506 | from the lines read so far, the loop ends as `FileOutcome` says |
| FileSteps.FileLaw | obj_parser.hpp:486-508 | from an empty parser, a parse without fault read the whole input as `FileRead`, took all its tokens, and built `ApplyAll` of its lines; a fault stops the last line only, after all earlier lines were read whole and applied, and names its cause |
| ObjParsing.ObjParser.constructor | obj_parser.hpp:28 | an empty parser at line 1 over the input, in the state `Start` gives |
| ObjParsing.ObjParser.ReadRun | obj_parser.hpp:125-131 | the reading loop stops at the run's end and collects exactly the run |
| ObjParsing.ObjParser.ScanFrom | obj_parser.hpp:104-191 | skipping blanks and reading one token finds `Scan` of the input |
| ObjParsing.ObjParser.ReadToken | obj_parser.hpp:108-191 | the branches on the first non-blank character find `ScanAt` |
| ObjParsing.ObjParser.NextToken | obj_parser.hpp:97-192 | the new state is `Advance` of the old, and the invariant holds |
| ObjParsing.ObjParser.Shift | obj_parser.hpp:108-191 | the state after a scan: kind, lexeme, position and line count, or the endless-read fault |
| ObjParsing.ObjParser.ParseString | obj_parser.hpp:197-209 | the new state is `StringRead` of the old |
| ObjParsing.ObjParser.Accept | obj_parser.hpp:211-220 | the new state is `Accepted` of the old, and the result is whether the current kind was `k` |
| ObjParsing.ObjParser.Expect | obj_parser.hpp:222-234 | the new state is `Expected` of the old |
| ObjParsing.ObjParser.ReadNumbers | obj_parser.hpp:243-249 | the new state and lexemes are `Numbers` of the old; with no fault the vector holds them over zeros |
| ObjParsing.ObjParser.ReadComponent | obj_parser.hpp:243-247 | one pass of the NUMBER loop: the next lexeme is stored in the next component, or the loop's result is reached at a fault |
| ObjParsing.ObjParser.ReadOperands | obj_parser.hpp:240-255 | the new state and lexemes are `Operands` of the old; with no fault the vector holds them over zeros |
| ObjParsing.ObjParser.ParseVertex | obj_parser.hpp:236-261 | the new state and operands are `VectorParsed` for `v`; reports no match |
| ObjParsing.ObjParser.PushVertex | obj_parser.hpp:258 | exactly the entry of the operands is appended to `vertices` |
| ObjParsing.ObjParser.StoreVertex | obj_parser.hpp:240-258 | the new state is `Stored` for `v` |
| ObjParsing.ObjParser.ParseNormal | obj_parser.hpp:263-282 | the new state and operands are `VectorParsed` for `vn`; reports no match |
| ObjParsing.ObjParser.PushNormal | obj_parser.hpp:279 | exactly the entry of the operands is appended to `normals` |
| ObjParsing.ObjParser.StoreNormal | obj_parser.hpp:267-279 | the new state is `Stored` for `vn` |
| ObjParsing.ObjParser.ParseTexCo | obj_parser.hpp:284-309 | the new state and operands are `VectorParsed` for `vt`; reports no match |
| ObjParsing.ObjParser.PushTexCo | obj_parser.hpp:306 | exactly the entry of the operands is appended to `texCos` |
| ObjParsing.ObjParser.StoreTexCo | obj_parser.hpp:288-306 | the new state is `Stored` for `vt` |
| ObjParsing.ObjParser.ReadCornerPart | obj_parser.hpp:324-331 | the new state and the part are `Part` of the old |
| ObjParsing.ObjParser.ReadCorner | obj_parser.hpp:319-340 | a corner is read exactly when a NUMBER is current, as `CornerRead` gives it; otherwise nothing changes |
| ObjParsing.ObjParser.ReadCorners | obj_parser.hpp:319-341 | the new state and corners are `CornersFrom` of the old, and the index lists are their `PositionIndices`, `TexIndices` and `NormalIndices` |
| ObjParsing.ObjParser.AppendTriangle | obj_parser.hpp:351-363 | one pass of the triangulation loop appends (c0, ci, ci+1) to every channel the face gives |
| ObjParsing.ObjParser.AppendFan | obj_parser.hpp:349-364 | the triangulation loop appends the fan of each channel and changes nothing earlier |
| ObjParsing.ObjParser.ParseFace | obj_parser.hpp:311-375 | the new state and corners are `FaceParsed` of the old; matches exactly when `f` was current |
| ObjParsing.ObjParser.ReadFace | obj_parser.hpp:315-372 | the corners are `CornersFrom` and the new state is the end of the face on them |
| ObjParsing.ObjParser.AddFace | obj_parser.hpp:343-370 | the new state is `FansAdded`: mixed channels or an empty face are fatal before anything is appended; otherwise the fan is appended and then checked |
| ObjParsing.ObjParser.Triangulate | obj_parser.hpp:349-370 | the fan is appended to each channel and misaligned channels are fatal, as `FansAdded` says |
| ObjParsing.ObjParser.ParseNamed | obj_parser.hpp:377-388 | the new state and match are `NamedParsed` for the keyword |
| ObjParsing.ObjParser.ParseUseMtl | obj_parser.hpp:377-388 | `NamedParsed` for USEMTL |
| ObjParsing.ObjParser.ParseMtlLib | obj_parser.hpp:390-400 | `NamedParsed` for MTLLIB |
| ObjParsing.ObjParser.ParseObject | obj_parser.hpp:402-413 | `NamedParsed` for OBJECT |
| ObjParsing.ObjParser.ParseGroup | obj_parser.hpp:415-426 | `NamedParsed` for OBJECT, not GROUP |
| ObjParsing.ObjParser.ParseShade | obj_parser.hpp:428-449 | the new state and operand are `ShadeParsed` of the old; matches exactly when `s` was current |
| ObjParsing.ObjParser.ReadShading | obj_parser.hpp:432-445 | a NUMBER is taken and "1" sets the flag, or `off` is expected and clears it |
| ObjParsing.ObjParser.SwitchOff | obj_parser.hpp:441-445 | `off` is expected and then clears the flag |
| ObjParsing.ObjParser.ParseVectors | obj_parser.hpp:492-494 | the new state and operands are `VectorsParsed` of the old |
| ObjParsing.ObjParser.ParseTail | obj_parser.hpp:495-500 | the new state and tail are `TailParsed` of the old |
| ObjParsing.ObjParser.ParseNamedTail | obj_parser.hpp:496-500 | `TailParsed` when `f` is not current |
| ObjParsing.ObjParser.ParseObjectTail | obj_parser.hpp:498-500 | `TailParsed` when none of `f`, `usemtl`, `mtllib` is current |
| ObjParsing.ObjParser.ParseDirective | obj_parser.hpp:491-500 | the new state and directive are `DirectiveParsed` of the old |
| ObjParsing.ObjParser.ReadEnding | obj_parser.hpp:501-505 | the new state and whether the loop goes on are `EndingRead` of the old |
| ObjParsing.ObjParser.ParseLine | obj_parser.hpp:491-505 | the new state, directive, ending and continuation are `LineParsed` of the old |
| ObjParsing.ObjParser.Parse | obj_parser.hpp:486-508 | the new state and lines are `FileSteps.Parsed` of the old; `done` is set exactly when no fault stopped the loop |
| ObjParsing.ObjParser.TableIndex | obj_parser.hpp:530-537 | the `table_index` text of a corner is the text of its key |
| ObjParsing.ObjParser.VertexFloats | obj_parser.hpp:544-557 | the floats a new vertex pushes are its VertexData |
| ObjParsing.ObjParser.NumberCorner | obj_parser.hpp:529-561 | one pass of the hash-table loop keeps its state equal to the reference numbering of the corners so far |
| ObjParsing.ObjParser.NumberCorners | obj_parser.hpp:525-562 | the hash-table loop computes the reference numbering, vertex count and buffer |
| ObjParsing.ObjParser.Unify | obj_parser.hpp:515-569 | index array, vertex count and buffer as the reference definition gives them; every number below the count; buffer length count*Width; stride 4*Width bytes; texcoord offset 12, normal offset 12 + 8*hasT |
| ObjParsing.NumbersAcc | obj_parser.hpp:243-249 | the loop form of the NUMBER loop reads what `Numbers` reads, after the lexemes before it |

## Left out

- The character stream becomes a whole input string and a read position. `stream.get`/`unget`/`peek` are not modelled one by one.
- Error and warning output (`error()`, `warning()`, the message for an unknown `s` number) is not modelled. The fault records the line and the kinds the message would name.
- Termination by `assert` is modelled as a recorded fault, as if assertions are enabled. With `NDEBUG` the source would carry on past them.
- A read that never ends is recorded as the fault `Diverges` instead of running forever.
- The emission of the JavaScript text in `writeWebGlCode` (lines 570-643) is left out, since it is output formatting. The values it prints (buffer, index array, stride, offsets) are what `Unify` returns.
- The `Uint16Array` the index array is emitted in is not modelled. More than 65536 vertices would wrap there, and that is not captured.
- `matrix.hpp` is not part of this model. Vectors are sequences of fixed length, and a default-constructed vector is taken to hold zeros.
- `stof` is not modelled: an attribute value is kept as the lexeme it was read from. The source converts each value as it is read (lines 245, 253, 272, 293, 301). `stof` throws there on NUMBER lexemes the scanner accepts, such as `-`, `-e` or `1e999`, and that ends the program. The model stores the lexeme and goes on.
- `stoi` on a lexeme without a leading digit (e.g. `-` alone) throws in the source; the model gives 0 there. Values outside 32-bit `int` are not modelled either.
- The fields `token_type`, `smooth` and `done` are uninitialised in the source. The constructor gives them UNKNOWN, false and false.
- `main.cpp` (reading files, command-line handling) is not part of this model.
- Unify: it requires every corner index to name an entry of its table. The source indexes the tables unchecked, so an out-of-range index from the file is undefined behaviour there.
- Unify: `sizeof(float)` is taken to be 4.
