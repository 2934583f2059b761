/**
 * The numeric values the parser reads. Attribute values are converted by `stof` as
 * they are read and afterwards only stored and copied, so a value is kept here as
 * the lexeme it was read from (the conversion itself, and its failure on a lexeme
 * such as "-" or "1e999", are not modelled); the zero that a default-constructed
 * vector holds (matrix.hpp) is a value of its own. Face indices come from `stoi`.
 */
module Numbers {

  datatype Float = Zero | Parsed(text: string)

  /** The fixed-size vectors of matrix.hpp, as the parser uses them. */
  type Vector4 = v: seq<Float> | |v| == 4 witness [Zero, Zero, Zero, Zero]
  type Vector3 = v: seq<Float> | |v| == 3 witness [Zero, Zero, Zero]
  type Vector2 = v: seq<Float> | |v| == 2 witness [Zero, Zero]

  /**
   * A default-constructed vector of `size` zeros whose first components are
   * overwritten, in order, by the values read from `lexemes`.
   */
  function Components(lexemes: seq<string>, size: nat): (v: seq<Float>)
    requires |lexemes| <= size
    ensures |v| == size
    ensures forall i :: 0 <= i < |lexemes| ==> v[i] == Parsed(lexemes[i])
    ensures forall i :: |lexemes| <= i < size ==> v[i] == Zero
  {
    seq(size, i => if 0 <= i < |lexemes| then Parsed(lexemes[i]) else Zero)
  }

  /** Reading one more component overwrites the next zero of the vector. */
  lemma ComponentsSnoc(lexemes: seq<string>, x: string, size: nat)
    requires |lexemes| < size
    ensures Components(lexemes + [x], size) == Components(lexemes, size)[|lexemes| := Parsed(x)]
  {
  }

  function DigitValue(c: char): nat
    requires '0' <= c <= '9'
  {
    c as int - '0' as int
  }

  /** The number of leading decimal digits of `s`. */
  function DigitCount(s: string): (n: nat)
    ensures n <= |s|
    ensures forall i :: 0 <= i < n ==> '0' <= s[i] <= '9'
    ensures n == |s| || !('0' <= s[n] <= '9')
  {
    if s != [] && '0' <= s[0] <= '9' then 1 + DigitCount(s[1..]) else 0
  }

  /** The value of a sequence of decimal digits, most significant first. */
  function DecimalValue(digits: string): nat
    requires forall i :: 0 <= i < |digits| ==> '0' <= digits[i] <= '9'
  {
    if digits == [] then 0
    else 10 * DecimalValue(digits[..|digits| - 1]) + DigitValue(digits[|digits| - 1])
  }

  /**
   * `std::stoi` on a NUMBER lexeme: an optional '-' and the leading decimal digits,
   * the rest (a fraction or an exponent) ignored. A lexeme without a leading digit,
   * where `stoi` throws, is given 0.
   */
  function StoI(lexeme: string): int {
    if lexeme != [] && lexeme[0] == '-' then
      var body := lexeme[1..];
      -(DecimalValue(body[..DigitCount(body)]) as int)
    else
      DecimalValue(lexeme[..DigitCount(lexeme)])
  }
}
