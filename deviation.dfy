/**
 * The signed percentage by which an actual duration differs from its norm
 * (`calculate_deviation`) and the three-way marker printed beside it
 * (`get_deviation_symbol`).
 */
module Deviation {

  /** Above the norm, below it, or exactly on it. */
  datatype Symbol = Above | Below | Equal

  /** `((actual - norm) / norm) * 100`, exact. */
  function Deviation(actual: int, norm: int): (p: real)
    requires norm != 0
    ensures p * (norm as real) == ((actual - norm) * 100) as real
  {
    ((actual - norm) as real / norm as real) * 100.0
  }

  /** `get_deviation_symbol`: the sign of the deviation. */
  function SymbolOf(deviation: real): (s: Symbol)
    ensures s == Above <==> deviation > 0.0
    ensures s == Below <==> deviation < 0.0
    ensures s == Equal <==> deviation == 0.0
  {
    if deviation > 0.0 then Above
    else if deviation < 0.0 then Below
    else Equal
  }

  /** The glyph the report prints for a symbol. */
  function Glyph(s: Symbol): (g: string)
    ensures |g| == 1
  {
    match s
    case Above => "🔺"
    case Below => "🔻"
    case Equal => "❎"
  }

  /** Distinct symbols print as distinct glyphs. */
  lemma GlyphInjective(s: Symbol, t: Symbol)
    ensures Glyph(s) == Glyph(t) <==> s == t
  {
  }

  /** For a positive norm the deviation has the sign of `actual - norm`. */
  lemma DeviationSign(actual: int, norm: int)
    requires norm > 0
    ensures Deviation(actual, norm) > 0.0 <==> actual > norm
    ensures Deviation(actual, norm) < 0.0 <==> actual < norm
    ensures Deviation(actual, norm) == 0.0 <==> actual == norm
  {
    var p := Deviation(actual, norm);
    var n := norm as real;
    assert p * n == ((actual - norm) * 100) as real;
    if p > 0.0 { assert p * n > 0.0; }
    if p < 0.0 { assert p * n < 0.0; }
    if p == 0.0 { assert p * n == 0.0; }
  }

  /** Given a positive norm, the symbol depends only on how `actual` compares to it. */
  lemma SymbolOfDeviation(actual: int, norm: int)
    requires norm > 0
    ensures SymbolOf(Deviation(actual, norm)) == Above <==> actual > norm
    ensures SymbolOf(Deviation(actual, norm)) == Below <==> actual < norm
    ensures SymbolOf(Deviation(actual, norm)) == Equal <==> actual == norm
  {
    DeviationSign(actual, norm);
  }

  /** Meeting the norm exactly is a deviation of zero, marked `Equal`. */
  lemma OnNorm(norm: int)
    requires norm > 0
    ensures Deviation(norm, norm) == 0.0 && SymbolOf(Deviation(norm, norm)) == Equal
  {
  }

  /** Twice the norm is +100%; nothing at all is -100%. */
  lemma DeviationScale(norm: int)
    requires norm > 0
    ensures Deviation(2 * norm, norm) == 100.0
    ensures Deviation(0, norm) == -100.0
  {
    var n := norm as real;
    assert (2 * norm - norm) as real == n && (0 - norm) as real == -n;
    assert n / n == 1.0;
    assert (-n) / n == -1.0;
  }
}
