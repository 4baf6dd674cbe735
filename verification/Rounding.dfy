/** `round(x, places)`, half to even, in exact arithmetic; `scale` is ten to the `places`. */
module Rounding {

  function RoundInt(x: real): (r: int)
    ensures x - 0.5 <= r as real <= x + 0.5
  {
    var below := x.Floor;
    var rest := x - below as real;
    if rest < 0.5 || (rest == 0.5 && below % 2 == 0) then below else below + 1
  }

  function Times(x: real, scale: real): real { x * scale }

  function Over(x: real, scale: real): real
    requires scale != 0.0
  {
    x / scale
  }

  lemma TimesOver(x: real, scale: real)
    requires scale != 0.0
    ensures Times(Over(x, scale), scale) == x
  {
  }

  function Round(x: real, scale: int): real
    requires scale > 0
  {
    Over(RoundInt(Times(x, scale as real)) as real, scale as real)
  }

  lemma RoundIntIsMonotone(x: real, y: real)
    requires x <= y
    ensures RoundInt(x) <= RoundInt(y)
  {
    assert x.Floor <= y.Floor;
  }

  lemma TimesIsMonotone(a: real, b: real, s: real)
    requires s >= 0.0 && a <= b
    ensures Times(a, s) <= Times(b, s)
  {
    assert b * s - a * s == (b - a) * s;
  }

  lemma OverIsMonotone(a: real, b: real, s: real)
    requires s > 0.0 && a <= b
    ensures Over(a, s) <= Over(b, s)
  {
    assert b / s - a / s == (b - a) / s;
  }

  lemma RoundIsMonotone(x: real, y: real, scale: int)
    requires scale > 0 && x <= y
    ensures Round(x, scale) <= Round(y, scale)
  {
    var s := scale as real;
    TimesIsMonotone(x, y, s);
    var a, b := Times(x, s), Times(y, s);
    RoundIntIsMonotone(a, b);
    OverIsMonotone(RoundInt(a) as real, RoundInt(b) as real, s);
  }

  /** A value with no more than the given places is left alone. */
  lemma RoundOfTicks(n: int, scale: int)
    requires scale > 0
    ensures Round(Over(n as real, scale as real), scale) == Over(n as real, scale as real)
  {
    assert Times(Over(n as real, scale as real), scale as real) == n as real;
    assert RoundInt(n as real) == n by { assert (n as real).Floor == n; }
  }

  /** Rounding does not leave an interval whose ends have no more than the given places. */
  lemma RoundWithin(x: real, low: int, high: int, scale: int)
    requires scale > 0 && Over(low as real, scale as real) <= x <= Over(high as real, scale as real)
    ensures Over(low as real, scale as real) <= Round(x, scale) <= Over(high as real, scale as real)
  {
    RoundIsMonotone(Over(low as real, scale as real), x, scale);
    RoundIsMonotone(x, Over(high as real, scale as real), scale);
    RoundOfTicks(low, scale);
    RoundOfTicks(high, scale);
  }

  lemma RoundError(x: real, scale: int)
    requires scale > 0
    ensures x - 0.5 / scale as real <= Round(x, scale) <= x + 0.5 / scale as real
  {
    var s := scale as real;
    var a := Times(x, s);
    var r := RoundInt(a) as real;
    OverIsMonotone(a - 0.5, r, s);
    OverIsMonotone(r, a + 0.5, s);
    assert Over(a - 0.5, s) == x - 0.5 / s && Over(a + 0.5, s) == x + 0.5 / s;
  }

  /** A tie goes to the even neighbour. */
  lemma TiesGoToEven(n: int)
    ensures RoundInt(n as real + 0.5) % 2 == 0
  {
    assert (n as real + 0.5).Floor == n;
  }
}
