/** Least, greatest and absolute value, over integers and over reals. */
module Numbers {

  function Min(a: int, b: int): int { if a < b then a else b }
  function Max(a: int, b: int): int { if a < b then b else a }
  function Abs(x: int): int { if x < 0 then -x else x }

  function MinReal(x: real, y: real): real { if x < y then x else y }
  function MaxReal(x: real, y: real): real { if x < y then y else x }
  function AbsReal(x: real): real { if x < 0.0 then -x else x }
}
