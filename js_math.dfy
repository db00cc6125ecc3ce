/** `Math.min` and `Math.max` on two numbers. */
module JsMath {
  function Min(a: int, b: int): int {
    if a <= b then a else b
  }

  function Max(a: int, b: int): int {
    if a >= b then a else b
  }
}
