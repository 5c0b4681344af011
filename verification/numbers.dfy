/** The minimum and maximum the component takes with `Math.min` and
    `Math.max`, defined once per number type. */
module Numbers {

  function Min(a: int, b: int): (m: int)
    ensures m <= a && m <= b && (m == a || m == b)
  {
    if a <= b then a else b
  }

  function MinReal(a: real, b: real): (m: real)
    ensures m <= a && m <= b && (m == a || m == b)
  {
    if a <= b then a else b
  }

  function MaxReal(a: real, b: real): (m: real)
    ensures a <= m && b <= m && (m == a || m == b)
  {
    if a <= b then b else a
  }
}
