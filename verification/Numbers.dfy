/** The smaller and the larger of two numbers. */
module Numbers {
  function Min(x: real, y: real): real {
    if x <= y then x else y
  }

  function Max(x: real, y: real): real {
    if x >= y then x else y
  }
}
