/**
 The small part of complex arithmetic the viewer uses: addition, multiplication
 and the squared modulus, over mathematical reals (the viewer's `f32` values
 idealised, with no rounding, infinities or NaN).
 */
module ComplexNumbers {

  datatype Complex = Complex(re: real, im: real)

  const Zero: Complex := Complex(0.0, 0.0)

  function Add(a: Complex, b: Complex): Complex {
    Complex(a.re + b.re, a.im + b.im)
  }

  function Mul(a: Complex, b: Complex): Complex {
    Complex(a.re * b.re - a.im * b.im, a.re * b.im + a.im * b.re)
  }

  /** |z|^2, compared against 4 instead of comparing |z| against 2. */
  function NormSqr(z: Complex): (r: real)
    ensures r >= 0.0
  {
    z.re * z.re + z.im * z.im
  }
}
