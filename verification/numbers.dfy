/** Complex samples. The source works on floating-point pairs (`Complex<T>`,
    `c64`); here the two parts are exact reals, so the arithmetic below is the
    idealised arithmetic of the transforms and no rounding is modelled. */
module Numbers {

  datatype Complex = Complex(re: real, im: real)

  const Zero := Complex(0.0, 0.0)

  /** The complex conjugate: same real part, negated imaginary part. */
  function Conj(z: Complex): (r: Complex)
  {
    Complex(z.re, -z.im)
  }

  function Neg(z: Complex): (r: Complex)
  {
    Complex(-z.re, -z.im)
  }

  function Add(a: Complex, b: Complex): (r: Complex)
  {
    Complex(a.re + b.re, a.im + b.im)
  }

  function Sub(a: Complex, b: Complex): (r: Complex)
  {
    Complex(a.re - b.re, a.im - b.im)
  }

  function Mul(a: Complex, b: Complex): (r: Complex)
  {
    Complex(a.re * b.re - a.im * b.im, a.re * b.im + a.im * b.re)
  }

  /** Multiplication by a real scalar (`Complex::scale`). */
  function Scale(z: Complex, s: real): (r: Complex)
  {
    Complex(z.re * s, z.im * s)
  }

  /** A sample whose imaginary part is zero. */
  predicate IsReal(z: Complex)
  {
    z.im == 0.0
  }
}
