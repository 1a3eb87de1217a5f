/**
 * Fixed-width machine integers of the client and the `as` casts between them.
 *
 * Rust's `as` between integer types never fails: widening an unsigned value
 * zero-extends, widening a signed value sign-extends (both keep the numeric
 * value), and narrowing keeps the low 8w bits of the two's-complement pattern,
 * read back as unsigned or as two's complement. The narrowing casts are
 * written once here, parameterised by the width, and used by every
 * fixed-width accessor of the client.
 */
module Ints {

  newtype u8 = x: int | 0 <= x < 0x100
  newtype u16 = x: int | 0 <= x < 0x1_0000
  newtype u32 = x: int | 0 <= x < 0x1_0000_0000
  newtype u64 = x: int | 0 <= x < 0x1_0000_0000_0000_0000

  newtype i8 = x: int | -0x80 <= x < 0x80
  newtype i16 = x: int | -0x8000 <= x < 0x8000
  newtype i32 = x: int | -0x8000_0000 <= x < 0x8000_0000
  newtype i64 = x: int | -0x8000_0000_0000_0000 <= x < 0x8000_0000_0000_0000

  /** The access widths of the fixed-width accessors, in bytes. */
  datatype Width = W1 | W2 | W4 | W8 {

    /** The value the accessor puts in the request's `size` field. */
    function Bytes(): u64
    {
      match this
      case W1 => 1
      case W2 => 2
      case W4 => 4
      case W8 => 8
    }

    /** 2^(8 * Bytes()): the number of distinct bit patterns of this width. */
    function Modulus(): (m: int)
      ensures m == 2 * Half()
    {
      match this
      case W1 => 0x100
      case W2 => 0x1_0000
      case W4 => 0x1_0000_0000
      case W8 => 0x1_0000_0000_0000_0000
    }

    /** 2^(8 * Bytes() - 1): the weight of the sign bit. */
    function Half(): int
    {
      match this
      case W1 => 0x80
      case W2 => 0x8000
      case W4 => 0x8000_0000
      case W8 => 0x8000_0000_0000_0000
    }
  }

  /** x fits the unsigned type of width w (u8, u16, u32 or u64). */
  predicate InUnsigned(w: Width, x: int)
  {
    0 <= x < w.Modulus()
  }

  /** x fits the signed type of width w (i8, i16, i32 or i64). */
  predicate InSigned(w: Width, x: int)
  {
    -w.Half() <= x < w.Half()
  }

  /** a and b have the same low 8w bits in two's complement. */
  predicate Congruent(w: Width, a: int, b: int)
  {
    a % w.Modulus() == b % w.Modulus()
  }

  /** Euclidean division is unique: the quotient and remainder are determined. */
  lemma DivModUnique(y: int, m: int, q: int, r: int)
    requires m > 0 && 0 <= r < m && y == m * q + r
    ensures y % m == r && y / m == q
  {
    var d := y / m - q;
    assert m * d == r - y % m;
  }

  /**
   * `x as uN` for N = 8 * w.Bytes(): the unsigned value of the low 8w bits of
   * x. It is the one value of the unsigned type with the same low bits.
   */
  function NarrowU(w: Width, x: int): (r: int)
    ensures InUnsigned(w, r)
    ensures Congruent(w, x, r)
  {
    x % w.Modulus()
  }

  /**
   * Reads an 8w-bit pattern as two's complement: the pattern is negative
   * exactly when its sign bit is set, and keeps its low bits.
   */
  function ToSigned(w: Width, bits: int): (r: int)
    requires InUnsigned(w, bits)
    ensures InSigned(w, r)
    ensures Congruent(w, bits, r)
    ensures r < 0 <==> bits >= w.Half()
  {
    if bits < w.Half() then bits
    else
      DivModUnique(bits - w.Modulus(), w.Modulus(), -1, bits);
      bits - w.Modulus()
  }

  /**
   * `x as iN` for N = 8 * w.Bytes(): the low 8w bits of x read as two's
   * complement. It is the one value of the signed type with the same low bits.
   */
  function NarrowI(w: Width, x: int): (r: int)
    ensures InSigned(w, r)
    ensures Congruent(w, x, r)
  {
    ToSigned(w, NarrowU(w, x))
  }

  /** Two values of the unsigned type with the same low bits are equal. */
  lemma UnsignedUnique(w: Width, a: int, b: int)
    requires InUnsigned(w, a) && InUnsigned(w, b)
    requires Congruent(w, a, b)
    ensures a == b
  {
  }

  /** Two values of the signed type with the same low bits are equal. */
  lemma SignedUnique(w: Width, a: int, b: int)
    requires InSigned(w, a) && InSigned(w, b)
    requires Congruent(w, a, b)
    ensures a == b
  {
  }

  /**
   * Narrowing after zero-extension gives back the original: `(x as u64) as uN == x`
   * for every x of type uN.
   */
  lemma NarrowUWidened(w: Width, x: int)
    requires InUnsigned(w, x)
    ensures NarrowU(w, x) == x
  {
  }

  /**
   * Narrowing after sign-extension gives back the original: `(x as i64) as iN == x`
   * for every x of type iN.
   */
  lemma NarrowIWidened(w: Width, x: int)
    requires InSigned(w, x)
    ensures NarrowI(w, x) == x
  {
  }

  /**
   * A narrowing cast only looks at the low bits: inputs that agree there
   * narrow to the same value, signed or unsigned.
   */
  lemma NarrowOnlyLowBits(w: Width, a: int, b: int)
    requires Congruent(w, a, b)
    ensures NarrowU(w, a) == NarrowU(w, b)
    ensures NarrowI(w, a) == NarrowI(w, b)
  {
  }

  /**
   * `x as iN` on an i64 keeps the low 8w bits of x's 64-bit two's-complement
   * pattern and reads them as two's complement.
   */
  lemma NarrowIKeepsLowBits(w: Width, x: int)
    ensures NarrowI(w, x) == ToSigned(w, NarrowU(w, NarrowU(W8, x)))
  {
    var p := NarrowU(W8, x);
    assert Congruent(w, x, p) by {
      var m, k := w.Modulus(), W8.Modulus() / w.Modulus();
      assert W8.Modulus() == m * k;
      var q, r := x / (m * k), x % (m * k);
      DivModUnique(x, m, q * k + r / m, r % m);
    }
    NarrowOnlyLowBits(w, x, p);
  }

  /**
   * Sign extension, bit for bit: the 64-bit pattern of a value of type iN is
   * its 8w-bit pattern with every higher bit a copy of the sign bit.
   */
  lemma SignExtension(w: Width, x: int)
    requires InSigned(w, x)
    ensures NarrowU(W8, x) == NarrowU(w, x) + (if x < 0 then W8.Modulus() - w.Modulus() else 0)
  {
  }

  /**
   * Zero extension, bit for bit: the 64-bit pattern of a value of type uN is
   * its 8w-bit pattern with every higher bit clear.
   */
  lemma ZeroExtension(w: Width, x: int)
    requires InUnsigned(w, x)
    ensures NarrowU(W8, x) == NarrowU(w, x)
  {
  }

  /**
   * The signed and unsigned casts of one width are two readings of the same
   * bits: converting between them changes no bit, and the unsigned reading
   * exceeds the signed one by 2^(8w) exactly when the sign bit is set.
   */
  lemma SameBitsTwoReadings(w: Width, x: int)
    ensures NarrowU(w, NarrowI(w, x)) == NarrowU(w, x)
    ensures NarrowI(w, NarrowU(w, x)) == NarrowI(w, x)
    ensures NarrowU(w, x) == NarrowI(w, x) + (if NarrowI(w, x) < 0 then w.Modulus() else 0)
  {
  }
}
