/** The Go scalar types the records carry. Dafny integers are unbounded, so
    each Go width is a subset type; values are only ever copied or produced
    by the range-checked parsers, so no wrap-around arises. */
module GoTypes {

  const MinInt64: int := -0x8000_0000_0000_0000
  const MaxInt64: int := 0x7FFF_FFFF_FFFF_FFFF
  const MaxUint64: int := 0xFFFF_FFFF_FFFF_FFFF

  /** Go `int64`, and Go `int` on a 64-bit platform. */
  type int64 = x: int | MinInt64 <= x <= MaxInt64

  /** Go `uint64`, and Go `uint` on a 64-bit platform. */
  type uint64 = x: int | 0 <= x <= MaxUint64

  type uint16 = x: int | 0 <= x < 0x1_0000

  type uint8 = x: int | 0 <= x < 0x100

  /** A Go `float64`, kept as its IEEE-754 bit pattern: the pipeline only
      copies these values and never computes with them. */
  datatype Float64 = Float64(bits: uint64)

  const ZeroFloat64: Float64 := Float64(0)
}
