/** The Java value types the model shares: the fixed-width integers and the
    `Class<T>` objects registries are keyed by. */
module JavaTypes {
  const IntMin: int := -0x8000_0000
  const IntMax: int := 0x7fff_ffff

  /** Java's `int`. */
  type Int32 = x: int | -0x8000_0000 <= x <= 0x7fff_ffff

  /** Java's `long`. */
  type Long = x: int | -0x8000_0000_0000_0000 <= x <= 0x7fff_ffff_ffff_ffff

  /** A class object, identified by its fully qualified name; `simpleName` is
      what `getSimpleName()` returns and what the error messages show. */
  datatype ClassRef = ClassRef(name: string, simpleName: string)
}
