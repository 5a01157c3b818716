/** Small building blocks shared by every module: failure-carrying results,
    Java's 32-bit int and signed byte, and the text check used by the
    library's argument assertions. */
module Lang {

  /** A possibly absent value; `None` stands for a Java `null`. */
  datatype Option<+T> = None | Some(value: T)

  /** The value an operation returns, or the exception it throws. */
  datatype Result<+T, +E> = Success(value: T) | Failure(error: E)

  /** A check that either passes or throws. */
  datatype Outcome<+E> = Pass | Fail(error: E)

  /** Java `int`. */
  newtype int32 = x: int | -0x8000_0000 <= x < 0x8000_0000

  /** Java `byte` (signed). */
  type JavaByte = b: int | -128 <= b < 128

  /** Java `byte[]`, taken by value. */
  type Bytes = seq<JavaByte>

  /** Java's `Character.isWhitespace` as of JDK 9 (Unicode 6.3): the ASCII control whitespace
      U+0009..U+000D and U+001C..U+001F, the space, and the Unicode space,
      line and paragraph separators other than the non-breaking ones
      (U+00A0, U+2007, U+202F). */
  predicate IsWhitespace(c: char) {
    var n := c as int;
    (9 <= n <= 13) || (28 <= n <= 32) || n == 0x1680 ||
    (0x2000 <= n <= 0x200A && n != 0x2007) ||
    n == 0x2028 || n == 0x2029 || n == 0x205F || n == 0x3000
  }

  /** `Assert.hasText`: not null, not empty, and not only whitespace. */
  predicate HasText(s: Option<string>) {
    s.Some? && exists i :: 0 <= i < |s.value| && !IsWhitespace(s.value[i])
  }
}
