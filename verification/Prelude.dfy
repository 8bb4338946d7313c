/** Failure values and machine integers shared by every model in this project. */
module Prelude {

  datatype Option<+T> = None | Some(value: T)

  /** The outcome of an instruction; `:-` propagates the first error, like Rust's `?`. */
  datatype Result<+T, +E> = Ok(value: T) | Err(error: E) {
    predicate IsFailure() {
      Err?
    }

    function PropagateFailure<U>(): Result<U, E>
      requires Err?
    {
      Err(error)
    }

    function Extract(): T
      requires Ok?
    {
      value
    }
  }

  /** A bare guard: `:- Need(condition, error);` */
  datatype Guard<+E> = Pass | Fail(error: E) {
    predicate IsFailure() {
      Fail?
    }

    function PropagateFailure<U>(): Result<U, E>
      requires Fail?
    {
      Err(error)
    }
  }

  function Need<E>(condition: bool, error: E): Guard<E> {
    if condition then Pass else Fail(error)
  }

  const U32_MAX := 0xFFFF_FFFF
  const U64_MAX := 0xFFFF_FFFF_FFFF_FFFF
  const I64_MAX := 0x7FFF_FFFF_FFFF_FFFF

  type byte = x: int | 0 <= x < 256
  type u8 = byte
  type u16 = x: int | 0 <= x < 0x1_0000
  type u32 = x: int | 0 <= x <= U32_MAX
  type u64 = x: int | 0 <= x <= U64_MAX
  type i64 = x: int | -I64_MAX - 1 <= x <= I64_MAX

  function Min(a: int, b: int): int {
    if a <= b then a else b
  }

  /** An unchecked i64 addition wraps around. */
  function WrapI64(x: int): i64 {
    (x + I64_MAX + 1) % (U64_MAX + 1) - I64_MAX - 1
  }
}
