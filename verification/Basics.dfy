/** Vocabulary shared by every module: machine integers, I/O results and byte order. */
module Basics {
  const U32_LIMIT := 0x1_0000_0000
  const I32_MAX := 0x7fff_ffff

  type Byte = b: int | 0 <= b < 256
  type U32 = n: int | 0 <= n < 0x1_0000_0000
  type I32 = n: int | -0x8000_0000 <= n < 0x8000_0000

  datatype Option<+T> = None | Some(value: T)

  datatype Result<+T, +E> = Ok(value: T) | Err(error: E) {
    predicate IsFailure() {
      Err?
    }

    function PropagateFailure<U>(): Result<U, E>
      requires Err?
    {
      Err(error)
    }

    function Extract(): T
      requires Ok?
    {
      value
    }
  }

  datatype ErrorKind =
    | InvalidData | InvalidInput | Interrupted | TimedOut | WriteZero | NotConnected | WouldBlock
    | ConnectionAborted | Other

  /** An `io::Error`: its kind, the text before any diagnostic wrapping, and whether it
      still carries the driver's own host-cancellation marker. */
  datatype IoError = IoError(kind: ErrorKind, text: string, hostCancelled: bool)

  type IoResult<+T> = Result<T, IoError>

  function Fail(kind: ErrorKind, text: string): IoError {
    IoError(kind, text, false)
  }

  /** `io::Error::new(e.kind(), format!(..))`: the kind survives, the marker does not. */
  function Reworded(e: IoError): IoError {
    e.(hostCancelled := false)
  }

  function Min(a: int, b: int): int {
    if a <= b then a else b
  }

  function Distance(a: int, b: int): nat {
    if a <= b then b - a else a - b
  }

  lemma NonPositiveProduct(d: nat, k: int)
    requires k <= 0
    ensures d * k <= 0
  {
  }

  function Be32(b: seq<Byte>): U32
    requires |b| == 4
  {
    ((b[0] as int * 0x100 + b[1]) * 0x100 + b[2]) * 0x100 + b[3]
  }

  function ToBe32(n: U32): (b: seq<Byte>)
    ensures |b| == 4 && Be32(b) == n
  {
    var q1 := n as int / 0x100;
    var q2 := q1 / 0x100;
    [q2 / 0x100, q2 % 0x100, q1 % 0x100, n % 0x100]
  }

  function Le32(b: seq<Byte>): U32
    requires |b| == 4
  {
    ((b[3] as int * 0x100 + b[2]) * 0x100 + b[1]) * 0x100 + b[0]
  }

  function ToLe32(n: U32): (b: seq<Byte>)
    ensures |b| == 4 && Le32(b) == n
  {
    var q1 := n as int / 0x100;
    var q2 := q1 / 0x100;
    [n % 0x100, q1 % 0x100, q2 % 0x100, q2 / 0x100]
  }

  /** The two's-complement bit pattern of a signed 32-bit value. */
  function Pattern32(n: I32): (u: U32)
    ensures Signed32(u) == n
  {
    if n >= 0 then n else n + U32_LIMIT
  }

  function Signed32(u: U32): I32 {
    if u < 0x8000_0000 then u else u - U32_LIMIT
  }

  lemma ExactQuotient(n: int, d: int, q: int)
    requires d > 0 && n == d * q
    ensures n / d == q && n % d == 0
  {
    var e := n / d - q;
    assert d * e == d * (n / d) - d * q == 0 - n % d;
    SmallMultiple(d, e);
  }

  lemma SmallMultiple(d: int, e: int)
    requires 0 - d < d * e < d
    ensures e == 0
  {
  }
}
