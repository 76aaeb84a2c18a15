/** Machine words, addresses and the errors that the relocators report. */
module Words {
  const W32: int := 0x1_0000_0000
  const W64: int := 0x1_0000_0000_0000_0000

  type Byte = x: int | 0 <= x < 256
  type Word = x: int | 0 <= x < W32
  type Address = x: int | 0 <= x < W64

  datatype Error =
    | InvalidAddress
    | InvalidRange
    | NotExecutable
    | MemoryChanged
    | SameAddress
    | Overlap
    | Busy
    | InsufficientSpace
    | InvalidInstruction
    | ShadowStack
    | Expectation
    | Os

  datatype Result<+T> = Ok(value: T) | Err(error: Error) {
    predicate IsFailure() {
      Err?
    }
    function PropagateFailure<U>(): Result<U>
      requires Err?
    {
      Err(error)
    }
    function Extract(): T
      requires Ok?
    {
      value
    }
  }

  datatype Option<+T> = None | Some(value: T) {
    function GetOr(other: T): T {
      if Some? then value else other
    }
  }

  /** The bytes of a function to overwrite, how far into it they lie, and the jump to overwrite them with. */
  datatype Plan = Plan(offset: nat, original: seq<Byte>, replacement: seq<Byte>)

  /** A sum that the hardware truncates to 64 bits. */
  function Wrap(a: int): Address {
    a % W64
  }

  /** `usize::checked_add` and the signed `add` of the A64 relocator. */
  function Sum(a: int, b: int): (r: Result<Address>)
    ensures r.Ok? <==> 0 <= a + b < W64
    ensures r.Ok? ==> r.value == a + b == Wrap(a + b)
  {
    if 0 <= a + b < W64 then Ok(a + b) else Err(InvalidRange)
  }

  /** Euclidean division is unique. */
  lemma SameQuotient(k: int, q: int, r: int, q': int, r': int)
    requires 0 <= r < k && 0 <= r' < k && q * k + r == q' * k + r' && q <= q'
    ensures q == q' && r == r'
  {
    var d := q' - q;
    assert d * k == r - r';
    assert d >= 1 ==> (d - 1) * k >= 0;
  }
  lemma Divides(v: int, k: int, q: int, r: int)
    requires 0 <= r < k && v == q * k + r
    ensures v / k == q && v % k == r
  {
    if q <= v / k {
      SameQuotient(k, q, r, v / k, v % k);
    } else {
      SameQuotient(k, v / k, v % k, q, r);
    }
  }
}
