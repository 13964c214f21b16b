/** Values shared by every component: bytes, optional values and results. */
module Common {

  type Byte = x: int | 0 <= x < 256

  type Bytes = seq<Byte>

  type Uuid = nat

  /** Microseconds in a second. */
  const MICROS: int := 1_000_000

  /** A 32-byte digest (SHA-256 and Keccak-256 both produce this width). */
  datatype Digest = Digest(bytes: Bytes32)

  type Bytes32 = b: Bytes | |b| == 32 witness seq(32, _ => 0)

  datatype Option<+T> = None | Some(value: T)

  datatype Result<+T, +E> = Ok(value: T) | Err(error: E) {
    predicate IsFailure() {
      Err?
    }

    function PropagateFailure<U>(): (r: Result<U, E>)
      requires Err?
    {
      Err(error)
    }

    function Extract(): T
      requires Ok?
    {
      value
    }
  }

  function Get<K, V>(m: map<K, V>, k: K, default: V): V {
    if k in m then m[k] else default
  }
}
