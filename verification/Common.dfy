/** Small value types shared by the models. */
module Common {

  datatype Option<+T> = None | Some(value: T)

  datatype Result<+T> = Ok(value: T) | Err

  newtype byte = x: int | 0 <= x < 256
  type Bytes = seq<byte>

  predicate LowerHex(c: char) { '0' <= c <= '9' || 'a' <= c <= 'f' }

  /** A SHA-256 digest in hexadecimal. */
  predicate Sha(s: string) { |s| == 64 && forall i :: 0 <= i < 64 ==> LowerHex(s[i]) }
}
