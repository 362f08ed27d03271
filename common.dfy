/** Values shared by every part of the gateway model: bytes, the scp ack
    byte, the failures the Python code raises, and result wrappers. */
module Common {

  /** One byte of a binary stream (Python `bytes` element). */
  newtype byte = x: int | 0 <= x < 256

  /** The scp "ok" acknowledgement, `ACK_OK = b"\x00"`. */
  const ACK_OK: byte := 0

  /** `b"\n"`, the terminator of every scp control record. */
  const NEWLINE: byte := 10

  /** Size of the chunks in which payloads are copied (`1024 * 1024`). */
  const CHUNK_SIZE: nat := 1024 * 1024

  /** Seconds in one day: times are modelled as integer seconds. */
  const SECONDS_PER_DAY: int := 86400

  datatype Option<+T> = None | Some(value: T)

  /** The exceptions raised on the upload and download paths. */
  datatype Failure =
    | Eof                            // EOFError("unexpected EOF ...")
    | BadCRecord(line: seq<byte>)    // RuntimeError("bad C record ...")
    | MissingTerminator(got: byte)   // RuntimeError("missing file terminator ...")
    | UnsupportedRecord(line: seq<byte>)
    | ClientNotOk(got: byte)         // RuntimeError("client did not ACK OK ...")
    | DuplicateToken(token: string)  // primary-key violation raised by INSERT

  datatype Result<+T> = Ok(value: T) | Err(error: Failure)

  datatype Outcome = Pass | Fail(error: Failure)

  function Min(a: int, b: int): (m: int)
    ensures m <= a && m <= b && (m == a || m == b)
  {
    if a <= b then a else b
  }
}
