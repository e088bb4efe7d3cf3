/** Shared value types: optional values, results carrying the exception the
    Python code would raise, and byte strings. */
module Common {

  datatype Option<+T> = None | Some(value: T)

  /** The exceptions the modelled code raises, one constructor per kind. */
  datatype Error =
    | RegisterExists          // TTSRegisterException('already exists')
    | UnpackValues            // ValueError from a tuple unpacking of a str.split result
    | CannotResolve           // ValueError("Cannot resolve voice: ...")
    | AssertionFailed(what: string)
    | UnboundLocal            // UnboundLocalError on `lang` in ssml_to_wavs
    | IndexOutOfRange         // IndexError on a token list
    | UndefinedName           // NameError on an undefined global

  datatype Result<+T> = Ok(value: T) | Err(error: Error)

  type Bytes = seq<bv8>

  /** `bytes(n)`: n zero bytes. */
  function Zeros(n: nat): (r: Bytes)
    ensures |r| == n && forall i :: 0 <= i < n ==> r[i] == 0
  {
    seq(n, _ => 0)
  }
}
