/** Shared vocabulary of the model. */
module Common {

  /** A value that may be missing: an absent dictionary entry, or a Python call that raised. */
  datatype Option<+T> = None | Some(value: T)

  /** Byte strings are sequences of characters that stand for bytes; a Python `str` is its UTF-8 encoding. */
  type Bytes = string

  /** The last element of a non-empty sequence. */
  function Last<T>(s: seq<T>): T
    requires s != []
  {
    s[|s| - 1]
  }

  /** All elements but the last. */
  function Front<T>(s: seq<T>): seq<T>
    requires s != []
  {
    s[..|s| - 1]
  }
}
