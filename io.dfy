/** The part of Rust's `std::io` the library produces: an error made of a
    classification and a message, and the `io::Result` alias. */
module Io {
  import opened Core

  /** A few of `std::io::ErrorKind`'s classifications; every error this library
      builds is `Other`. */
  datatype ErrorKind = NotFound | PermissionDenied | InvalidInput | InvalidData | UnexpectedEof | Other

  /** `std::io::Error` as built by `io::Error::new(kind, msg)`. */
  datatype Error = Error(kind: ErrorKind, message: string)

  /** `std::io::Result<T>` is `Result<T, io::Error>`. */
  type IoResult<T> = Result<T, Error>
}
