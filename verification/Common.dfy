/** Small shared vocabulary. */
module Common {

  type byte = b: int | 0 <= b < 256

  datatype Option<+T> = None | Some(value: T)

  /** The errors the modelled code tells apart. */
  datatype Error =
    | NoSpace          // the file system is full
    | Eof
    | Closed           // a file, reader or scheduler that is no longer usable
    | OffsetMismatch   // the internal check inside WriteAtNoOverwrite
    | ShortWrite
    | Abandoned        // streambuf's "stream abandoned"
    | ObjectChanged
    | InvalidSeek
    | TooManyOpens
    | NotSatisfiable
    | Terminal         // marked as not to be retried
    | Failed           // any other failure
}
