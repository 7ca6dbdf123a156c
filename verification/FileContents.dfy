/** What a file may hold while it is written. */
module FileContents {
  /** A file being created exists, torn, before its bytes are complete. */
  datatype Content<+T> = Torn | Whole(value: T)
}
