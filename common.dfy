/** Small shared vocabulary: the source's nullable references become `Option`. */
module Common {

  /** A value that may be absent (`null` in the source). */
  datatype Option<+T> = None | Some(value: T)
}
