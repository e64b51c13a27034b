/** Byte strings as they stand in files and on pipes. */
module ByteStrings {

  /** A byte is modelled by the character with its code. */
  type Bytes = seq<char>

  predicate OneLine(s: Bytes) { forall c :: c in s ==> c != '\n' }
}
