/** DataConvertible: what a cached item type must provide, as an abstract pair of
    functions. Whether a codec round-trips is never proved here; lemmas that need it ask
    for it about the particular value. */
module DataConvertible {
  import opened Wrappers
  import opened Foundation

  /** `toData` (which may produce nothing) and `init?(data:)` (which may fail). */
  datatype Codec<!T> = Codec(toData: T -> Option<Data>, fromData: Data -> Option<T>)

  /** The one error of the protocol: bytes that do not decode to the expected type. */
  datatype DataConvertibleError = DidNotConvertDataToExpectedType

  /** The item codec and the codec for arrays of items (`[T].toData`, `[T].fromData`) that
      a filesystem cache uses. */
  datatype Codecs<!T> = Codecs(item: Codec<T>, list: Codec<seq<T>>)
}
