/** Bytes, as files, digests and responses are made of. */
module Binary {

  newtype Byte = x: int | 0 <= x < 256

  type Bytes = seq<Byte>
}
