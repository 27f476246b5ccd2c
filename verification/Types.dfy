/** Small types that several modules share. */
module Types {

  datatype Option<+T> = None | Some(value: T)

  newtype Byte = x: int | 0 <= x < 0x100
  newtype U32 = x: int | 0 <= x < 0x1_0000_0000
  newtype U64 = x: int | 0 <= x < 0x1_0000_0000_0000_0000

  type Bytes = seq<Byte>

  /** A digest. */
  type Hash = s: Bytes | |s| == 32 witness seq(32, _ => 0)
}
