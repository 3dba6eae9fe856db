/** The catalogue's value types: the item record and the primitive types it is built from. */
module Domain {

  /** A Kotlin/JVM `Int`: a signed 32-bit integer. Item codes are of this type. */
  newtype Int32 = x: int | -0x8000_0000 <= x < 0x8000_0000

  /** A 128-bit UUID. The catalogue never computes with it; it is only stored and compared. */
  newtype Uuid = x: int | 0 <= x < 0x1_0000_0000_0000_0000_0000_0000_0000_0000

  /** A catalogue entry: the generated identifier, the lookup code, a title and a description. */
  datatype Item = Item(identifier: Uuid, code: Int32, title: string, description: string)
}
