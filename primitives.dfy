/** The fixed-width integers and the address type that the example programs store and read. */
module Primitives {

  newtype Byte = x: int | 0 <= x < 0x100

  newtype U16 = x: int | 0 <= x < 0x1_0000

  /** Rust's `u32`. */
  newtype U32 = x: int | 0 <= x < 0x1_0000_0000

  /** `std::net::IpAddr`: four octets, or eight 16-bit segments. */
  datatype IpAddr =
    | V4(a: Byte, b: Byte, c: Byte, d: Byte)
    | V6(s0: U16, s1: U16, s2: U16, s3: U16, s4: U16, s5: U16, s6: U16, s7: U16)
}
