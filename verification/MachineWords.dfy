/** Fixed-width unsigned integers of the source (include/NGIN/Primitives.hpp).  They are subset
    types, so every assignment to a variable of such a type carries the proof obligation that the
    machine operation does not wrap. */
module MachineWords {
  type UInt8 = x: int | 0 <= x < 0x100
  type UInt16 = x: int | 0 <= x < 0x1_0000
  type UInt32 = x: int | 0 <= x < 0x1_0000_0000
  type UInt64 = x: int | 0 <= x < 0x1_0000_0000_0000_0000
  type Int64 = x: int | -0x8000_0000_0000_0000 <= x < 0x8000_0000_0000_0000
}
