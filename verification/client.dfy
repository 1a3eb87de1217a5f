/**
 * The client's memory and register accessors and its slot unloading.
 *
 * Each operation builds one request, hands it to the transport, and returns
 * the transport's outcome. A transport error comes back unchanged and the
 * result flag is passed through; the fixed-width accessors only fix the
 * `size` field to their width, widen the value they write to 64 bits, and
 * narrow the 64-bit value they read to their width.
 */
module Client {
  import opened Ints
  import opened Messages

  /** unload: asks the server to unload the firmware in `slot`. */
  function Unload(t: Transport, slot: i32): (r: Result<bool>)
    ensures r == t.send(UnloadRequest(slot))
  {
    t.send(UnloadRequest(slot))
  }

  /**
   * unload_all: despite its name, unloads slot 0 only; the protocol has no
   * way to list the loaded slots.
   */
  function UnloadAll(t: Transport): (r: Result<bool>)
    ensures r == t.send(UnloadRequest(0))
  {
    Unload(t, 0)
  }

  // ---- memory space ----

  /** write_mem_u: writes `data` at `offset` with the caller's `size`. */
  function WriteMemU(t: Transport, id: u32, offset: u64, data: u64, size: u64): (r: Result<bool>)
    ensures r == t.send(WriteMemURequest(id, offset, data, size))
  {
    t.send(WriteMemURequest(id, offset, data, size))
  }

  /** write_mem_i: writes the signed `data` at `offset` with the caller's `size`. */
  function WriteMemI(t: Transport, id: u32, offset: u64, data: i64, size: u64): (r: Result<bool>)
    ensures r == t.send(WriteMemIRequest(id, offset, data, size))
  {
    t.send(WriteMemIRequest(id, offset, data, size))
  }

  /** read_mem_u: reads `size` bytes at `offset` as an unsigned value. */
  function ReadMemU(t: Transport, id: u32, offset: u64, size: u64): (r: Result<(bool, u64)>)
    ensures r == t.readU(ReadMemRequest(id, offset, size))
  {
    t.readU(ReadMemRequest(id, offset, size))
  }

  /** read_mem_i: reads `size` bytes at `offset` as a signed value. */
  function ReadMemI(t: Transport, id: u32, offset: u64, size: u64): (r: Result<(bool, i64)>)
    ensures r == t.readI(ReadMemRequest(id, offset, size))
  {
    t.readI(ReadMemRequest(id, offset, size))
  }

  /** write_mem_u8: sends `data` zero-extended to 64 bits (its value unchanged) with size 1. */
  function WriteMemU8(t: Transport, id: u32, offset: u64, data: u8): (r: Result<bool>)
    ensures r == t.send(WriteMemURequest(id, offset, data as u64, 1))
  {
    WriteMemU(t, id, offset, data as u64, 1)
  }

  /** write_mem_i8: sends `data` sign-extended to 64 bits (its value unchanged) with size 1. */
  function WriteMemI8(t: Transport, id: u32, offset: u64, data: i8): (r: Result<bool>)
    ensures r == t.send(WriteMemIRequest(id, offset, data as i64, 1))
  {
    WriteMemI(t, id, offset, data as i64, 1)
  }

  /** write_mem_u16: sends `data` zero-extended to 64 bits (its value unchanged) with size 2. */
  function WriteMemU16(t: Transport, id: u32, offset: u64, data: u16): (r: Result<bool>)
    ensures r == t.send(WriteMemURequest(id, offset, data as u64, 2))
  {
    WriteMemU(t, id, offset, data as u64, 2)
  }

  /** write_mem_i16: sends `data` sign-extended to 64 bits (its value unchanged) with size 2. */
  function WriteMemI16(t: Transport, id: u32, offset: u64, data: i16): (r: Result<bool>)
    ensures r == t.send(WriteMemIRequest(id, offset, data as i64, 2))
  {
    WriteMemI(t, id, offset, data as i64, 2)
  }

  /** write_mem_u32: sends `data` zero-extended to 64 bits (its value unchanged) with size 4. */
  function WriteMemU32(t: Transport, id: u32, offset: u64, data: u32): (r: Result<bool>)
    ensures r == t.send(WriteMemURequest(id, offset, data as u64, 4))
  {
    WriteMemU(t, id, offset, data as u64, 4)
  }

  /** write_mem_i32: sends `data` sign-extended to 64 bits (its value unchanged) with size 4. */
  function WriteMemI32(t: Transport, id: u32, offset: u64, data: i32): (r: Result<bool>)
    ensures r == t.send(WriteMemIRequest(id, offset, data as i64, 4))
  {
    WriteMemI(t, id, offset, data as i64, 4)
  }

  /** write_mem_u64: sends `data` unchanged with size 8. */
  function WriteMemU64(t: Transport, id: u32, offset: u64, data: u64): (r: Result<bool>)
    ensures r == t.send(WriteMemURequest(id, offset, data, 8))
  {
    WriteMemU(t, id, offset, data, 8)
  }

  /** write_mem_i64: sends `data` unchanged with size 8. */
  function WriteMemI64(t: Transport, id: u32, offset: u64, data: i64): (r: Result<bool>)
    ensures r == t.send(WriteMemIRequest(id, offset, data, 8))
  {
    WriteMemI(t, id, offset, data, 8)
  }

  /**
   * read_mem_u8: reads 1 byte and keeps the low 8 bits of the 64-bit reply,
   * as an unsigned value; a transport error and the result flag pass through.
   */
  function ReadMemU8(t: Transport, id: u32, offset: u64): (r: Result<(bool, u8)>)
    ensures match t.readU(ReadMemRequest(id, offset, 1))
      case Err(s) => r == Err(s)
      case Ok((ok, data)) => r.Ok? && r.value.0 == ok && Congruent(W1, r.value.1 as int, data as int)
  {
    match ReadMemU(t, id, offset, 1)
    case Err(s) => Err(s)
    case Ok((ok, data)) => Ok((ok, NarrowU(W1, data as int) as u8))
  }

  /**
   * read_mem_i8: reads 1 byte and keeps the low 8 bits of the 64-bit reply,
   * read as two's complement; a transport error and the result flag pass through.
   */
  function ReadMemI8(t: Transport, id: u32, offset: u64): (r: Result<(bool, i8)>)
    ensures match t.readI(ReadMemRequest(id, offset, 1))
      case Err(s) => r == Err(s)
      case Ok((ok, data)) => r.Ok? && r.value.0 == ok && Congruent(W1, r.value.1 as int, data as int)
  {
    match ReadMemI(t, id, offset, 1)
    case Err(s) => Err(s)
    case Ok((ok, data)) => Ok((ok, NarrowI(W1, data as int) as i8))
  }

  /**
   * read_mem_u16: reads 2 bytes and keeps the low 16 bits of the 64-bit reply,
   * as an unsigned value; a transport error and the result flag pass through.
   */
  function ReadMemU16(t: Transport, id: u32, offset: u64): (r: Result<(bool, u16)>)
    ensures match t.readU(ReadMemRequest(id, offset, 2))
      case Err(s) => r == Err(s)
      case Ok((ok, data)) => r.Ok? && r.value.0 == ok && Congruent(W2, r.value.1 as int, data as int)
  {
    match ReadMemU(t, id, offset, 2)
    case Err(s) => Err(s)
    case Ok((ok, data)) => Ok((ok, NarrowU(W2, data as int) as u16))
  }

  /**
   * read_mem_i16: reads 2 bytes and keeps the low 16 bits of the 64-bit reply,
   * read as two's complement; a transport error and the result flag pass through.
   */
  function ReadMemI16(t: Transport, id: u32, offset: u64): (r: Result<(bool, i16)>)
    ensures match t.readI(ReadMemRequest(id, offset, 2))
      case Err(s) => r == Err(s)
      case Ok((ok, data)) => r.Ok? && r.value.0 == ok && Congruent(W2, r.value.1 as int, data as int)
  {
    match ReadMemI(t, id, offset, 2)
    case Err(s) => Err(s)
    case Ok((ok, data)) => Ok((ok, NarrowI(W2, data as int) as i16))
  }

  /**
   * read_mem_u32: reads 4 bytes and keeps the low 32 bits of the 64-bit reply,
   * as an unsigned value; a transport error and the result flag pass through.
   */
  function ReadMemU32(t: Transport, id: u32, offset: u64): (r: Result<(bool, u32)>)
    ensures match t.readU(ReadMemRequest(id, offset, 4))
      case Err(s) => r == Err(s)
      case Ok((ok, data)) => r.Ok? && r.value.0 == ok && Congruent(W4, r.value.1 as int, data as int)
  {
    match ReadMemU(t, id, offset, 4)
    case Err(s) => Err(s)
    case Ok((ok, data)) => Ok((ok, NarrowU(W4, data as int) as u32))
  }

  /**
   * read_mem_i32: reads 4 bytes and keeps the low 32 bits of the 64-bit reply,
   * read as two's complement; a transport error and the result flag pass through.
   */
  function ReadMemI32(t: Transport, id: u32, offset: u64): (r: Result<(bool, i32)>)
    ensures match t.readI(ReadMemRequest(id, offset, 4))
      case Err(s) => r == Err(s)
      case Ok((ok, data)) => r.Ok? && r.value.0 == ok && Congruent(W4, r.value.1 as int, data as int)
  {
    match ReadMemI(t, id, offset, 4)
    case Err(s) => Err(s)
    case Ok((ok, data)) => Ok((ok, NarrowI(W4, data as int) as i32))
  }

  /** read_mem_u64: reads 8 bytes; the reply is returned as it is. */
  function ReadMemU64(t: Transport, id: u32, offset: u64): (r: Result<(bool, u64)>)
    ensures r == t.readU(ReadMemRequest(id, offset, 8))
  {
    ReadMemU(t, id, offset, 8)
  }

  /** read_mem_i64: reads 8 bytes; the reply is returned as it is. */
  function ReadMemI64(t: Transport, id: u32, offset: u64): (r: Result<(bool, i64)>)
    ensures r == t.readI(ReadMemRequest(id, offset, 8))
  {
    ReadMemI(t, id, offset, 8)
  }

  // ---- register space ----

  /** write_reg_u: writes `data` at `reg` with the caller's `size`. */
  function WriteRegU(t: Transport, id: u32, reg: u64, data: u64, size: u64): (r: Result<bool>)
    ensures r == t.send(WriteRegURequest(id, reg, data, size))
  {
    t.send(WriteRegURequest(id, reg, data, size))
  }

  /** write_reg_i: writes the signed `data` at `reg` with the caller's `size`. */
  function WriteRegI(t: Transport, id: u32, reg: u64, data: i64, size: u64): (r: Result<bool>)
    ensures r == t.send(WriteRegIRequest(id, reg, data, size))
  {
    t.send(WriteRegIRequest(id, reg, data, size))
  }

  /** read_reg_u: reads `size` bytes at `reg` as an unsigned value. */
  function ReadRegU(t: Transport, id: u32, reg: u64, size: u64): (r: Result<(bool, u64)>)
    ensures r == t.readU(ReadRegRequest(id, reg, size))
  {
    t.readU(ReadRegRequest(id, reg, size))
  }

  /** read_reg_i: reads `size` bytes at `reg` as a signed value. */
  function ReadRegI(t: Transport, id: u32, reg: u64, size: u64): (r: Result<(bool, i64)>)
    ensures r == t.readI(ReadRegRequest(id, reg, size))
  {
    t.readI(ReadRegRequest(id, reg, size))
  }

  /** write_reg_u8: sends `data` zero-extended to 64 bits (its value unchanged) with size 1. */
  function WriteRegU8(t: Transport, id: u32, reg: u64, data: u8): (r: Result<bool>)
    ensures r == t.send(WriteRegURequest(id, reg, data as u64, 1))
  {
    WriteRegU(t, id, reg, data as u64, 1)
  }

  /** write_reg_i8: sends `data` sign-extended to 64 bits (its value unchanged) with size 1. */
  function WriteRegI8(t: Transport, id: u32, reg: u64, data: i8): (r: Result<bool>)
    ensures r == t.send(WriteRegIRequest(id, reg, data as i64, 1))
  {
    WriteRegI(t, id, reg, data as i64, 1)
  }

  /** write_reg_u16: sends `data` zero-extended to 64 bits (its value unchanged) with size 2. */
  function WriteRegU16(t: Transport, id: u32, reg: u64, data: u16): (r: Result<bool>)
    ensures r == t.send(WriteRegURequest(id, reg, data as u64, 2))
  {
    WriteRegU(t, id, reg, data as u64, 2)
  }

  /** write_reg_i16: sends `data` sign-extended to 64 bits (its value unchanged) with size 2. */
  function WriteRegI16(t: Transport, id: u32, reg: u64, data: i16): (r: Result<bool>)
    ensures r == t.send(WriteRegIRequest(id, reg, data as i64, 2))
  {
    WriteRegI(t, id, reg, data as i64, 2)
  }

  /** write_reg_u32: sends `data` zero-extended to 64 bits (its value unchanged) with size 4. */
  function WriteRegU32(t: Transport, id: u32, reg: u64, data: u32): (r: Result<bool>)
    ensures r == t.send(WriteRegURequest(id, reg, data as u64, 4))
  {
    WriteRegU(t, id, reg, data as u64, 4)
  }

  /** write_reg_i32: sends `data` sign-extended to 64 bits (its value unchanged) with size 4. */
  function WriteRegI32(t: Transport, id: u32, reg: u64, data: i32): (r: Result<bool>)
    ensures r == t.send(WriteRegIRequest(id, reg, data as i64, 4))
  {
    WriteRegI(t, id, reg, data as i64, 4)
  }

  /** write_reg_u64: sends `data` unchanged with size 8. */
  function WriteRegU64(t: Transport, id: u32, reg: u64, data: u64): (r: Result<bool>)
    ensures r == t.send(WriteRegURequest(id, reg, data, 8))
  {
    WriteRegU(t, id, reg, data, 8)
  }

  /** write_reg_i64: sends `data` unchanged with size 8. */
  function WriteRegI64(t: Transport, id: u32, reg: u64, data: i64): (r: Result<bool>)
    ensures r == t.send(WriteRegIRequest(id, reg, data, 8))
  {
    WriteRegI(t, id, reg, data, 8)
  }

  /**
   * read_reg_u8: reads 1 byte and keeps the low 8 bits of the 64-bit reply,
   * as an unsigned value; a transport error and the result flag pass through.
   */
  function ReadRegU8(t: Transport, id: u32, reg: u64): (r: Result<(bool, u8)>)
    ensures match t.readU(ReadRegRequest(id, reg, 1))
      case Err(s) => r == Err(s)
      case Ok((ok, data)) => r.Ok? && r.value.0 == ok && Congruent(W1, r.value.1 as int, data as int)
  {
    match ReadRegU(t, id, reg, 1)
    case Err(s) => Err(s)
    case Ok((ok, data)) => Ok((ok, NarrowU(W1, data as int) as u8))
  }

  /**
   * read_reg_i8: reads 1 byte and keeps the low 8 bits of the 64-bit reply,
   * read as two's complement; a transport error and the result flag pass through.
   */
  function ReadRegI8(t: Transport, id: u32, reg: u64): (r: Result<(bool, i8)>)
    ensures match t.readI(ReadRegRequest(id, reg, 1))
      case Err(s) => r == Err(s)
      case Ok((ok, data)) => r.Ok? && r.value.0 == ok && Congruent(W1, r.value.1 as int, data as int)
  {
    match ReadRegI(t, id, reg, 1)
    case Err(s) => Err(s)
    case Ok((ok, data)) => Ok((ok, NarrowI(W1, data as int) as i8))
  }

  /**
   * read_reg_u16: reads 2 bytes and keeps the low 16 bits of the 64-bit reply,
   * as an unsigned value; a transport error and the result flag pass through.
   */
  function ReadRegU16(t: Transport, id: u32, reg: u64): (r: Result<(bool, u16)>)
    ensures match t.readU(ReadRegRequest(id, reg, 2))
      case Err(s) => r == Err(s)
      case Ok((ok, data)) => r.Ok? && r.value.0 == ok && Congruent(W2, r.value.1 as int, data as int)
  {
    match ReadRegU(t, id, reg, 2)
    case Err(s) => Err(s)
    case Ok((ok, data)) => Ok((ok, NarrowU(W2, data as int) as u16))
  }

  /**
   * read_reg_i16: reads 2 bytes and keeps the low 16 bits of the 64-bit reply,
   * read as two's complement; a transport error and the result flag pass through.
   */
  function ReadRegI16(t: Transport, id: u32, reg: u64): (r: Result<(bool, i16)>)
    ensures match t.readI(ReadRegRequest(id, reg, 2))
      case Err(s) => r == Err(s)
      case Ok((ok, data)) => r.Ok? && r.value.0 == ok && Congruent(W2, r.value.1 as int, data as int)
  {
    match ReadRegI(t, id, reg, 2)
    case Err(s) => Err(s)
    case Ok((ok, data)) => Ok((ok, NarrowI(W2, data as int) as i16))
  }

  /**
   * read_reg_u32: reads 4 bytes and keeps the low 32 bits of the 64-bit reply,
   * as an unsigned value; a transport error and the result flag pass through.
   */
  function ReadRegU32(t: Transport, id: u32, reg: u64): (r: Result<(bool, u32)>)
    ensures match t.readU(ReadRegRequest(id, reg, 4))
      case Err(s) => r == Err(s)
      case Ok((ok, data)) => r.Ok? && r.value.0 == ok && Congruent(W4, r.value.1 as int, data as int)
  {
    match ReadRegU(t, id, reg, 4)
    case Err(s) => Err(s)
    case Ok((ok, data)) => Ok((ok, NarrowU(W4, data as int) as u32))
  }

  /**
   * read_reg_i32: reads 4 bytes and keeps the low 32 bits of the 64-bit reply,
   * read as two's complement; a transport error and the result flag pass through.
   */
  function ReadRegI32(t: Transport, id: u32, reg: u64): (r: Result<(bool, i32)>)
    ensures match t.readI(ReadRegRequest(id, reg, 4))
      case Err(s) => r == Err(s)
      case Ok((ok, data)) => r.Ok? && r.value.0 == ok && Congruent(W4, r.value.1 as int, data as int)
  {
    match ReadRegI(t, id, reg, 4)
    case Err(s) => Err(s)
    case Ok((ok, data)) => Ok((ok, NarrowI(W4, data as int) as i32))
  }

  /** read_reg_u64: reads 8 bytes; the reply is returned as it is. */
  function ReadRegU64(t: Transport, id: u32, reg: u64): (r: Result<(bool, u64)>)
    ensures r == t.readU(ReadRegRequest(id, reg, 8))
  {
    ReadRegU(t, id, reg, 8)
  }

  /** read_reg_i64: reads 8 bytes; the reply is returned as it is. */
  function ReadRegI64(t: Transport, id: u32, reg: u64): (r: Result<(bool, i64)>)
    ensures r == t.readI(ReadRegRequest(id, reg, 8))
  {
    ReadRegI(t, id, reg, 8)
  }

  // ---- round trips ----

  /**
   * The reply to an unsigned read that finds the low w bytes of `x` stored,
   * with the result flag set, whatever the server puts in the upper bytes.
   */
  predicate EchoesU(reply: Result<(bool, u64)>, w: Width, x: int)
  {
    reply.Ok? && reply.value.0 && Congruent(w, reply.value.1 as int, x)
  }

  /** The same for a signed read. */
  predicate EchoesI(reply: Result<(bool, i64)>, w: Width, x: int)
  {
    reply.Ok? && reply.value.0 && Congruent(w, reply.value.1 as int, x)
  }

  /**
   * The width-w unsigned memory read returns x with flag true whenever the reply
   * carries the flag and x's low w bytes, whatever its upper bytes hold. The
   * width-w write of x sends x itself, so this is the read-back of that write.
   */
  lemma MemURoundTrip(t: Transport, id: u32, offset: u64, w: Width, x: int)
    requires InUnsigned(w, x)
    requires EchoesU(t.readU(ReadMemRequest(id, offset, w.Bytes())), w, x)
    ensures match w
      case W1 => ReadMemU8(t, id, offset) == Ok((true, x as u8))
      case W2 => ReadMemU16(t, id, offset) == Ok((true, x as u16))
      case W4 => ReadMemU32(t, id, offset) == Ok((true, x as u32))
      case W8 => ReadMemU64(t, id, offset) == Ok((true, x as u64))
  {
  }

  /**
   * The width-w signed memory read returns x with flag true whenever the reply
   * carries the flag and x's low w bytes, whatever its upper bytes hold. The
   * width-w write of x sends x itself, so this is the read-back of that write.
   */
  lemma MemIRoundTrip(t: Transport, id: u32, offset: u64, w: Width, x: int)
    requires InSigned(w, x)
    requires EchoesI(t.readI(ReadMemRequest(id, offset, w.Bytes())), w, x)
    ensures match w
      case W1 => ReadMemI8(t, id, offset) == Ok((true, x as i8))
      case W2 => ReadMemI16(t, id, offset) == Ok((true, x as i16))
      case W4 => ReadMemI32(t, id, offset) == Ok((true, x as i32))
      case W8 => ReadMemI64(t, id, offset) == Ok((true, x as i64))
  {
  }

  /**
   * The width-w unsigned register read returns x with flag true whenever the reply
   * carries the flag and x's low w bytes, whatever its upper bytes hold. The
   * width-w write of x sends x itself, so this is the read-back of that write.
   */
  lemma RegURoundTrip(t: Transport, id: u32, reg: u64, w: Width, x: int)
    requires InUnsigned(w, x)
    requires EchoesU(t.readU(ReadRegRequest(id, reg, w.Bytes())), w, x)
    ensures match w
      case W1 => ReadRegU8(t, id, reg) == Ok((true, x as u8))
      case W2 => ReadRegU16(t, id, reg) == Ok((true, x as u16))
      case W4 => ReadRegU32(t, id, reg) == Ok((true, x as u32))
      case W8 => ReadRegU64(t, id, reg) == Ok((true, x as u64))
  {
  }

  /**
   * The width-w signed register read returns x with flag true whenever the reply
   * carries the flag and x's low w bytes, whatever its upper bytes hold. The
   * width-w write of x sends x itself, so this is the read-back of that write.
   */
  lemma RegIRoundTrip(t: Transport, id: u32, reg: u64, w: Width, x: int)
    requires InSigned(w, x)
    requires EchoesI(t.readI(ReadRegRequest(id, reg, w.Bytes())), w, x)
    ensures match w
      case W1 => ReadRegI8(t, id, reg) == Ok((true, x as i8))
      case W2 => ReadRegI16(t, id, reg) == Ok((true, x as i16))
      case W4 => ReadRegI32(t, id, reg) == Ok((true, x as i32))
      case W8 => ReadRegI64(t, id, reg) == Ok((true, x as i64))
  {
  }

  /**
   * One register byte, two readings: when both read RPCs reply with the low
   * byte of an i8 value x, the signed accessor gives back x and the unsigned
   * one the same bits read as unsigned (so -1 reads as 255).
   */
  lemma RegByteTwoReadings(t: Transport, id: u32, reg: u64, x: i8)
    requires EchoesI(t.readI(ReadRegRequest(id, reg, 1)), W1, x as int)
    requires EchoesU(t.readU(ReadRegRequest(id, reg, 1)), W1, x as int)
    ensures ReadRegI8(t, id, reg) == Ok((true, x))
    ensures ReadRegU8(t, id, reg) == Ok((true, NarrowU(W1, x as int) as u8))
    ensures x == -1 ==> ReadRegU8(t, id, reg) == Ok((true, 255))
  {
  }
}
