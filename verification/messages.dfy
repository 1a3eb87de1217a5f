/**
 * The wire messages the client builds, the outcomes it returns, and the
 * remote service it talks to.
 *
 * Requests are named after the protocol's messages. The remote service is not
 * part of this model: a `Transport` stands for it, one total function per
 * reply shape, so that the client's contracts can say exactly which request
 * it sends and what it does with whatever comes back.
 */
module Messages {
  import opened Ints

  datatype Option<T> = None | Some(value: T)

  /** A transport or protocol fault: a status code and a message. */
  datatype Status = Status(code: int, message: string)

  /** The status code of an internal error, as the RPC framework numbers it. */
  const Internal: int := 13

  /**
   * Every client operation either fails with a `Status` (the transport axis)
   * or returns the server's reply, whose `bool` is the semantic result flag.
   */
  datatype Result<T> = Ok(value: T) | Err(status: Status)

  /**
   * The single-shot requests of the core, one constructor per protocol message.
   * The protocol calls the value field `data` in all four write messages; the
   * signed ones are `signedData` here because Dafny gives a shared field one type.
   */
  datatype Request =
    | WriteMemURequest(id: u32, offset: u64, data: u64, size: u64)
    | WriteMemIRequest(id: u32, offset: u64, signedData: i64, size: u64)
    | ReadMemRequest(id: u32, offset: u64, size: u64)
    | WriteRegURequest(id: u32, reg: u64, data: u64, size: u64)
    | WriteRegIRequest(id: u32, reg: u64, signedData: i64, size: u64)
    | ReadRegRequest(id: u32, reg: u64, size: u64)
    | UnloadRequest(slot: i32)

  /** One frame of the firmware upload stream. */
  datatype UploadFirmwareRequest = UploadFirmwareRequest(name: string, data: seq<u8>)

  /**
   * The remote service as the client sees it.
   * - `send`: an RPC whose reply carries only the result flag; the request
   *   message selects the RPC (write_mem_u, write_mem_i, write_reg_u,
   *   write_reg_i, unload).
   * - `readU` / `readI`: read_mem_u / read_reg_u and read_mem_i / read_reg_i;
   *   the request message selects memory or register space.
   * - `uploadFirmware`: the client-streaming upload RPC; it receives the whole
   *   frame sequence in order and gives one aggregate reply.
   */
  datatype Transport = Transport(
    send: Request -> Result<bool>,
    readU: Request -> Result<(bool, u64)>,
    readI: Request -> Result<(bool, i64)>,
    uploadFirmware: seq<UploadFirmwareRequest> -> Result<bool>)
}
