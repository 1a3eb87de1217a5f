# Jelly FPGA client: chunked upload and fixed-width accessors

This project models, in Dafny, the part of the Jelly FPGA control client
(`src/lib.rs`) that computes anything on the client side:

- **The chunked firmware upload.** `upload_firmware` wraps the payload in a
  `DataStream` with a name, the data, a 2 MiB chunk size and an offset.
  Each poll either ends the stream, once the offset has reached the end, or
  emits the next slice of at most 2 MiB tagged with the firmware name. It
  then moves the offset past that slice. The model is the class
  `Upload.DataStream` with a mutable `offset` and a `Next` method. The
  upload is a loop that drains the stream and hands the frames to the
  transport. The ghost function `Pending` and the function `Frames` give
  the frames still to come, so the whole-stream properties can be proved:
  concatenation, size bounds, count and name tags.
- **The fixed-width typed accessors.** The `write_mem_*`, `read_mem_*`,
  `write_reg_*` and `read_reg_*` wrappers call the generic `*_u` / `*_i`
  operations with `size` fixed at 1, 2, 4 or 8. They widen the value they
  write (zero- or sign-extension) and narrow the 64-bit value they read
  (`as u8`, `as i8`, ...). The narrowing casts are written once, in
  `Ints`, parameterised by the width. The client functions are pure and
  take a `Transport`, one total function per reply shape, which stands for
  the remote server. Their contracts name the exact request built and say
  how the reply is transformed.

Modules: `Ints` (ints.dfy) holds the Rust integer types and the casts.
`Messages` (messages.dfy) holds the requests, `Result`/`Status` and
`Transport`. `Upload` (upload.dfy) holds the stream and the upload.
`Client` (client.dfy) holds the accessors and `unload_all`.

Outcomes mirror the Rust signatures. `Err(status)` is a transport fault
(`tonic::Status`); `Ok(v)` carries the server's reply, whose `bool` is the
semantic result flag. Both are passed through untouched.

The wrappers widen on write and narrow on read. A write sends `data as u64`
or `data as i64`, which keeps the value: zero-extension for unsigned,
sign-extension for signed (src/lib.rs:276, 334). A read narrows the 64-bit
reply with `as uN` or `as iN`, which keeps its low 8N bits read as unsigned or
as two's complement (src/lib.rs:387, 439).

## Model

| member | source | states |
|---|---|---|
| Client.Unload | src/lib.rs:43-47 | sends exactly one unload request carrying `slot` and returns the transport outcome (error or result flag) unchanged |
| Client.UnloadAll | src/lib.rs:50-54 | unloads slot 0 and nothing else: the request is `UnloadRequest(0)` |
| Upload.DataStream.constructor | src/lib.rs:90-95 | a new stream holds the name and the payload, chunk size 2 MiB and offset 0, so all of `Frames(name, data, 2 MiB)` is pending |
| Upload.DataStream.Next | src/lib.rs:72-87 | when offset has reached the end it returns `None` and changes nothing; otherwise it returns the slice from offset to min(offset + chunk size, length) tagged with the name, moves offset exactly past it (never backwards, never beyond the end), and the frames still pending shrink by exactly the frame returned |
| Upload.UploadFirmware | src/lib.rs:57-99 | the transport receives exactly `Frames(name, data, 2 MiB)`, in emission order, by draining the stream to its end, and its single aggregate reply is the result |
| Upload.UploadFirmwareFile | src/lib.rs:102-108 | a failed file read yields an internal-error status naming the path and the read error, without using the transport; a successful read uploads the bytes as `UploadFirmware` does |
| Upload.FramesConcat | src/lib.rs:77-79 | joining the payloads of the emitted frames in order gives back exactly the original data |
| Upload.FramesBounded | src/lib.rs:73-84 | every emitted frame carries the upload name and between 1 and chunk-size bytes; none is empty |
| Upload.FramesFull | src/lib.rs:77 | every frame except the last is a full chunk |
| Upload.FramesCount | src/lib.rs:73-75 | the stream emits ceil(length / chunk size) frames, so an empty payload gives none |
| Ints.NarrowU | src/lib.rs:387 | `x as uN` is the one N-bit unsigned value with the same low N bits as x |
| Ints.ToSigned | src/lib.rs:439 | reading N bits as two's complement gives an N-bit signed value with the same bits, negative exactly when the sign bit is set |
| Ints.NarrowI | src/lib.rs:439 | `x as iN` is the one N-bit signed value with the same low N bits as x |
| Ints.UnsignedUnique | src/lib.rs:387 | two N-bit unsigned values with the same low N bits are equal, so the narrowing result is determined |
| Ints.SignedUnique | src/lib.rs:439 | two N-bit signed values with the same low N bits are equal |
| Ints.NarrowUWidened | src/lib.rs:276 | narrowing a zero-extended value back to its width returns it: `(x as u64) as uN == x` |
| Ints.NarrowIWidened | src/lib.rs:334 | narrowing a sign-extended value back to its width returns it: `(x as i64) as iN == x` |
| Ints.NarrowOnlyLowBits | src/lib.rs:387 | narrowing, signed or unsigned, depends only on the low N bits of the input |
| Ints.NarrowIKeepsLowBits | src/lib.rs:439 | `x as iN` on an i64 takes the low N bits of the 64-bit two's-complement pattern and reads them as two's complement |
| Ints.SignExtension | src/lib.rs:334 | the 64-bit pattern of `x as i64` is the N-bit pattern of x with every higher bit equal to the sign bit |
| Ints.ZeroExtension | src/lib.rs:276 | the 64-bit pattern of `x as u64` equals the N-bit pattern of x, so every higher bit is clear |
| Ints.SameBitsTwoReadings | src/lib.rs:601-660 | the signed and unsigned narrowings of one width agree bit for bit; the unsigned reading exceeds the signed one by 2^N exactly when the sign bit is set |
| Client.WriteMemU | src/lib.rs:252-267 | sends one `WriteMemURequest` with id, offset, data and size unchanged and returns the transport outcome unchanged |
| Client.WriteMemI | src/lib.rs:310-325 | sends one `WriteMemIRequest` with id, offset, data and size unchanged and returns the transport outcome unchanged |
| Client.ReadMemU | src/lib.rs:368-378 | sends one `ReadMemRequest` to the unsigned read RPC and returns its (flag, u64) reply unchanged |
| Client.ReadMemI | src/lib.rs:420-430 | sends one `ReadMemRequest` to the signed read RPC and returns its (flag, i64) reply unchanged |
| Client.WriteMemU8 | src/lib.rs:270-277 | sends `WriteMemURequest` with the value zero-extended (value unchanged) and size 1 |
| Client.WriteMemI8 | src/lib.rs:328-335 | sends `WriteMemIRequest` with the value sign-extended (value unchanged) and size 1 |
| Client.WriteMemU16 | src/lib.rs:280-287 | sends `WriteMemURequest` with the value zero-extended (value unchanged) and size 2 |
| Client.WriteMemI16 | src/lib.rs:338-345 | sends `WriteMemIRequest` with the value sign-extended (value unchanged) and size 2 |
| Client.WriteMemU32 | src/lib.rs:290-297 | sends `WriteMemURequest` with the value zero-extended (value unchanged) and size 4 |
| Client.WriteMemI32 | src/lib.rs:348-355 | sends `WriteMemIRequest` with the value sign-extended (value unchanged) and size 4 |
| Client.WriteMemU64 | src/lib.rs:300-307 | sends `WriteMemURequest` with the value unchanged and size 8 |
| Client.WriteMemI64 | src/lib.rs:358-365 | sends `WriteMemIRequest` with the value unchanged and size 8 |
| Client.ReadMemU8 | src/lib.rs:381-388 | requests size 1; a transport error passes through unchanged; otherwise the result flag is kept and the value is the unsigned value of the low 8 bits of the reply |
| Client.ReadMemI8 | src/lib.rs:433-440 | requests size 1; a transport error passes through unchanged; otherwise the result flag is kept and the value is the low 8 bits of the reply read as two's complement |
| Client.ReadMemU16 | src/lib.rs:391-398 | requests size 2; a transport error passes through unchanged; otherwise the result flag is kept and the value is the unsigned value of the low 16 bits of the reply |
| Client.ReadMemI16 | src/lib.rs:443-450 | requests size 2; a transport error passes through unchanged; otherwise the result flag is kept and the value is the low 16 bits of the reply read as two's complement |
| Client.ReadMemU32 | src/lib.rs:401-408 | requests size 4; a transport error passes through unchanged; otherwise the result flag is kept and the value is the unsigned value of the low 32 bits of the reply |
| Client.ReadMemI32 | src/lib.rs:453-460 | requests size 4; a transport error passes through unchanged; otherwise the result flag is kept and the value is the low 32 bits of the reply read as two's complement |
| Client.ReadMemU64 | src/lib.rs:411-417 | requests size 8 and returns the reply unchanged |
| Client.ReadMemI64 | src/lib.rs:463-469 | requests size 8 and returns the reply unchanged |
| Client.MemURoundTrip | src/lib.rs:381-417 | an unsigned memory value of width w read back with the width-w accessor is returned unchanged with flag true, whenever the reply has its low w bytes and flag true, whatever the upper bytes |
| Client.MemIRoundTrip | src/lib.rs:433-469 | a signed memory value of width w read back with the width-w accessor is returned unchanged with flag true, whenever the reply has its low w bytes and flag true, whatever the upper bytes |
| Client.WriteRegU | src/lib.rs:472-487 | sends one `WriteRegURequest` with id, reg, data and size unchanged and returns the transport outcome unchanged |
| Client.WriteRegI | src/lib.rs:530-545 | sends one `WriteRegIRequest` with id, reg, data and size unchanged and returns the transport outcome unchanged |
| Client.ReadRegU | src/lib.rs:588-598 | sends one `ReadRegRequest` to the unsigned read RPC and returns its (flag, u64) reply unchanged |
| Client.ReadRegI | src/lib.rs:640-650 | sends one `ReadRegRequest` to the signed read RPC and returns its (flag, i64) reply unchanged |
| Client.WriteRegU8 | src/lib.rs:490-497 | sends `WriteRegURequest` with the value zero-extended (value unchanged) and size 1 |
| Client.WriteRegI8 | src/lib.rs:548-555 | sends `WriteRegIRequest` with the value sign-extended (value unchanged) and size 1 |
| Client.WriteRegU16 | src/lib.rs:500-507 | sends `WriteRegURequest` with the value zero-extended (value unchanged) and size 2 |
| Client.WriteRegI16 | src/lib.rs:558-565 | sends `WriteRegIRequest` with the value sign-extended (value unchanged) and size 2 |
| Client.WriteRegU32 | src/lib.rs:510-517 | sends `WriteRegURequest` with the value zero-extended (value unchanged) and size 4 |
| Client.WriteRegI32 | src/lib.rs:568-575 | sends `WriteRegIRequest` with the value sign-extended (value unchanged) and size 4 |
| Client.WriteRegU64 | src/lib.rs:520-527 | sends `WriteRegURequest` with the value unchanged and size 8 |
| Client.WriteRegI64 | src/lib.rs:578-585 | sends `WriteRegIRequest` with the value unchanged and size 8 |
| Client.ReadRegU8 | src/lib.rs:601-608 | requests size 1; a transport error passes through unchanged; otherwise the result flag is kept and the value is the unsigned value of the low 8 bits of the reply |
| Client.ReadRegI8 | src/lib.rs:653-660 | requests size 1; a transport error passes through unchanged; otherwise the result flag is kept and the value is the low 8 bits of the reply read as two's complement |
| Client.ReadRegU16 | src/lib.rs:611-618 | requests size 2; a transport error passes through unchanged; otherwise the result flag is kept and the value is the unsigned value of the low 16 bits of the reply |
| Client.ReadRegI16 | src/lib.rs:663-670 | requests size 2; a transport error passes through unchanged; otherwise the result flag is kept and the value is the low 16 bits of the reply read as two's complement |
| Client.ReadRegU32 | src/lib.rs:621-628 | requests size 4; a transport error passes through unchanged; otherwise the result flag is kept and the value is the unsigned value of the low 32 bits of the reply |
| Client.ReadRegI32 | src/lib.rs:673-680 | requests size 4; a transport error passes through unchanged; otherwise the result flag is kept and the value is the low 32 bits of the reply read as two's complement |
| Client.ReadRegU64 | src/lib.rs:631-637 | requests size 8 and returns the reply unchanged |
| Client.ReadRegI64 | src/lib.rs:683-689 | requests size 8 and returns the reply unchanged |
| Client.RegURoundTrip | src/lib.rs:601-637 | an unsigned register value of width w read back with the width-w accessor is returned unchanged with flag true, whenever the reply has its low w bytes and flag true, whatever the upper bytes |
| Client.RegIRoundTrip | src/lib.rs:653-689 | a signed register value of width w read back with the width-w accessor is returned unchanged with flag true, whenever the reply has its low w bytes and flag true, whatever the upper bytes |
| Client.RegByteTwoReadings | src/lib.rs:601-660 | for every i8 value x and register: when both read RPCs reply with flag true and x's low byte, `read_reg_i8` gives x and `read_reg_u8` gives the same byte read as unsigned (x mod 256, so -1 reads as 255) |

## Left out

- Connection setup (`connect`, the channel and endpoint) is network I/O. The `Transport` parameter stands for the connected stub.
- `async`/`await` and the `Stream`/`Poll`/`Context` machinery are not modelled. `poll_next` is a plain sequential `Next`.
- Upload.UploadFirmware: the transport is given the whole frame sequence at once. Interleaving of frame production with sending is not modelled; only the order of the frames is.
- Reset, load, bitstream and overlay loading, firmware removal, `dts_to_dtb`, `bitstream_to_bin`, the three `open_*` calls, `close`, `subclone`, `get_addr`, `get_size`, `get_phys_addr`, `mem_copy_to` and `mem_copy_from` are not modelled. Each is a single request whose outcome the unseen server decides.
- No law such as "a read after a write returns the value" or "a closed handle fails" is modelled. These are server behaviour. The round-trip lemmas instead take the reply's low bytes as a hypothesis.
- The server's reduction of a written value to `size` bytes, and its extension of a stored value on read, are not modelled. The client only fills in `size`; what the server does with it is decided remotely.
- The float accessors (`write_mem_f32` through `read_reg_f64`) are not modelled. They carry floating-point values and compute nothing beyond a fixed `size` of 4 or 8.
- The file read of `upload_firmware_file` is not modelled. `Upload.UploadFirmwareFile` takes its outcome as a parameter, and the text of the I/O error is an opaque string.
- The example drivers and `build.rs` are not modelled.
