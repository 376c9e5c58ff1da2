/**
 * The UPDI instruction set as the programmer in src/updi.c uses it: the byte-level
 * constants, the opcode bit-fields that are OR-ed together into one instruction byte,
 * the control/status register map, the three unlock keys and the result codes.
 *
 * An instruction byte has the instruction class in bits 7..5. For the direct and
 * pointer loads and stores, bits 3..2 select the address width (direct) or the pointer
 * mode (pointer) and bits 1..0 the data width; for the control/status accesses bits 4..0
 * are the register address; REPEAT carries its counter width in bit 0; KEY carries the
 * SIB/key selector in bit 2 and the size in bits 1..0.
 */
module UpdiProtocol {
  import opened Options

  /** One byte on the wire. */
  type byte = bv8
  /** A 16-bit target address (C `uint16_t`): arithmetic on it wraps. */
  type word = bv16
  /** A C `uint8_t` used as a count. */
  type uint8 = x: int | 0 <= x < 0x100

  // Instruction classes.
  const LDS: byte := 0x00
  const STS: byte := 0x40
  const LD: byte := 0x20
  const ST: byte := 0x60
  const LDCS: byte := 0x80
  const STCS: byte := 0xC0
  const REPEAT: byte := 0xA0
  const KEY: byte := 0xE0

  // Pointer modes of LD/ST.
  const PTR: byte := 0x00
  const PTR_INC: byte := 0x04
  const PTR_ADDRESS: byte := 0x08

  // Address widths of LDS/STS.
  const ADDRESS_8: byte := 0x00
  const ADDRESS_16: byte := 0x04
  const ADDRESS_24: byte := 0x08

  // Data widths.
  const DATA_8: byte := 0x00
  const DATA_16: byte := 0x01
  const DATA_24: byte := 0x02

  // KEY selector and sizes.
  const KEY_SIB: byte := 0x04
  const KEY_KEY: byte := 0x00
  const KEY_64: byte := 0x00
  const KEY_128: byte := 0x01
  const KEY_256: byte := 0x02
  const SIB_8BYTES: byte := KEY_64
  const SIB_16BYTES: byte := KEY_128
  const SIB_32BYTES: byte := KEY_256

  // REPEAT counter widths.
  const REPEAT_BYTE: byte := 0x00
  const REPEAT_WORD: byte := 0x01

  const PHY_SYNC: byte := 0x55
  const PHY_ACK: byte := 0x40

  /** The repeat counter is one byte holding the count minus one. */
  const MAX_REPEAT_SIZE: int := 0xFF + 1

  // Control/status (CS) and ASI register addresses.
  const CS_STATUSA: byte := 0x00
  const CS_CTRLA: byte := 0x02
  const CS_CTRLB: byte := 0x03
  const ASI_KEY_STATUS: byte := 0x07
  const ASI_RESET_REQ: byte := 0x08
  const ASI_SYS_CTRLA: byte := 0x0A
  const ASI_SYS_STATUS: byte := 0x0B

  // Bit positions inside those registers.
  const CTRLA_IBDLY_BIT: nat := 7
  const CTRLB_CCDETDIS_BIT: nat := 3
  const CTRLB_UPDIDIS_BIT: nat := 2
  const KEY_STATUS_CHIPERASE: nat := 3
  const KEY_STATUS_NVMPROG: nat := 4
  const KEY_STATUS_UROWWRITE: nat := 5
  const SYS_STATUS_NVMPROG: nat := 3
  const SYS_STATUS_UROWPROG: nat := 2
  const SYS_STATUS_LOCKSTATUS: nat := 0
  const SYS_CTRLA_UROW_FINAL: nat := 1

  const RESET_REQ_VALUE: byte := 0x59

  const USERDATA_SZ: uint8 := 32
  const USERDATA_ADDR: word := 0x1300
  const KEY_SZ: nat := 8

  /** "NVMProg " sent least significant byte first: ' ', 'g', 'o', 'r', 'P', 'M', 'V', 'N'. */
  const KEY_NVM: seq<byte> := [0x20, 0x67, 0x6F, 0x72, 0x50, 0x4D, 0x56, 0x4E]
  /** "NVMErase" sent least significant byte first: 'e', 's', 'a', 'r', 'E', 'M', 'V', 'N'. */
  const KEY_CHIPERASE: seq<byte> := [0x65, 0x73, 0x61, 0x72, 0x45, 0x4D, 0x56, 0x4E]
  /** "NVMUs&te" sent least significant byte first: 'e', 't', '&', 's', 'U', 'M', 'V', 'N'. */
  const KEY_UROW: seq<byte> := [0x65, 0x74, 0x26, 0x73, 0x55, 0x4D, 0x56, 0x4E]

  /** The result codes of every engine operation (`updi_err_t`); `Ok` is the C value 0. */
  datatype Status = Ok | ModeChangeFailed | WriteFailed | InvalidSize | Timeout | Nack

  /** `1 << n` as a byte: exactly bit `n` is set. */
  function Bit(n: nat): (r: byte)
    requires n < 8
    ensures r != 0 && r & (r - 1) == 0
    ensures r >> n == 1
  {
    (1 as byte) << n
  }

  /** The C test `val & (1 << n)` read as a truth value. */
  predicate BitSet(val: byte, n: nat)
    requires n < 8
  {
    val & Bit(n) != 0
  }

  /** Low byte of a little-endian address (`address & 0xFF`). */
  function Lo(a: word): byte {
    (a & 0xFF) as byte
  }

  /** High byte of a little-endian address (`address >> 8`). */
  function Hi(a: word): byte {
    (a >> 8) as byte
  }

  // ---------------------------------------------------------------------------
  // Structured view of an instruction byte.

  datatype Width = W8 | W16 | W24
  datatype PtrMode = Deref | PostInc | SetAddress
  datatype KeySize = K64 | K128 | K256

  datatype Instr =
    | Lds(addr: Width, data: Width)
    | Sts(addr: Width, data: Width)
    | Ld(ptr: PtrMode, data: Width)
    | St(ptr: PtrMode, data: Width)
    | Ldcs(reg: byte)
    | Stcs(reg: byte)
    | Repeat(wordCount: bool)
    | Key(sib: bool, size: KeySize)

  /** The register field of LDCS/STCS is the five bits below the class. */
  predicate WellFormed(i: Instr) {
    (i.Ldcs? || i.Stcs?) ==> i.reg < 0x20
  }

  function AddressCode(w: Width): byte {
    match w
    case W8 => ADDRESS_8
    case W16 => ADDRESS_16
    case W24 => ADDRESS_24
  }

  function DataCode(w: Width): byte {
    match w
    case W8 => DATA_8
    case W16 => DATA_16
    case W24 => DATA_24
  }

  function PtrCode(p: PtrMode): byte {
    match p
    case Deref => PTR
    case PostInc => PTR_INC
    case SetAddress => PTR_ADDRESS
  }

  function KeySizeCode(k: KeySize): byte {
    match k
    case K64 => KEY_64
    case K128 => KEY_128
    case K256 => KEY_256
  }

  /** The instruction byte, built by OR-ing the class with its fields as the source does. */
  function Encode(i: Instr): byte
    requires WellFormed(i)
  {
    match i
    case Lds(a, d) => LDS | AddressCode(a) | DataCode(d)
    case Sts(a, d) => STS | AddressCode(a) | DataCode(d)
    case Ld(p, d) => LD | PtrCode(p) | DataCode(d)
    case St(p, d) => ST | PtrCode(p) | DataCode(d)
    case Ldcs(r) => LDCS | r
    case Stcs(r) => STCS | r
    case Repeat(w) => REPEAT | (if w then REPEAT_WORD else REPEAT_BYTE)
    case Key(s, k) => KEY | (if s then KEY_SIB else KEY_KEY) | KeySizeCode(k)
  }

  function WidthOf(code: byte): Option<Width> {
    if code == 0 then Some(W8) else if code == 1 then Some(W16) else if code == 2 then Some(W24) else None
  }

  function PtrOf(code: byte): Option<PtrMode> {
    if code == 0 then Some(Deref) else if code == 1 then Some(PostInc) else if code == 2 then Some(SetAddress) else None
  }

  function KeySizeOf(code: byte): Option<KeySize> {
    if code == 0 then Some(K64) else if code == 1 then Some(K128) else if code == 2 then Some(K256) else None
  }

  /** What a target makes of an instruction byte; `None` for unused field combinations. */
  function Decode(b: byte): Option<Instr> {
    var cls := b & 0xE0;
    var mid := WidthOf((b >> 2) & 3);
    var ptr := PtrOf((b >> 2) & 3);
    var low := WidthOf(b & 3);
    if cls == LDCS then Some(Ldcs(b & 0x1F))
    else if cls == STCS then Some(Stcs(b & 0x1F))
    else if cls == REPEAT then
      (if b & 0x1E != 0 then None else Some(Repeat(b & 1 == 1)))
    else if cls == KEY then
      (if b & 0x18 != 0 || KeySizeOf(b & 3).None? then None
       else Some(Key(b & 4 != 0, KeySizeOf(b & 3).value)))
    else if b & 0x10 != 0 || low.None? then None
    else if cls == LDS || cls == STS then
      (if mid.None? then None
       else if cls == LDS then Some(Lds(mid.value, low.value)) else Some(Sts(mid.value, low.value)))
    else
      (if ptr.None? then None
       else if cls == LD then Some(Ld(ptr.value, low.value)) else Some(St(ptr.value, low.value)))
  }

  // The fixed instruction bytes the engine sends, composed as in the source.
  const STS_ADDR16_DATA8: byte := STS | ADDRESS_16 | DATA_8
  const ST_PTR_ADDRESS_DATA16: byte := ST | PTR_ADDRESS | DATA_16
  const ST_PTR_INC_DATA8: byte := ST | PTR_INC | DATA_8
  const LD_PTR_INC_DATA8: byte := LD | PTR_INC | DATA_8
  const REPEAT_BYTE_COUNT: byte := REPEAT | REPEAT_BYTE
  const KEY_SEND_64: byte := KEY | SIB_8BYTES
  const KEY_READ_SIB_32: byte := KEY | KEY_SIB | SIB_32BYTES

  /** The composed instruction bytes have the values the UPDI instruction set gives them. */
  lemma OpcodeValues()
    ensures PHY_SYNC == 0x55 && PHY_ACK == 0x40 && LDCS == 0x80 && STCS == 0xC0
    ensures STS_ADDR16_DATA8 == 0x44 && ST_PTR_ADDRESS_DATA16 == 0x69 && ST_PTR_INC_DATA8 == 0x64
    ensures LD_PTR_INC_DATA8 == 0x24 && REPEAT_BYTE_COUNT == 0xA0
    ensures KEY_SEND_64 == 0xE0 && KEY_READ_SIB_32 == 0xE6
  {
  }

  /** Each of those bytes is the instruction the engine means to send. */
  lemma OpcodeFields()
    ensures Decode(STS_ADDR16_DATA8) == Some(Sts(W16, W8))
    ensures Decode(ST_PTR_ADDRESS_DATA16) == Some(St(SetAddress, W16))
    ensures Decode(ST_PTR_INC_DATA8) == Some(St(PostInc, W8))
    ensures Decode(LD_PTR_INC_DATA8) == Some(Ld(PostInc, W8))
    ensures Decode(REPEAT_BYTE_COUNT) == Some(Repeat(false))
    ensures Decode(KEY_SEND_64) == Some(Key(false, K64))
    ensures Decode(KEY_READ_SIB_32) == Some(Key(true, K256))
  {
  }

  /** Every instruction's fields survive the OR-ing: decoding its byte gives it back. */
  lemma DecodeEncode(i: Instr)
    requires WellFormed(i)
    ensures Decode(Encode(i)) == Some(i)
  {
  }

  /** Every byte that decodes is the encoding of what it decodes to. */
  lemma EncodeDecode(b: byte)
    ensures Decode(b).Some? ==> WellFormed(Decode(b).value) && Encode(Decode(b).value) == b
  {
  }
}
