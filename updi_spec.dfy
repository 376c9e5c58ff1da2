/**
 * The programmer engine of src/updi.c as functions over the link state: each function
 * gives the link an operation leaves behind (what it sent, switched and armed, and what
 * it consumed of the target's replies) together with what the operation returns.
 * The methods of UpdiEngine.Updi are proved to behave exactly as these functions say,
 * and UpdiProperties proves what the source promises about them.
 *
 * A status read returns `Some(v)` for UPDI_OK with value `v` and `None` for UPDIERR_TIMEOUT.
 * A polling loop whose countdown is `timeout` polls at most `timeout` times.
 */
module UpdiSpec {
  import opened Options
  import opened UpdiProtocol
  import opened Transport

  /** What a streamed read leaves in the caller's buffer, and its result. */
  datatype Received = Received(bytes: seq<byte>, status: Status)

  /** The result code of a status-register read. */
  function ReadStatus(r: Option<byte>): (s: Status)
    ensures s == Ok <==> r.Some?
    ensures s == Ok || s == Timeout
  {
    if r.Some? then Ok else Timeout
  }

  // ---------------------------------------------------------------------------
  // Link layer and control/status registers.

  function SendSync(w: Wire): Wire {
    Emit(w, [TxMode, Tx(PHY_SYNC)])
  }

  function WriteCsReg(w: Wire, reg: byte, val: byte): Wire {
    Emit(SendSync(w), [Tx(STCS | reg), Tx(val)])
  }

  function ReadByte(w: Wire, timeout: nat): Out<Option<byte>> {
    Await(Emit(w, [Arm(timeout)]))
  }

  function ReadCsReg(w: Wire, reg: byte): Out<Option<byte>> {
    ReadByte(Emit(SendSync(w), [Tx(LDCS | reg), Drain, RxMode]), 2000)
  }

  /** A break, the two link-configuration stores, then the STATUSA read whose value becomes the revision. */
  function SendBreak(w: Wire): Out<Option<byte>> {
    var stretched := Emit(w, [SetBaud(BreakBaud), TxMode, Tx(0x00), Tx(0x00), SetBaud(Baud115200)]);
    var configured := WriteCsReg(WriteCsReg(stretched, CS_CTRLB, Bit(CTRLB_CCDETDIS_BIT)), CS_CTRLA, Bit(CTRLA_IBDLY_BIT));
    ReadCsReg(configured, CS_STATUSA)
  }

  function CheckLink(w: Wire): Out<bool> {
    var r := ReadCsReg(w, CS_STATUSA);
    Out(r.wire, r.value.Some? && r.value.value != 0x00)
  }

  function InProgrammingMode(w: Wire): Out<bool> {
    var r := ReadCsReg(w, ASI_SYS_STATUS);
    Out(r.wire, match r.value case None => false case Some(v) => BitSet(v, SYS_STATUS_NVMPROG))
  }

  function IsLocked(w: Wire): Out<bool> {
    var r := ReadCsReg(w, ASI_SYS_STATUS);
    Out(r.wire, match r.value case None => true case Some(v) => BitSet(v, SYS_STATUS_LOCKSTATUS))
  }

  /** The polling loop of updi_wait_for_unlocked with `ticks` polls left. */
  function PollUnlocked(w: Wire, ticks: nat): (r: Out<Status>)
    decreases ticks
    ensures r.value == Ok || r.value == Timeout
  {
    if ticks == 0 then Out(w, Timeout)
    else
      var l := IsLocked(w);
      if !l.value then Out(l.wire, Ok) else PollUnlocked(l.wire, ticks - 1)
  }

  function WaitForUnlocked(w: Wire, timeout: nat): Out<Status> {
    PollUnlocked(Emit(w, [Arm(timeout)]), timeout)
  }

  function ResetDevice(w: Wire): Wire {
    WriteCsReg(WriteCsReg(w, ASI_RESET_REQ, RESET_REQ_VALUE), ASI_RESET_REQ, 0x00)
  }

  function SendKey(w: Wire, key: seq<byte>): Wire {
    Emit(Emit(SendSync(w), [Tx(KEY_SEND_64)] + Txs(key)), [RxMode])
  }

  // ---------------------------------------------------------------------------
  // Session operations built on the key exchange.

  function EraseChip(w: Wire): Out<Status> {
    var k := ReadCsReg(SendKey(w, KEY_CHIPERASE), ASI_KEY_STATUS);
    match k.value
    case None => Out(k.wire, Timeout)
    case Some(s) =>
      if !BitSet(s, KEY_STATUS_CHIPERASE) then Out(k.wire, ModeChangeFailed)
      else WaitForUnlocked(ResetDevice(k.wire), 50)
  }

  /** The unlock part of updi_enter_programming_mode, after the device was found not to be in programming mode. */
  function UnlockNvm(w: Wire): Out<Status> {
    var k := ReadCsReg(SendKey(w, KEY_NVM), ASI_KEY_STATUS);
    match k.value
    case None => Out(k.wire, Timeout)
    case Some(s) =>
      if !BitSet(s, KEY_STATUS_NVMPROG) then Out(k.wire, ModeChangeFailed)
      else
        var u := WaitForUnlocked(ResetDevice(k.wire), 10);
        if u.value != Ok then u
        else
          // the confirming read is made and its answer dropped
          var c := InProgrammingMode(u.wire);
          Out(Emit(c.wire, [RxMode]), Ok)
  }

  function EnterProgrammingMode(w: Wire): Out<Status> {
    var p := InProgrammingMode(w);
    if p.value then Out(p.wire, Ok) else UnlockNvm(p.wire)
  }

  function LeaveProgrammingMode(w: Wire): Wire {
    WriteCsReg(ResetDevice(w), CS_CTRLB, Bit(CTRLB_UPDIDIS_BIT) | Bit(CTRLB_CCDETDIS_BIT))
  }

  /** The polling loop of updi_wait_for_user_row_writeable with `ticks` polls left. */
  function PollUserRow(w: Wire, ticks: nat): (r: Out<Status>)
    decreases ticks
    ensures r.value == Ok || r.value == Timeout
  {
    if ticks == 0 then Out(w, Timeout)
    else
      var r := ReadCsReg(w, ASI_SYS_STATUS);
      match r.value
      case None => Out(r.wire, Timeout)
      case Some(s) =>
        if BitSet(s, SYS_STATUS_UROWPROG) then Out(r.wire, Ok) else PollUserRow(r.wire, ticks - 1)
  }

  /** `waitForHigh` is accepted and, as in the source, never consulted. */
  function WaitForUserRowWriteable(w: Wire, timeout: nat, waitForHigh: bool): Out<Status> {
    PollUserRow(Emit(w, [Arm(timeout)]), timeout)
  }

  // ---------------------------------------------------------------------------
  // Data transfer engine.

  /** Streaming `n` bytes under one deadline; stops at the first wait that expires. */
  function Receive(w: Wire, n: nat): (r: Out<Received>)
    decreases n
    ensures |r.value.bytes| <= n
    ensures r.value.status == Ok || r.value.status == Timeout
    ensures r.value.status == Ok <==> |r.value.bytes| == n
  {
    if n == 0 then Out(w, Received([], Ok))
    else
      var a := Await(w);
      match a.value
      case None => Out(a.wire, Received([], Timeout))
      case Some(b) =>
        var rest := Receive(a.wire, n - 1);
        Out(rest.wire, Received([b] + rest.value.bytes, rest.value.status))
  }

  /** `r` with the bytes `got` stored in front of the ones it read. */
  function Prepend(got: seq<byte>, r: Out<Received>): Out<Received> {
    Out(r.wire, Received(got + r.value.bytes, r.value.status))
  }

  function ReadBuffer(w: Wire, sz: uint8, timeout: nat): Out<Received> {
    Receive(Emit(w, [Arm(timeout)]), sz)
  }

  function WaitForAck(w: Wire): Out<Status> {
    var r := ReadByte(Emit(w, [RxMode]), 2000);
    Out(r.wire, match r.value case None => Timeout case Some(b) => if b != PHY_ACK then Nack else Ok)
  }

  function StDataPhase(w: Wire, values: seq<byte>): Out<Status> {
    var a := WaitForAck(w);
    if a.value != Ok then a else WaitForAck(Emit(a.wire, [TxMode] + Txs(values)))
  }

  function St(w: Wire, address: word, data: byte): Out<Status> {
    StDataPhase(Emit(SendSync(w), [Tx(STS_ADDR16_DATA8), Tx(Lo(address)), Tx(Hi(address))]), [data])
  }

  function StPtr(w: Wire, address: word): Out<Status> {
    WaitForAck(Emit(SendSync(w), [Tx(ST_PTR_ADDRESS_DATA16), Tx(Lo(address)), Tx(Hi(address))]))
  }

  /** The counter byte is `num - 1` computed in eight bits. */
  function Repeat(w: Wire, num: byte): Wire {
    Emit(SendSync(w), [Tx(REPEAT_BYTE_COUNT), Tx(num - 1)])
  }

  /** The send/ack loop of updi_st_ptr_inc over the bytes still to send. */
  function StoreEach(w: Wire, data: seq<byte>): (r: Out<Status>)
    decreases |data|
    ensures r.value == Ok || r.value == Timeout || r.value == Nack
  {
    if data == [] then Out(w, Ok)
    else
      var a := WaitForAck(Emit(w, [TxMode, Tx(data[0])]));
      if a.value != Ok then a else StoreEach(a.wire, data[1..])
  }

  function StPtrInc(w: Wire, data: seq<byte>): Out<Status> {
    StoreEach(Emit(SendSync(w), [Tx(ST_PTR_INC_DATA8)]), data)
  }

  function LdPtrInc(w: Wire, size: uint8): Out<Received> {
    ReadBuffer(Emit(SendSync(w), [Tx(LD_PTR_INC_DATA8), RxMode]), size, size * 1500)
  }

  /** updi_write_data for the buffer `data` (its length is the `uint8_t sz`). */
  function WriteData(w: Wire, address: word, data: seq<byte>): Out<Status>
    requires |data| < 0x100
  {
    if |data| == 1 then St(w, address, data[0])
    else if |data| == 2 then
      var first := St(w, address, data[0]);
      if first.value != Ok then first else St(first.wire, address + 1, data[1])
    else
      var p := StPtr(w, address);
      if p.value != Ok then p else StPtrInc(Repeat(p.wire, |data| as byte), data)
  }

  function ReadData(w: Wire, address: word, size: uint8): Out<Received> {
    if size > MAX_REPEAT_SIZE then Out(w, Received([], InvalidSize))
    else
      var p := StPtr(w, address);
      if p.value != Ok then Out(p.wire, Received([], p.value))
      else LdPtrInc(if size > 1 then Repeat(p.wire, size as byte) else p.wire, size)
  }

  function ReadUserRow(w: Wire): Out<Received> {
    var p := InProgrammingMode(w);
    // the result of entering programming mode is not looked at
    var entered := if !p.value then EnterProgrammingMode(p.wire).wire else p.wire;
    ReadData(entered, USERDATA_ADDR, USERDATA_SZ)
  }

  function WriteUserRow(w: Wire, data: seq<byte>): Out<Status>
    requires |data| == USERDATA_SZ
  {
    var k := ReadCsReg(SendKey(w, KEY_UROW), ASI_KEY_STATUS);
    match k.value
    case None => Out(k.wire, Timeout)
    case Some(s) =>
      if !BitSet(s, KEY_STATUS_UROWWRITE) then Out(k.wire, ModeChangeFailed)
      else
        var ready := WaitForUserRowWriteable(ResetDevice(k.wire), 50, true);
        if ready.value != Ok then ready
        else
          // the result of the data write is not looked at
          var written := WriteData(ready.wire, USERDATA_ADDR, data).wire;
          var finalized := WriteCsReg(written, ASI_SYS_CTRLA, Bit(SYS_CTRLA_UROW_FINAL) | Bit(CTRLB_CCDETDIS_BIT));
          var done := WaitForUserRowWriteable(finalized, 50, false);
          if done.value != Ok then done
          else
            var cleared := WriteCsReg(done.wire, ASI_KEY_STATUS, Bit(KEY_STATUS_UROWWRITE) | Bit(CTRLB_CCDETDIS_BIT));
            Out(ResetDevice(cleared), Ok)
  }

  function GetSib(w: Wire): Out<Received> {
    ReadBuffer(Emit(SendSync(w), [Tx(KEY_READ_SIB_32), RxMode]), 32, 32 * 1500)
  }
}
