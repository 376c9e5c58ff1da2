/**
 * The UPDI programmer of src/updi.c, step by step against the UART it owns. Every method
 * is proved to leave the link exactly as the matching UpdiSpec function says and to
 * return what that function returns.
 */
module UpdiEngine {
  import opened Options
  import opened UpdiProtocol
  import opened Transport
  import UpdiSpec

  class Updi {
    const uart: Uart
    /** The STATUSA value captured by the last break (`updi_rev`). */
    var rev: byte

    constructor (uart: Uart)
      ensures this.uart == uart && rev == 0
    {
      this.uart := uart;
      rev := 0;
    }

    method SendSync()
      modifies uart
      ensures uart.State() == UpdiSpec.SendSync(old(uart.State()))
    {
      uart.TxEnable();
      uart.WriteByte(PHY_SYNC);
    }

    method WriteCsReg(reg: byte, val: byte)
      modifies uart
      ensures uart.State() == UpdiSpec.WriteCsReg(old(uart.State()), reg, val)
    {
      SendSync();
      uart.WriteByte(STCS | reg);
      uart.WriteByte(val);
    }

    /** `None` is UPDIERR_TIMEOUT; `Some(b)` is UPDI_OK with `*data = b`. */
    method ReadByte(timeout: nat) returns (data: Option<byte>)
      modifies uart
      ensures Out(uart.State(), data) == UpdiSpec.ReadByte(old(uart.State()), timeout)
    {
      uart.StartDeadline(timeout);
      data := uart.AwaitByte();
    }

    method ReadCsReg(reg: byte) returns (out: Option<byte>)
      modifies uart
      ensures Out(uart.State(), out) == UpdiSpec.ReadCsReg(old(uart.State()), reg)
    {
      SendSync();
      uart.WriteByte(LDCS | reg);
      uart.WaitTxFinish();
      uart.RxEnable();
      out := ReadByte(2000);
    }

    method SendBreak() returns (err: Status)
      modifies this, uart
      ensures var r := UpdiSpec.SendBreak(old(uart.State()));
        uart.State() == r.wire && err == UpdiSpec.ReadStatus(r.value) &&
        rev == (if r.value.Some? then r.value.value else old(rev))
    {
      uart.SetBaudRate(BreakBaud);
      uart.TxEnable();
      uart.WriteByte(0x00);
      uart.WriteByte(0x00);
      uart.SetBaudRate(Baud115200);
      assert uart.State() == Emit(old(uart.State()), [SetBaud(BreakBaud), TxMode, Tx(0x00), Tx(0x00), SetBaud(Baud115200)]);
      WriteCsReg(CS_CTRLB, Bit(CTRLB_CCDETDIS_BIT));
      WriteCsReg(CS_CTRLA, Bit(CTRLA_IBDLY_BIT));
      var status := ReadCsReg(CS_STATUSA);
      if status.Some? {
        rev := status.value;
      }
      err := UpdiSpec.ReadStatus(status);
    }

    method CheckLink() returns (alive: bool)
      modifies uart
      ensures Out(uart.State(), alive) == UpdiSpec.CheckLink(old(uart.State()))
    {
      var val := ReadCsReg(CS_STATUSA);
      if val.None? {
        return false;
      }
      return val.value != 0x00;
    }

    method InProgrammingMode() returns (inProg: bool)
      modifies uart
      ensures Out(uart.State(), inProg) == UpdiSpec.InProgrammingMode(old(uart.State()))
    {
      var val := ReadCsReg(ASI_SYS_STATUS);
      if val.None? {
        return false;
      }
      return BitSet(val.value, SYS_STATUS_NVMPROG);
    }

    method IsLocked() returns (locked: bool)
      modifies uart
      ensures Out(uart.State(), locked) == UpdiSpec.IsLocked(old(uart.State()))
    {
      var val := ReadCsReg(ASI_SYS_STATUS);
      if val.None? {
        return true;
      }
      return BitSet(val.value, SYS_STATUS_LOCKSTATUS);
    }

    method WaitForUnlocked(timeout: nat) returns (err: Status)
      modifies uart
      ensures Out(uart.State(), err) == UpdiSpec.WaitForUnlocked(old(uart.State()), timeout)
    {
      uart.StartDeadline(timeout);
      ghost var armed := uart.State();
      var ticks := timeout;
      while ticks > 0
        invariant UpdiSpec.PollUnlocked(armed, timeout) == UpdiSpec.PollUnlocked(uart.State(), ticks)
      {
        var locked := IsLocked();
        if !locked {
          return Ok;
        }
        ticks := ticks - 1;
      }
      return Timeout;
    }

    method ResetDevice()
      modifies uart
      ensures uart.State() == UpdiSpec.ResetDevice(old(uart.State()))
    {
      WriteCsReg(ASI_RESET_REQ, RESET_REQ_VALUE);
      WriteCsReg(ASI_RESET_REQ, 0x00);
    }

    method SendKey(key: seq<byte>)
      requires |key| == KEY_SZ
      modifies uart
      ensures uart.State() == UpdiSpec.SendKey(old(uart.State()), key)
    {
      SendSync();
      uart.WriteByte(KEY_SEND_64);
      ghost var start := uart.State().log;
      for i := 0 to KEY_SZ
        invariant uart.State() == Wire(start + Txs(key[..i]), old(uart.rx))
      {
        uart.WriteByte(key[i]);
        TxsAppend(key[..i], [key[i]]);
        assert key[..i] + [key[i]] == key[..i + 1];
      }
      assert key[..KEY_SZ] == key;
      uart.RxEnable();
    }

    method EraseChip() returns (err: Status)
      modifies uart
      ensures Out(uart.State(), err) == UpdiSpec.EraseChip(old(uart.State()))
    {
      SendKey(KEY_CHIPERASE);
      var keyStatus := ReadCsReg(ASI_KEY_STATUS);
      if keyStatus.None? {
        return Timeout;
      }
      if !BitSet(keyStatus.value, KEY_STATUS_CHIPERASE) {
        return ModeChangeFailed;
      }
      ResetDevice();
      err := WaitForUnlocked(50);
    }

    method EnterProgrammingMode() returns (err: Status)
      modifies uart
      ensures Out(uart.State(), err) == UpdiSpec.EnterProgrammingMode(old(uart.State()))
    {
      var already := InProgrammingMode();
      if already {
        return Ok;
      }
      SendKey(KEY_NVM);
      var keyStatus := ReadCsReg(ASI_KEY_STATUS);
      if keyStatus.None? {
        return Timeout;
      }
      if !BitSet(keyStatus.value, KEY_STATUS_NVMPROG) {
        return ModeChangeFailed;
      }
      ResetDevice();
      err := WaitForUnlocked(10);
      if err != Ok {
        return err;
      }
      var confirmed := InProgrammingMode();
      if !confirmed {
        // the source does nothing here
      }
      uart.RxEnable();
      return Ok;
    }

    method LeaveProgrammingMode()
      modifies uart
      ensures uart.State() == UpdiSpec.LeaveProgrammingMode(old(uart.State()))
    {
      ResetDevice();
      WriteCsReg(CS_CTRLB, Bit(CTRLB_UPDIDIS_BIT) | Bit(CTRLB_CCDETDIS_BIT));
    }

    method WaitForUserRowWriteable(timeout: nat, waitForHigh: bool) returns (err: Status)
      modifies uart
      ensures Out(uart.State(), err) == UpdiSpec.WaitForUserRowWriteable(old(uart.State()), timeout, waitForHigh)
    {
      uart.StartDeadline(timeout);
      ghost var armed := uart.State();
      var ticks := timeout;
      while ticks > 0
        invariant UpdiSpec.PollUserRow(armed, timeout) == UpdiSpec.PollUserRow(uart.State(), ticks)
      {
        var status := ReadCsReg(ASI_SYS_STATUS);
        if status.None? {
          return Timeout;
        }
        if BitSet(status.value, SYS_STATUS_UROWPROG) {
          return Ok;
        }
        ticks := ticks - 1;
      }
      return Timeout;
    }

    /**
     * Streams `sz` bytes into `data` under one deadline. On a timeout the bytes that did
     * arrive are already stored and the rest of the buffer is untouched.
     */
    method ReadBuffer(data: array<byte>, sz: uint8, timeout: nat) returns (err: Status)
      requires sz <= data.Length
      modifies uart, data
      ensures var r := UpdiSpec.ReadBuffer(old(uart.State()), sz, timeout);
        var n := |r.value.bytes|;
        uart.State() == r.wire && err == r.value.status &&
        data[..n] == r.value.bytes && data[n..] == old(data[n..])
    {
      uart.StartDeadline(timeout);
      ghost var armed := uart.State();
      var i := 0;
      assert [] + UpdiSpec.Receive(armed, sz).value.bytes == UpdiSpec.Receive(armed, sz).value.bytes;
      while i < sz
        invariant 0 <= i <= sz
        invariant data[i..] == old(data[i..])
        invariant UpdiSpec.Receive(armed, sz) == UpdiSpec.Prepend(data[..i], UpdiSpec.Receive(uart.State(), sz - i))
      {
        ghost var got := data[..i];
        var b := uart.AwaitByte();
        if b.None? {
          assert got + [] == got;
          return Timeout;
        }
        data[i] := b.value;
        assert data[..i + 1] == got + [b.value];
        ghost var rest := UpdiSpec.Receive(uart.State(), sz - i - 1).value.bytes;
        assert got + ([b.value] + rest) == (got + [b.value]) + rest;
        i := i + 1;
      }
      assert data[..i] + [] == data[..i];
      return Ok;
    }

    method WaitForAck() returns (err: Status)
      modifies uart
      ensures Out(uart.State(), err) == UpdiSpec.WaitForAck(old(uart.State()))
    {
      uart.RxEnable();
      var response := ReadByte(2000);
      if response.None? {
        return Timeout;
      }
      if response.value != PHY_ACK {
        return Nack;
      }
      return Ok;
    }

    method StDataPhase(values: seq<byte>) returns (err: Status)
      modifies uart
      ensures Out(uart.State(), err) == UpdiSpec.StDataPhase(old(uart.State()), values)
    {
      err := WaitForAck();
      if err != Ok {
        return err;
      }
      ghost var acked := uart.State();
      uart.TxEnable();
      uart.WriteBuffer(values);
      assert uart.State() == Emit(acked, [TxMode] + Txs(values));
      err := WaitForAck();
    }

    method St(address: word, data: byte) returns (err: Status)
      modifies uart
      ensures Out(uart.State(), err) == UpdiSpec.St(old(uart.State()), address, data)
    {
      SendSync();
      uart.WriteByte(STS_ADDR16_DATA8);
      uart.WriteByte(Lo(address));
      uart.WriteByte(Hi(address));
      assert uart.State() == Emit(UpdiSpec.SendSync(old(uart.State())), [Tx(STS_ADDR16_DATA8), Tx(Lo(address)), Tx(Hi(address))]);
      err := StDataPhase([data]);
    }

    method StPtr(address: word) returns (err: Status)
      modifies uart
      ensures Out(uart.State(), err) == UpdiSpec.StPtr(old(uart.State()), address)
    {
      SendSync();
      uart.WriteByte(ST_PTR_ADDRESS_DATA16);
      uart.WriteByte(Lo(address));
      uart.WriteByte(Hi(address));
      assert uart.State() == Emit(UpdiSpec.SendSync(old(uart.State())), [Tx(ST_PTR_ADDRESS_DATA16), Tx(Lo(address)), Tx(Hi(address))]);
      err := WaitForAck();
    }

    method Repeat(num: byte)
      modifies uart
      ensures uart.State() == UpdiSpec.Repeat(old(uart.State()), num)
    {
      var count := num - 1;
      SendSync();
      uart.WriteByte(REPEAT_BYTE_COUNT);
      uart.WriteByte(count);
    }

    method StPtrInc(data: seq<byte>) returns (err: Status)
      requires |data| < 0x100
      modifies uart
      ensures Out(uart.State(), err) == UpdiSpec.StPtrInc(old(uart.State()), data)
    {
      SendSync();
      uart.WriteByte(ST_PTR_INC_DATA8);
      ghost var started := uart.State();
      var i := 0;
      while i < |data|
        invariant 0 <= i <= |data|
        invariant UpdiSpec.StoreEach(started, data) == UpdiSpec.StoreEach(uart.State(), data[i..])
      {
        ghost var before := uart.State();
        uart.TxEnable();
        uart.WriteByte(data[i]);
        assert uart.State() == Emit(before, [TxMode, Tx(data[i])]);
        err := WaitForAck();
        if err != Ok {
          return err;
        }
        assert data[i..][1..] == data[i + 1..];
        i := i + 1;
      }
      return Ok;
    }

    method LdPtrInc(data: array<byte>, size: uint8) returns (err: Status)
      requires size <= data.Length
      modifies uart, data
      ensures var r := UpdiSpec.LdPtrInc(old(uart.State()), size);
        var n := |r.value.bytes|;
        uart.State() == r.wire && err == r.value.status &&
        data[..n] == r.value.bytes && data[n..] == old(data[n..])
    {
      SendSync();
      uart.WriteByte(LD_PTR_INC_DATA8);
      uart.RxEnable();
      assert uart.State() == Emit(UpdiSpec.SendSync(old(uart.State())), [Tx(LD_PTR_INC_DATA8), RxMode]);
      err := ReadBuffer(data, size, size * 1500);
    }

    method WriteData(address: word, data: seq<byte>) returns (err: Status)
      requires |data| < 0x100
      modifies uart
      ensures Out(uart.State(), err) == UpdiSpec.WriteData(old(uart.State()), address, data)
    {
      if |data| == 1 {
        err := St(address, data[0]);
        return;
      }
      if |data| == 2 {
        err := St(address, data[0]);
        if err != Ok {
          return;
        }
        err := St(address + 1, data[1]);
        return;
      }
      err := StPtr(address);
      if err != Ok {
        return;
      }
      Repeat(|data| as byte);
      err := StPtrInc(data);
    }

    method ReadData(address: word, out: array<byte>, size: uint8) returns (err: Status)
      requires size <= out.Length
      modifies uart, out
      ensures var r := UpdiSpec.ReadData(old(uart.State()), address, size);
        var n := |r.value.bytes|;
        uart.State() == r.wire && err == r.value.status &&
        out[..n] == r.value.bytes && out[n..] == old(out[n..])
    {
      if size > MAX_REPEAT_SIZE {
        return InvalidSize;
      }
      err := StPtr(address);
      if err != Ok {
        return;
      }
      if size > 1 {
        Repeat(size as byte);
      }
      err := LdPtrInc(out, size);
    }

    method ReadUserRow(data: array<byte>) returns (err: Status)
      requires data.Length == USERDATA_SZ
      modifies uart, data
      ensures var r := UpdiSpec.ReadUserRow(old(uart.State()));
        var n := |r.value.bytes|;
        uart.State() == r.wire && err == r.value.status &&
        data[..n] == r.value.bytes && data[n..] == old(data[n..])
    {
      var inProg := InProgrammingMode();
      if !inProg {
        var ignored := EnterProgrammingMode();
      }
      err := ReadData(USERDATA_ADDR, data, USERDATA_SZ);
    }

    method WriteUserRow(data: seq<byte>) returns (err: Status)
      requires |data| == USERDATA_SZ
      modifies uart
      ensures Out(uart.State(), err) == UpdiSpec.WriteUserRow(old(uart.State()), data)
    {
      SendKey(KEY_UROW);
      var keyStatus := ReadCsReg(ASI_KEY_STATUS);
      if keyStatus.None? {
        return Timeout;
      }
      if !BitSet(keyStatus.value, KEY_STATUS_UROWWRITE) {
        return ModeChangeFailed;
      }
      ResetDevice();
      err := WaitForUserRowWriteable(50, true);
      if err != Ok {
        return err;
      }
      var ignored := WriteData(USERDATA_ADDR, data);
      WriteCsReg(ASI_SYS_CTRLA, Bit(SYS_CTRLA_UROW_FINAL) | Bit(CTRLB_CCDETDIS_BIT));
      err := WaitForUserRowWriteable(50, false);
      if err != Ok {
        return err;
      }
      WriteCsReg(ASI_KEY_STATUS, Bit(KEY_STATUS_UROWWRITE) | Bit(CTRLB_CCDETDIS_BIT));
      ResetDevice();
      return Ok;
    }

    method GetSib(sib: array<byte>) returns (err: Status)
      requires sib.Length == 32
      modifies uart, sib
      ensures var r := UpdiSpec.GetSib(old(uart.State()));
        var n := |r.value.bytes|;
        uart.State() == r.wire && err == r.value.status &&
        sib[..n] == r.value.bytes && sib[n..] == old(sib[n..])
    {
      SendSync();
      uart.WriteByte(KEY_READ_SIB_32);
      uart.RxEnable();
      assert uart.State() == Emit(UpdiSpec.SendSync(old(uart.State())), [Tx(KEY_READ_SIB_32), RxMode]);
      err := ReadBuffer(sib, 32, 32 * 1500);
    }
  }
}
