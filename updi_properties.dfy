/**
 * What src/updi.c promises about its transactions, proved of the UpdiSpec functions.
 *
 * The frames below are written with the literal byte values of the protocol, so each
 * lemma also checks that the OR-ed opcode constants come out as those values. The reply
 * script is described by how long it keeps giving the answer an operation waits for
 * (`AckRun`, `LeadingBytes`, `BusyRun`, `FirstUnlocked`).
 */
module UpdiProperties {
  import opened Options
  import opened UpdiProtocol
  import opened Transport
  import opened UpdiSpec

  // ---------------------------------------------------------------------------
  // Reference frames.

  const ACK_WAIT: seq<Event> := [RxMode, Arm(2000)]

  function CsStoreFrame(reg: byte, val: byte): seq<Event> {
    [TxMode, Tx(0x55), Tx(0xC0 | reg), Tx(val)]
  }

  function StatusReadFrame(reg: byte): seq<Event> {
    [TxMode, Tx(0x55), Tx(0x80 | reg), Drain, RxMode, Arm(2000)]
  }

  function ResetFrames(): seq<Event> {
    CsStoreFrame(0x08, 0x59) + CsStoreFrame(0x08, 0x00)
  }

  function KeyFrame(key: seq<byte>): seq<Event> {
    [TxMode, Tx(0x55), Tx(0xE0)] + Txs(key) + [RxMode]
  }

  function StsFrame(address: word): seq<Event> {
    [TxMode, Tx(0x55), Tx(0x44), Tx(Lo(address)), Tx(Hi(address))]
  }

  function PtrFrame(address: word): seq<Event> {
    [TxMode, Tx(0x55), Tx(0x69), Tx(Lo(address)), Tx(Hi(address))] + ACK_WAIT
  }

  function RepeatFrame(count: byte): seq<Event> {
    [TxMode, Tx(0x55), Tx(0xA0), Tx(count)]
  }

  /** One data byte, then one acknowledgement wait, for each byte. */
  function Rounds(bs: seq<byte>): seq<Event>
    decreases |bs|
  {
    if bs == [] then [] else [TxMode, Tx(bs[0])] + ACK_WAIT + Rounds(bs[1..])
  }

  /** `n` consecutive reads of the status register `reg`. */
  function Polls(reg: byte, n: nat): seq<Event>
    decreases n
  {
    if n == 0 then [] else StatusReadFrame(reg) + Polls(reg, n - 1)
  }

  // ---------------------------------------------------------------------------
  // Describing the reply script.

  function Drop(rx: seq<Rx>, n: nat): seq<Rx> {
    if n <= |rx| then rx[n..] else []
  }

  /** The byte a single wait gets, if one arrives. */
  function Reply(rx: seq<Rx>): Option<byte> {
    if rx != [] && rx[0].Byte? then Some(rx[0].value) else None
  }

  /** How many acknowledgement bytes the target sends before anything else. */
  function AckRun(rx: seq<Rx>): (n: nat)
    ensures n <= |rx|
  {
    if rx != [] && rx[0] == Byte(PHY_ACK) then 1 + AckRun(rx[1..]) else 0
  }

  /** The error an acknowledgement wait reports when the queue does not start with an acknowledgement. */
  function AckError(rx: seq<Rx>): Status {
    if Reply(rx).Some? then Nack else Timeout
  }

  /** How many bytes arrive before the first expired wait. */
  function LeadingBytes(rx: seq<Rx>): (n: nat)
    ensures n <= |rx|
  {
    if rx != [] && rx[0].Byte? then 1 + LeadingBytes(rx[1..]) else 0
  }

  /** The values of the bytes in a reply script. */
  function Values(rx: seq<Rx>): (r: seq<byte>)
    ensures |r| <= |rx|
  {
    if rx == [] then [] else (if rx[0].Byte? then [rx[0].value] else []) + Values(rx[1..])
  }

  /** The streamed result of receiving `n` bytes from `rx`. */
  function Streamed(rx: seq<Rx>, n: nat): Received {
    var k := LeadingBytes(rx);
    if n <= k then Received(Values(rx[..n]), Ok) else Received(Values(rx[..k]), Timeout)
  }

  /** Index of the first status reply with the lock bit clear, or `|rx|`. */
  function FirstUnlocked(rx: seq<Rx>): (n: nat)
    ensures n <= |rx|
  {
    if rx == [] then 0
    else if rx[0].Byte? && !BitSet(rx[0].value, SYS_STATUS_LOCKSTATUS) then 0
    else 1 + FirstUnlocked(rx[1..])
  }

  /** Whether some poll among the first `ticks` sees the device unlocked. */
  predicate UnlocksWithin(rx: seq<Rx>, ticks: nat) {
    FirstUnlocked(rx) < ticks && FirstUnlocked(rx) < |rx|
  }

  /** How many status replies in a row show the user-row-programming bit clear. */
  function BusyRun(rx: seq<Rx>): (n: nat)
    ensures n <= |rx|
  {
    if rx != [] && rx[0].Byte? && !BitSet(rx[0].value, SYS_STATUS_UROWPROG) then 1 + BusyRun(rx[1..]) else 0
  }

  // ---------------------------------------------------------------------------
  // Link layer and control/status registers.

  /** A CS store switches to transmit and sends sync, `0xC0 | reg` and `val`, with no wait for an answer. */
  lemma WriteCsRegFrame(w: Wire, reg: byte, val: byte)
    ensures var w' := WriteCsReg(w, reg, val);
      w'.rx == w.rx && w'.log == w.log + CsStoreFrame(reg, val) &&
      Sent(CsStoreFrame(reg, val)) == [0x55, 0xC0 | reg, val] && RxMode !in CsStoreFrame(reg, val)
  {
    OpcodeValues();
    var f := [TxMode, Tx(PHY_SYNC), Tx(STCS | reg), Tx(val)];
    assert WriteCsReg(w, reg, val).log == w.log + f;
    assert f[1..] == [Tx(0x55), Tx(0xC0 | reg), Tx(val)] && f[1..][1..] == [Tx(0xC0 | reg), Tx(val)];
    assert f[1..][1..][1..] == [Tx(val)] && f[1..][1..][1..][1..] == [];
    assert Sent(f[1..][1..]) == [0xC0 | reg, val];
    assert f == CsStoreFrame(reg, val);
  }

  /** A device reset is the two stores to ASI_RESET_REQ: first 0x59, then 0x00. */
  lemma ResetDeviceFrames(w: Wire)
    ensures var w' := ResetDevice(w);
      w'.rx == w.rx && w'.log == w.log + ResetFrames() &&
      Sent(ResetFrames()) == [0x55, 0xC8, 0x59, 0x55, 0xC8, 0x00]
  {
    WriteCsRegFrame(w, ASI_RESET_REQ, RESET_REQ_VALUE);
    WriteCsRegFrame(WriteCsReg(w, ASI_RESET_REQ, RESET_REQ_VALUE), ASI_RESET_REQ, 0x00);
    SentAppend(CsStoreFrame(0x08, 0x59), CsStoreFrame(0x08, 0x00));
  }

  /** A status read sends sync and `0x80 | reg`, turns the line round, and takes one reply within 2000. */
  lemma ReadCsRegSpec(w: Wire, reg: byte)
    ensures var r := ReadCsReg(w, reg);
      r.wire.log == w.log + StatusReadFrame(reg) && r.wire.rx == Drop(w.rx, 1) && r.value == Reply(w.rx)
  {
    OpcodeValues();
    assert ReadCsReg(w, reg).wire.log == w.log + [TxMode, Tx(PHY_SYNC), Tx(LDCS | reg), Drain, RxMode, Arm(2000)];
  }

  /** A failed status read counts as "locked" and as "not in programming mode". */
  lemma StatusQueriesOnFailure(w: Wire)
    ensures IsLocked(w).value == (match Reply(w.rx) case None => true case Some(v) => v & 0x01 != 0)
    ensures InProgrammingMode(w).value == (match Reply(w.rx) case None => false case Some(v) => v & 0x08 != 0)
    ensures CheckLink(w).value == (match Reply(w.rx) case None => false case Some(v) => v != 0)
  {
  }

  /** The break: two zero bytes at the break baud rate, back to 115200, the two link stores, then the STATUSA read. */
  lemma SendBreakSpec(w: Wire)
    ensures var r := SendBreak(w);
      r.wire.log == w.log + [SetBaud(BreakBaud), TxMode, Tx(0x00), Tx(0x00), SetBaud(Baud115200)]
        + CsStoreFrame(0x03, 0x08) + CsStoreFrame(0x02, 0x80) + StatusReadFrame(0x00) &&
      r.wire.rx == Drop(w.rx, 1) && r.value == Reply(w.rx)
  {
    var stretched := Emit(w, [SetBaud(BreakBaud), TxMode, Tx(0x00), Tx(0x00), SetBaud(Baud115200)]);
    WriteCsRegFrame(stretched, CS_CTRLB, Bit(CTRLB_CCDETDIS_BIT));
    var b := WriteCsReg(stretched, CS_CTRLB, Bit(CTRLB_CCDETDIS_BIT));
    WriteCsRegFrame(b, CS_CTRLA, Bit(CTRLA_IBDLY_BIT));
    ReadCsRegSpec(WriteCsReg(b, CS_CTRLA, Bit(CTRLA_IBDLY_BIT)), CS_STATUSA);
  }

  /** The key exchange sends sync, the 64-bit KEY opcode 0xE0 and the eight key bytes in array order, then turns the line round. */
  lemma SendKeyFrame(w: Wire, key: seq<byte>)
    requires |key| == KEY_SZ
    ensures var w' := SendKey(w, key);
      w'.rx == w.rx && w'.log == w.log + KeyFrame(key) && Sent(KeyFrame(key)) == [0x55, 0xE0] + key
  {
    var head: seq<Event> := [TxMode, Tx(0x55), Tx(0xE0)];
    OpcodeValues();
    assert SendKey(w, key).log == w.log + [TxMode, Tx(PHY_SYNC)] + ([Tx(KEY_SEND_64)] + Txs(key)) + [RxMode];
    assert SendKey(w, key).log == w.log + (head + Txs(key) + [RxMode]);
    assert head[1..] == [Tx(0x55), Tx(0xE0)] && head[1..][1..] == [Tx(0xE0)] && head[1..][1..][1..] == [];
    assert Sent(head) == [0x55, 0xE0];
    SentAppend(head, Txs(key));
    SentTxs(key);
    SentAppend(head + Txs(key), [RxMode]);
    assert [RxMode][1..] == [];
  }

  // ---------------------------------------------------------------------------
  // Polling loops.

  lemma {:induction false} PollsStep(reg: byte, n: nat)
    ensures Polls(reg, n + 1) == Polls(reg, n) + StatusReadFrame(reg)
  {
    if n > 0 {
      PollsStep(reg, n - 1);
    }
  }

  /**
   * updi_wait_for_unlocked's loop: it polls until a reply shows the lock bit clear (OK)
   * and gives up with TIMEOUT after `ticks` polls; a missing reply counts as locked.
   */
  lemma {:induction false} PollUnlockedSpec(w: Wire, ticks: nat)
    decreases ticks
    ensures var r := PollUnlocked(w, ticks); var k := FirstUnlocked(w.rx);
      if UnlocksWithin(w.rx, ticks) then
        r.value == Ok && r.wire.rx == w.rx[k + 1..] && r.wire.log == w.log + Polls(ASI_SYS_STATUS, k + 1)
      else
        r.value == Timeout && r.wire.rx == Drop(w.rx, ticks) && r.wire.log == w.log + Polls(ASI_SYS_STATUS, ticks)
  {
    if ticks > 0 {
      ReadCsRegSpec(w, ASI_SYS_STATUS);
      var l := IsLocked(w);
      var rest := Drop(w.rx, 1);
      var polled := w.log + StatusReadFrame(0x0B);
      assert l.wire == Wire(polled, rest);
      if !l.value {
        assert FirstUnlocked(w.rx) == 0 && UnlocksWithin(w.rx, ticks);
        assert Polls(0x0B, 1) == StatusReadFrame(0x0B) + [];
        assert PollUnlocked(w, ticks) == Out(Wire(w.log + Polls(0x0B, 1), w.rx[1..]), Ok);
      } else {
        assert PollUnlocked(w, ticks) == PollUnlocked(l.wire, ticks - 1);
        PollUnlockedSpec(l.wire, ticks - 1);
        var r := PollUnlocked(l.wire, ticks - 1);
        if w.rx == [] {
          assert !UnlocksWithin(w.rx, ticks) && rest == [] == Drop(w.rx, ticks);
          AppendAssoc(w.log, StatusReadFrame(0x0B), Polls(0x0B, ticks - 1));
        } else {
          assert FirstUnlocked(w.rx) == 1 + FirstUnlocked(rest);
          assert UnlocksWithin(w.rx, ticks) == UnlocksWithin(rest, ticks - 1);
          var k := FirstUnlocked(rest);
          if UnlocksWithin(rest, ticks - 1) {
            assert rest[k + 1..] == w.rx[k + 2..];
            AppendAssoc(w.log, StatusReadFrame(0x0B), Polls(0x0B, k + 1));
            assert r == Out(Wire(w.log + Polls(0x0B, k + 2), w.rx[k + 2..]), Ok);
          } else {
            assert Drop(rest, ticks - 1) == Drop(w.rx, ticks);
            AppendAssoc(w.log, StatusReadFrame(0x0B), Polls(0x0B, ticks - 1));
            assert r == Out(Wire(w.log + Polls(0x0B, ticks), Drop(w.rx, ticks)), Timeout);
          }
        }
      }
    }
  }

  /**
   * updi_wait_for_user_row_writeable's loop: each reply with the UROWPROG bit clear makes it
   * poll again; the first other answer ends it, OK for a reply with the bit set and TIMEOUT
   * for no reply; after `ticks` polls it gives up with TIMEOUT.
   */
  lemma {:induction false} PollUserRowSpec(w: Wire, ticks: nat)
    decreases ticks
    ensures var r := PollUserRow(w, ticks); var k := BusyRun(w.rx);
      if ticks <= k then
        r.value == Timeout && r.wire.rx == w.rx[ticks..] && r.wire.log == w.log + Polls(ASI_SYS_STATUS, ticks)
      else
        r.wire.rx == Drop(w.rx, k + 1) && r.wire.log == w.log + Polls(ASI_SYS_STATUS, k + 1) &&
        (r.value == Ok <==> Reply(w.rx[k..]).Some?)
  {
    if ticks > 0 {
      ReadCsRegSpec(w, ASI_SYS_STATUS);
      var r := ReadCsReg(w, ASI_SYS_STATUS);
      var polled := w.log + StatusReadFrame(0x0B);
      assert r.wire == Wire(polled, Drop(w.rx, 1));
      assert Polls(0x0B, 1) == StatusReadFrame(0x0B) + [];
      if r.value.Some? && !BitSet(r.value.value, SYS_STATUS_UROWPROG) {
        assert PollUserRow(w, ticks) == PollUserRow(r.wire, ticks - 1);
        PollUserRowSpec(r.wire, ticks - 1);
        var rest := w.rx[1..];
        var k := BusyRun(rest);
        assert r.wire.rx == rest && BusyRun(w.rx) == 1 + k;
        assert rest[k..] == w.rx[k + 1..];
        if ticks - 1 <= k {
          assert rest[ticks - 1..] == w.rx[ticks..];
          AppendAssoc(w.log, StatusReadFrame(0x0B), Polls(0x0B, ticks - 1));
          assert PollUserRow(w, ticks) == Out(Wire(w.log + Polls(0x0B, ticks), w.rx[ticks..]), Timeout);
        } else {
          assert Drop(rest, k + 1) == Drop(w.rx, k + 2);
          AppendAssoc(w.log, StatusReadFrame(0x0B), Polls(0x0B, k + 1));
          assert PollUserRow(w, ticks).wire == Wire(w.log + Polls(0x0B, k + 2), Drop(w.rx, k + 2));
        }
      } else {
        assert BusyRun(w.rx) == 0;
        assert w.rx[0..] == w.rx;
        assert PollUserRow(w, ticks) == Out(Wire(w.log + Polls(0x0B, 1), Drop(w.rx, 1)), if r.value.Some? then Ok else Timeout);
      }
    }
  }

  /** The `wait_for_high` argument makes no difference. */
  lemma UserRowWaitIgnoresDirection(w: Wire, timeout: nat)
    ensures WaitForUserRowWriteable(w, timeout, true) == WaitForUserRowWriteable(w, timeout, false)
  {
  }

  // ---------------------------------------------------------------------------
  // Acknowledged stores.

  /** The ack wait switches to receive and waits 2000 for one byte: 0x40 is OK, another byte NACK, none TIMEOUT. */
  lemma WaitForAckSpec(w: Wire)
    ensures var r := WaitForAck(w);
      r.wire.log == w.log + ACK_WAIT && r.wire.rx == Drop(w.rx, 1) &&
      (r.value == Ok <==> AckRun(w.rx) > 0) &&
      (r.value != Ok ==> r.value == AckError(w.rx))
  {
    assert WaitForAck(w).wire.log == w.log + [RxMode] + [Arm(2000)];
  }

  lemma RoundsHead(data: seq<byte>)
    requires data != []
    ensures Rounds(data[..1]) == [TxMode, Tx(data[0])] + ACK_WAIT
    ensures Rounds(data) == Rounds(data[..1]) + Rounds(data[1..])
  {
    assert data[..1][0] == data[0] && data[..1][1..] == [];
  }

  /** One round of the updi_st_ptr_inc loop: the byte, then its acknowledgement wait. */
  lemma StoreStepWire(w: Wire, data: seq<byte>)
    requires data != []
    ensures WaitForAck(Emit(w, [TxMode, Tx(data[0])])).wire == Wire(w.log + Rounds(data[..1]), Drop(w.rx, 1))
  {
    var sent := Emit(w, [TxMode, Tx(data[0])]);
    WaitForAckSpec(sent);
    RoundsHead(data);
    assert sent.log + ACK_WAIT == w.log + Rounds(data[..1]);
  }

  /** The round's wait succeeds exactly when the script starts with an acknowledgement. */
  lemma StoreStepStatus(w: Wire, data: seq<byte>)
    requires data != []
    ensures var a := WaitForAck(Emit(w, [TxMode, Tx(data[0])]));
      (a.value == Ok <==> AckRun(w.rx) > 0) && (a.value != Ok ==> a.value == AckError(w.rx))
  {
    WaitForAckSpec(Emit(w, [TxMode, Tx(data[0])]));
  }

  /**
   * The loop of updi_st_ptr_inc when every byte is acknowledged: one data byte, then one ack
   * wait, per byte, and OK.
   */
  lemma {:induction false} StoreEachAcked(w: Wire, data: seq<byte>)
    requires |data| <= AckRun(w.rx)
    decreases |data|
    ensures StoreEach(w, data) == Out(Wire(w.log + Rounds(data), w.rx[|data|..]), Ok)
  {
    if data != [] {
      StoreStepWire(w, data);
      StoreStepStatus(w, data);
      var a := WaitForAck(Emit(w, [TxMode, Tx(data[0])]));
      assert StoreEach(w, data) == StoreEach(a.wire, data[1..]);
      assert w.rx[1..] == Drop(w.rx, 1);
      StoreEachAcked(a.wire, data[1..]);
      assert w.rx[1..][|data| - 1..] == w.rx[|data|..];
      RoundsHead(data);
      assert w.log + Rounds(data[..1]) + Rounds(data[1..]) == w.log + Rounds(data);
    }
  }

  /**
   * The loop of updi_st_ptr_inc when byte `n` (counting from 0) is the first one not
   * acknowledged: it returns that wait's error having sent bytes 0..n and nothing after.
   */
  lemma {:induction false} StoreEachStops(w: Wire, data: seq<byte>)
    requires AckRun(w.rx) < |data|
    decreases |data|
    ensures var n := AckRun(w.rx);
      StoreEach(w, data) == Out(Wire(w.log + Rounds(data[..n + 1]), Drop(w.rx, n + 1)), AckError(w.rx[n..]))
  {
    StoreStepWire(w, data);
    StoreStepStatus(w, data);
    var a := WaitForAck(Emit(w, [TxMode, Tx(data[0])]));
    if a.value != Ok {
      assert StoreEach(w, data) == a;
    } else {
      assert StoreEach(w, data) == StoreEach(a.wire, data[1..]);
      var m := AckRun(w.rx[1..]);
      assert w.rx[1..] == Drop(w.rx, 1);
      StoreEachStops(a.wire, data[1..]);
      assert w.rx[1..][m..] == w.rx[m + 1..];
      assert Drop(w.rx[1..], m + 1) == Drop(w.rx, m + 2);
      assert data[..m + 2][..1] == data[..1] && data[..m + 2][1..] == data[1..][..m + 1];
      RoundsHead(data[..m + 2]);
      assert w.log + Rounds(data[..1]) + Rounds(data[1..][..m + 1]) == w.log + Rounds(data[..m + 2]);
    }
  }

  lemma {:induction false} SentRounds(bs: seq<byte>)
    decreases |bs|
    ensures Sent(Rounds(bs)) == bs
  {
    if bs != [] {
      var round := [TxMode, Tx(bs[0])] + ACK_WAIT;
      assert round[1..] == [Tx(bs[0]), RxMode, Arm(2000)];
      assert round[1..][1..] == [RxMode, Arm(2000)];
      assert round[1..][1..][1..] == [Arm(2000)];
      assert round[1..][1..][1..][1..] == [];
      assert Sent(round[1..][1..][1..]) == [];
      assert Sent(round[1..][1..]) == [];
      assert Sent(round[1..]) == [bs[0]];
      assert Sent(round) == [bs[0]];
      SentAppend(round, Rounds(bs[1..]));
      SentRounds(bs[1..]);
    }
  }

  /** STS: sync, 0x44, the address low byte then the high byte, and the data byte only after the first acknowledgement. */
  lemma StSpec(w: Wire, address: word, data: byte)
    ensures var r := UpdiSpec.St(w, address, data); var n := AckRun(w.rx);
      (n == 0 ==> r == Out(Wire(w.log + StsFrame(address) + ACK_WAIT, Drop(w.rx, 1)), AckError(w.rx))) &&
      (n == 1 ==> r == Out(Wire(w.log + StsFrame(address) + ACK_WAIT + [TxMode, Tx(data)] + ACK_WAIT, Drop(w.rx, 2)), AckError(w.rx[1..]))) &&
      (n >= 2 ==> r == Out(Wire(w.log + StsFrame(address) + ACK_WAIT + [TxMode, Tx(data)] + ACK_WAIT, w.rx[2..]), Ok))
  {
    OpcodeValues();
    var framed := Emit(SendSync(w), [Tx(STS_ADDR16_DATA8), Tx(Lo(address)), Tx(Hi(address))]);
    assert framed.log == w.log + [TxMode, Tx(PHY_SYNC)] + [Tx(STS_ADDR16_DATA8), Tx(Lo(address)), Tx(Hi(address))];
    assert framed.log == w.log + StsFrame(address);
    WaitForAckSpec(framed);
    var a := WaitForAck(framed);
    if a.value == Ok {
      var b := Emit(a.wire, [TxMode] + Txs([data]));
      assert b.log == w.log + StsFrame(address) + ACK_WAIT + [TxMode, Tx(data)];
      WaitForAckSpec(b);
      assert AckRun(w.rx) == 1 + AckRun(w.rx[1..]);
      assert Drop(w.rx[1..], 1) == Drop(w.rx, 2);
    }
  }

  /** Pointer set: sync, 0x69, the address low byte then the high byte, then one ack wait. */
  lemma StPtrSpec(w: Wire, address: word)
    ensures var r := StPtr(w, address);
      r.wire.log == w.log + PtrFrame(address) && r.wire.rx == Drop(w.rx, 1) &&
      (r.value == Ok <==> AckRun(w.rx) > 0) && (r.value != Ok ==> r.value == AckError(w.rx))
  {
    OpcodeValues();
    var framed := Emit(SendSync(w), [Tx(ST_PTR_ADDRESS_DATA16), Tx(Lo(address)), Tx(Hi(address))]);
    assert framed.log == w.log + [TxMode, Tx(PHY_SYNC)] + [Tx(ST_PTR_ADDRESS_DATA16), Tx(Lo(address)), Tx(Hi(address))];
    WaitForAckSpec(framed);
  }

  /** The repeat counter holds `num - 1` in eight bits: 1 gives 0x00 and 0 wraps to 0xFF. */
  lemma RepeatSpec(w: Wire, num: byte)
    ensures var w' := UpdiSpec.Repeat(w, num);
      w'.rx == w.rx && w'.log == w.log + RepeatFrame(num - 1) &&
      (num == 1 ==> RepeatFrame(num - 1)[3] == Tx(0x00)) &&
      (num == 0 ==> RepeatFrame(num - 1)[3] == Tx(0xFF)) &&
      (num != 0 ==> (num - 1) as int == num as int - 1)
  {
    OpcodeValues();
    assert UpdiSpec.Repeat(w, num).log == w.log + [TxMode, Tx(PHY_SYNC)] + [Tx(REPEAT_BYTE_COUNT), Tx(num - 1)];
  }

  /** The address bytes are the little-endian encoding of the address. */
  lemma AddressLittleEndian(a: word)
    ensures (Hi(a) as word << 8) | Lo(a) as word == a
  {
  }

  /** updi_st_ptr_inc: sync and 0x64, then the acknowledged byte rounds. */
  lemma StPtrIncSpec(w: Wire, data: seq<byte>)
    ensures StPtrInc(w, data) == StoreEach(Wire(w.log + [TxMode, Tx(0x55), Tx(0x64)], w.rx), data)
  {
    OpcodeValues();
    var s := Emit(SendSync(w), [Tx(ST_PTR_INC_DATA8)]);
    assert s.log == w.log + [TxMode, Tx(PHY_SYNC)] + [Tx(ST_PTR_INC_DATA8)];
    assert s == Wire(w.log + [TxMode, Tx(0x55), Tx(0x64)], w.rx);
  }

  // ---------------------------------------------------------------------------
  // Writes and reads of target memory.

  /** One byte: a single STS to `address`. */
  lemma WriteOneByte(w: Wire, address: word, data: seq<byte>)
    requires |data| == 1
    ensures WriteData(w, address, data) == UpdiSpec.St(w, address, data[0])
  {
  }

  /** Two bytes: STS to `address`, then to `address + 1` (wrapping in 16 bits) only if the first succeeded. */
  lemma WriteTwoBytes(w: Wire, address: word, data: seq<byte>)
    requires |data| == 2
    ensures var first := UpdiSpec.St(w, address, data[0]);
      (AckRun(w.rx) < 2 ==> first.value != Ok && WriteData(w, address, data) == first) &&
      (AckRun(w.rx) >= 2 ==> first.value == Ok && WriteData(w, address, data) == UpdiSpec.St(first.wire, address + 1, data[1])) &&
      (address == 0xFFFF ==> address + 1 == 0)
  {
    StSpec(w, address, data[0]);
  }

  /** The events a bulk write sends before its first data byte: pointer set, repeat counter, 0x64. */
  function BulkHead(address: word, count: uint8): seq<Event> {
    PtrFrame(address) + RepeatFrame((count as byte) - 1) + [TxMode, Tx(0x55), Tx(0x64)]
  }

  /**
   * Three or more bytes (and, as written, zero): when the pointer set is acknowledged, the repeat
   * counter and the pointer-increment store follow, and the byte rounds decide the result.
   */
  lemma BulkStart(w: Wire, address: word, data: seq<byte>)
    requires |data| < 0x100 && |data| != 1 && |data| != 2
    requires AckRun(w.rx) > 0
    ensures WriteData(w, address, data) == StoreEach(Wire(w.log + BulkHead(address, |data|), w.rx[1..]), data)
    ensures AckRun(w.rx[1..]) == AckRun(w.rx) - 1
  {
    StPtrSpec(w, address);
    var p := StPtr(w, address);
    var count := |data| as byte;
    var rep := UpdiSpec.Repeat(p.wire, count);
    RepeatSpec(p.wire, count);
    var before := w.log + PtrFrame(address) + RepeatFrame(count - 1);
    assert rep == Wire(before, w.rx[1..]);
    StPtrIncSpec(rep, data);
    var s := Wire(w.log + BulkHead(address, |data|), w.rx[1..]);
    var inc: seq<Event> := [TxMode, Tx(0x55), Tx(0x64)];
    assert BulkHead(address, |data|) == PtrFrame(address) + RepeatFrame(count - 1) + inc;
    AppendAssoc(w.log, PtrFrame(address), RepeatFrame(count - 1));
    AppendAssoc(w.log, PtrFrame(address) + RepeatFrame(count - 1), inc);
    AppendAssoc(w.log + PtrFrame(address), RepeatFrame(count - 1), inc);
    assert s.log == before + inc;
    assert StPtrInc(rep, data) == StoreEach(s, data);
    assert WriteData(w, address, data) == StPtrInc(rep, data);
  }

  /** A bulk write whose pointer set is not acknowledged ends there with that error. */
  lemma WriteBulkNoPointer(w: Wire, address: word, data: seq<byte>)
    requires |data| < 0x100 && |data| != 1 && |data| != 2
    requires AckRun(w.rx) == 0
    ensures WriteData(w, address, data) == Out(Wire(w.log + PtrFrame(address), Drop(w.rx, 1)), AckError(w.rx))
  {
    StPtrSpec(w, address);
  }

  /** A bulk write with every byte acknowledged sends them all, each followed by its wait, and is OK. */
  lemma WriteBulkAcked(w: Wire, address: word, data: seq<byte>)
    requires |data| < 0x100 && |data| != 1 && |data| != 2
    requires AckRun(w.rx) > |data|
    ensures WriteData(w, address, data) == Out(Wire(w.log + BulkHead(address, |data|) + Rounds(data), w.rx[|data| + 1..]), Ok)
  {
    BulkStart(w, address, data);
    StoreEachAcked(Wire(w.log + BulkHead(address, |data|), w.rx[1..]), data);
    assert w.rx[1..][|data|..] == w.rx[|data| + 1..];
  }

  /**
   * A bulk write whose data byte `n - 1` is the first one not acknowledged returns that wait's
   * error, having sent bytes 0..n-1 and nothing after.
   */
  lemma WriteBulkStops(w: Wire, address: word, data: seq<byte>)
    requires |data| < 0x100 && |data| != 1 && |data| != 2
    requires 0 < AckRun(w.rx) <= |data|
    ensures var n := AckRun(w.rx);
      WriteData(w, address, data) == Out(Wire(w.log + BulkHead(address, |data|) + Rounds(data[..n]), Drop(w.rx, n + 1)), AckError(w.rx[n..]))
  {
    BulkStart(w, address, data);
    var m := AckRun(w.rx[1..]);
    StoreEachStops(Wire(w.log + BulkHead(address, |data|), w.rx[1..]), data);
    assert w.rx[1..][m..] == w.rx[m + 1..];
    assert Drop(w.rx[1..], m + 1) == Drop(w.rx, m + 2);
  }

  /** Receiving `n` bytes takes them off the queue in order until a wait expires. */
  lemma {:induction false} ReceiveSpec(w: Wire, n: nat)
    decreases n
    ensures var r := Receive(w, n); var k := LeadingBytes(w.rx);
      r.wire.log == w.log && r.value == Streamed(w.rx, n) &&
      r.wire.rx == (if n <= k then w.rx[n..] else Drop(w.rx, k + 1))
  {
    if n > 0 && w.rx != [] && w.rx[0].Byte? {
      var rest := w.rx[1..];
      ReceiveSpec(Await(w).wire, n - 1);
      assert LeadingBytes(w.rx) == 1 + LeadingBytes(rest);
      var k := LeadingBytes(rest);
      if n - 1 <= k {
        assert w.rx[..n][1..] == rest[..n - 1];
        assert rest[n - 1..] == w.rx[n..];
      } else {
        assert w.rx[..k + 1][1..] == rest[..k];
        assert Drop(rest, k + 1) == Drop(w.rx, k + 2);
      }
    } else if n > 0 {
      assert LeadingBytes(w.rx) == 0;
      assert w.rx[..0] == [];
    } else {
      assert w.rx[..0] == [];
    }
  }

  /**
   * updi_read_data: its size guard (size > 256) cannot fire for a uint8_t size; a failed pointer
   * set is returned as is; the repeat counter is set only when size > 1; then `size` bytes are
   * streamed after 0x24 under one deadline of size * 1500.
   */
  lemma ReadDataSpec(w: Wire, address: word, size: uint8)
    ensures var r := ReadData(w, address, size);
      r.value.status != InvalidSize &&
      (AckRun(w.rx) == 0 ==> r == Out(Wire(w.log + PtrFrame(address), Drop(w.rx, 1)), Received([], AckError(w.rx)))) &&
      (AckRun(w.rx) > 0 ==>
        var rx := w.rx[1..];
        r.value == Streamed(rx, size) &&
        r.wire.log == w.log + PtrFrame(address) + (if size > 1 then RepeatFrame((size as byte) - 1) else [])
          + [TxMode, Tx(0x55), Tx(0x24), RxMode, Arm(size * 1500)])
  {
    StPtrSpec(w, address);
    var p := StPtr(w, address);
    if p.value == Ok {
      var counted := if size > 1 then UpdiSpec.Repeat(p.wire, size as byte) else p.wire;
      var armed := Emit(Emit(SendSync(counted), [Tx(LD_PTR_INC_DATA8), RxMode]), [Arm(size * 1500)]);
      OpcodeValues();
      assert armed.log == counted.log + [TxMode, Tx(PHY_SYNC)] + [Tx(LD_PTR_INC_DATA8), RxMode] + [Arm(size * 1500)];
      assert armed.rx == w.rx[1..];
      ReceiveSpec(armed, size);
    }
  }

  /** The SIB read: sync and 0xE6, then 32 bytes streamed under one deadline of 48000. */
  lemma GetSibSpec(w: Wire)
    ensures var r := GetSib(w);
      r.value == Streamed(w.rx, 32) &&
      r.wire.log == w.log + [TxMode, Tx(0x55), Tx(0xE6), RxMode, Arm(48000)]
  {
    var armed := Emit(Emit(SendSync(w), [Tx(KEY_READ_SIB_32), RxMode]), [Arm(32 * 1500)]);
    OpcodeValues();
    assert armed.log == w.log + [TxMode, Tx(PHY_SYNC)] + [Tx(KEY_READ_SIB_32), RxMode] + [Arm(32 * 1500)];
    ReceiveSpec(armed, 32);
  }

  // ---------------------------------------------------------------------------
  // Session operations.

  /**
   * Chip erase: the erase key and one read of ASI_KEY_STATUS. No reply is TIMEOUT; a reply
   * without bit 3 is MODE_CHANGE_FAILED right there, with no retry; otherwise reset and at
   * most 50 polls for unlock decide.
   */
  lemma EraseChipSpec(w: Wire)
    ensures var r := EraseChip(w); var keyed := w.log + KeyFrame(KEY_CHIPERASE) + StatusReadFrame(0x07);
      var polled := keyed + ResetFrames() + [Arm(50)]; var rest := Drop(w.rx, 1);
      (Reply(w.rx).None? ==> r == Out(Wire(keyed, rest), Timeout)) &&
      (Reply(w.rx).Some? && Reply(w.rx).value & 0x08 == 0 ==> r == Out(Wire(keyed, rest), ModeChangeFailed)) &&
      (Reply(w.rx).Some? && Reply(w.rx).value & 0x08 != 0 ==>
        if UnlocksWithin(rest, 50) then
          r == Out(Wire(polled + Polls(0x0B, FirstUnlocked(rest) + 1), rest[FirstUnlocked(rest) + 1..]), Ok)
        else
          r == Out(Wire(polled + Polls(0x0B, 50), Drop(rest, 50)), Timeout))
  {
    SendKeyFrame(w, KEY_CHIPERASE);
    var keyedWire := SendKey(w, KEY_CHIPERASE);
    var k := ReadCsReg(keyedWire, ASI_KEY_STATUS);
    ReadCsRegSpec(keyedWire, ASI_KEY_STATUS);
    var keyed := w.log + KeyFrame(KEY_CHIPERASE) + StatusReadFrame(0x07);
    assert k.wire == Wire(keyed, Drop(w.rx, 1));
    if k.value.Some? && BitSet(k.value.value, KEY_STATUS_CHIPERASE) {
      var reset := ResetDevice(k.wire);
      ResetDeviceFrames(k.wire);
      var armed := Emit(reset, [Arm(50)]);
      assert armed == Wire(keyed + ResetFrames() + [Arm(50)], Drop(w.rx, 1));
      PollUnlockedSpec(armed, 50);
    }
  }

  /**
   * The unlock part of entering programming mode: the NVM key and one read of ASI_KEY_STATUS.
   * No reply is TIMEOUT; a reply without bit 4 is MODE_CHANGE_FAILED; otherwise reset, a
   * 10-tick deadline and at most 10 polls for unlock. Once unlocked, one more status read is
   * made, its answer is dropped, the line is switched to receive and the result is OK.
   */
  lemma UnlockNvmSpec(w: Wire)
    ensures var r := UnlockNvm(w); var keyed := w.log + KeyFrame(KEY_NVM) + StatusReadFrame(0x07);
      var polled := keyed + ResetFrames() + [Arm(10)]; var rest := Drop(w.rx, 1);
      (Reply(w.rx).None? ==> r == Out(Wire(keyed, rest), Timeout)) &&
      (Reply(w.rx).Some? && Reply(w.rx).value & 0x10 == 0 ==> r == Out(Wire(keyed, rest), ModeChangeFailed)) &&
      (Reply(w.rx).Some? && Reply(w.rx).value & 0x10 != 0 ==>
        if UnlocksWithin(rest, 10) then
          var k := FirstUnlocked(rest);
          r == Out(Wire(polled + Polls(0x0B, k + 1) + StatusReadFrame(0x0B) + [RxMode], Drop(rest[k + 1..], 1)), Ok)
        else
          r == Out(Wire(polled + Polls(0x0B, 10), Drop(rest, 10)), Timeout))
  {
    SendKeyFrame(w, KEY_NVM);
    var keyedWire := SendKey(w, KEY_NVM);
    var k := ReadCsReg(keyedWire, ASI_KEY_STATUS);
    ReadCsRegSpec(keyedWire, ASI_KEY_STATUS);
    var keyed := w.log + KeyFrame(KEY_NVM) + StatusReadFrame(0x07);
    assert k.wire == Wire(keyed, Drop(w.rx, 1));
    if k.value.Some? && BitSet(k.value.value, KEY_STATUS_NVMPROG) {
      var reset := ResetDevice(k.wire);
      ResetDeviceFrames(k.wire);
      var armed := Emit(reset, [Arm(10)]);
      assert armed == Wire(keyed + ResetFrames() + [Arm(10)], Drop(w.rx, 1));
      PollUnlockedSpec(armed, 10);
      var u := PollUnlocked(armed, 10);
      assert u == WaitForUnlocked(reset, 10);
      if u.value == Ok {
        ReadCsRegSpec(u.wire, ASI_SYS_STATUS);
      }
    }
  }

  /**
   * Entering programming mode: OK at once when the first status read shows NVMPROG. Otherwise
   * the NVM key, bit 4 of ASI_KEY_STATUS, reset and at most 10 polls for unlock; once unlocked
   * it is OK whatever the confirming status read answers. The whole link after the first read
   * is the one `UnlockNvmSpec` gives.
   */
  lemma EnterProgrammingModeSpec(w: Wire)
    ensures var r := EnterProgrammingMode(w);
      var inProg := Reply(w.rx).Some? && Reply(w.rx).value & 0x08 != 0;
      var key := Reply(Drop(w.rx, 1));
      var rest := Drop(w.rx, 2);
      (inProg ==> r == Out(Wire(w.log + StatusReadFrame(0x0B), w.rx[1..]), Ok)) &&
      (!inProg ==> r == UnlockNvm(Wire(w.log + StatusReadFrame(0x0B), Drop(w.rx, 1)))) &&
      (!inProg ==>
        r.value == (if key.None? then Timeout
                    else if key.value & 0x10 == 0 then ModeChangeFailed
                    else if UnlocksWithin(rest, 10) then Ok
                    else Timeout))
  {
    ReadCsRegSpec(w, ASI_SYS_STATUS);
    var p := InProgrammingMode(w);
    if !p.value {
      assert p.wire == Wire(w.log + StatusReadFrame(0x0B), Drop(w.rx, 1));
      UnlockNvmSpec(p.wire);
      assert Drop(Drop(w.rx, 1), 1) == Drop(w.rx, 2);
    }
  }

  /** Leaving programming mode: the reset, then one CTRLB store of 0x0C (UPDIDIS and CCDETDIS). */
  lemma LeaveProgrammingModeSpec(w: Wire)
    ensures var w' := LeaveProgrammingMode(w);
      w'.rx == w.rx && w'.log == w.log + ResetFrames() + CsStoreFrame(0x03, 0x0C)
  {
    ResetDeviceFrames(w);
  }

  /** Reading the user row never reports MODE_CHANGE_FAILED: what entering programming mode returned is dropped. */
  lemma ReadUserRowOutcome(w: Wire)
    ensures var r := ReadUserRow(w);
      r.value.status == Ok || r.value.status == Timeout || r.value.status == Nack
  {
    var p := InProgrammingMode(w);
    var entered := if !p.value then EnterProgrammingMode(p.wire).wire else p.wire;
    ReadDataSpec(entered, USERDATA_ADDR, USERDATA_SZ);
    ReceiveSpec(Emit(Emit(SendSync(if USERDATA_SZ > 1 then UpdiSpec.Repeat(StPtr(entered, USERDATA_ADDR).wire, USERDATA_SZ as byte) else StPtr(entered, USERDATA_ADDR).wire), [Tx(LD_PTR_INC_DATA8), RxMode]), [Arm(USERDATA_SZ * 1500)]), USERDATA_SZ);
  }

  /** Writing the user row never reports NACK: the result of the data write in the middle is dropped. */
  lemma WriteUserRowOutcome(w: Wire, data: seq<byte>)
    requires |data| == USERDATA_SZ
    ensures var r := WriteUserRow(w, data);
      r.value == Ok || r.value == Timeout || r.value == ModeChangeFailed
  {
  }
}
