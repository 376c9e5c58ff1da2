# UPDI programmer and panel buttons, modelled in Dafny

This project models two parts of the firmware of a Bluetooth DALI light-controller board,
and proves properties of the model.

The first part is the UPDI programmer in `src/updi.c`. UPDI is Microchip's single-wire
program-and-debug interface. The board's MCU is the master and drives it over a one-wire UART
and a SysTick countdown. The programmer does five things:
- frames instructions: the sync byte `0x55`, an opcode built by OR-ing bit fields, and
  little-endian addresses;
- reads and writes the control/status registers;
- sends the 8-byte unlock keys;
- runs acknowledgement-gated loads and stores;
- runs the session operations: break, SIB read, chip erase, enter/leave programming mode,
  and user-row read/write.

The second part is the button state machine in `src/buttons.c`. Each of five buttons is
debounced. A tap toggles the light, holding fades it, and a quick re-press reverses the fade.

Files:

- `options.dfy`: `Option`.
- `updi_protocol.dfy` (module `UpdiProtocol`): the constants of `src/updi.c`, the result
  codes, a structured view of an instruction byte (`Instr`), and its encoding and decoding.
- `transport.dfy` (module `Transport`): the UART and SysTick as seen by the engine.
  - The class `Uart` keeps a log of everything done to the line: bytes sent, direction
    switches, drains, baud changes and armed deadlines.
  - It also holds a scripted queue of what the target answers. `Quiet` is a deadline that
    expires. An empty queue means every later wait expires.
- `updi_spec.dfy` (module `UpdiSpec`): one function per engine operation. Each maps the link
  state to the link state it leaves behind, plus the operation's result.
- `updi_engine.dfy` (module `UpdiEngine`): the class `Updi`. Its methods do what the C
  functions do, call by call on the UART, with the polling and streaming loops kept as
  loops. Each method is proved to agree exactly with its `UpdiSpec` function.
- `updi_properties.dfy` (module `UpdiProperties`): what the programmer promises, proved
  about the `UpdiSpec` functions. This covers the exact frames on the wire, the
  acknowledgement rules, the dispatch of `updi_write_data`, the key flows and the status
  queries' fallbacks.
- `buttons.dfy` (module `Buttons`): the buttons.
  - `Step` is the transition function and `Rearm` is `change_state`.
  - The class `Panel` holds `buttons[5]` and `current_buttons`. Its methods update the
    array in place and are proved against those functions.
  - A per-button invariant `Good` is preserved by every event.
  - Lemmas cover each state's transitions, the bit scan of `read_buttons` as written, and
    whole gestures (tap, hold, re-press, bounce).

How the code is followed where it differs from intent:
- `read_buttons` shifts `changed` left while testing bit 0. So only button 0 is ever
  dispatched, and only when bit 0 changed. The model keeps this (`Buttons.ScanReachesOnlyFirst`).
- `updi_read_data` with size 0 still sets the pointer, then streams zero bytes and returns OK.
  The model follows the code: no size is rejected, because the `size > 256` guard cannot hold
  for an 8-bit size.
- `updi_write_data` with size 0 sets the pointer and sends a repeat count of `0xFF` (0 − 1 in
  eight bits), then an empty pointer-increment store.
- `updi_wait_for_user_row_writeable` never consults `wait_for_high`.
- `updi_write_user_row` ignores the result of the data write.
- `updi_read_user_row` ignores the result of entering programming mode.
- A failed status read counts as "locked" in `updi_is_locked` and as "not in programming
  mode" in `updi_in_programming_mode`.

Timing model:
- Every SysTick countdown `systick_start(t)` is logged as `Arm(t)`, so the deadlines 2000,
  `size*1500`, 50 and 10 are visible in the frames.
- A polling loop under a countdown of `t` is modelled as at most `t` polls.
- A button timer is the delay it was armed with, or `None` when no timer is pending.

## Model

| member | source | states |
|---|---|---|
| UpdiProtocol.Bit | src/updi.c:280-296 | `1 << n` is a non-zero power of two whose only set bit is bit n, so `val & (1 << n)` tests exactly bit n |
| UpdiProtocol.OpcodeValues | src/updi.c:12-48 | the composed opcodes are STS16/8 = 0x44, ST ptr-set = 0x69, ST ptr++ = 0x64, LD ptr++ = 0x24, REPEAT = 0xA0, KEY send = 0xE0, SIB read = 0xE6; sync 0x55, ack 0x40 |
| UpdiProtocol.OpcodeFields | src/updi.c:12-45 | each composed opcode decodes to the intended instruction (class, pointer mode / address width, data width, key size) |
| UpdiProtocol.DecodeEncode | src/updi.c:12-45 | OR-ing fields loses nothing: every well-formed instruction decodes back from its byte |
| UpdiProtocol.EncodeDecode | src/updi.c:12-45 | every byte that decodes is exactly the encoding of its decoded instruction |
| Transport.Sent | src/updi.c:142 | the transmitted bytes are no more than the log's events |
| Transport.Txs | src/updi.c:457 | writing a buffer transmits its bytes one by one, in order |
| Transport.SentAppend | src/updi.c:142 | the bytes sent by two consecutive pieces of work are the concatenation of each piece's bytes |
| Transport.SentTxs | src/updi.c:457 | the bytes sent by a buffer write are the buffer |
| Transport.Uart.AwaitByte | src/updi.c:212-227 | a byte that arrives before the deadline is consumed and returned; otherwise the wait ends with timeout |
| UpdiSpec.PollUnlocked | src/updi.c:298-310 | the unlock poll ends only with OK or TIMEOUT |
| UpdiSpec.PollUserRow | src/updi.c:388-403 | the user-row poll ends only with OK or TIMEOUT |
| UpdiSpec.Receive | src/updi.c:407-425 | streaming n bytes returns at most n bytes, OK exactly when all n arrived, otherwise TIMEOUT |
| UpdiSpec.StoreEach | src/updi.c:504-519 | the send/ack loop ends only with OK, TIMEOUT or NACK |
| UpdiEngine.Updi.SendSync | src/updi.c:199-202 | switches to transmit and sends the sync byte, as `UpdiSpec.SendSync` |
| UpdiEngine.Updi.WriteCsReg | src/updi.c:204-208 | sync, `STCS\|reg`, value, as `UpdiSpec.WriteCsReg` |
| UpdiEngine.Updi.ReadByte | src/updi.c:212-227 | arms the deadline and waits for one byte, as `UpdiSpec.ReadByte` |
| UpdiEngine.Updi.ReadCsReg | src/updi.c:229-236 | sync, `LDCS\|reg`, drain, receive, 2000-unit read, as `UpdiSpec.ReadCsReg` |
| UpdiEngine.Updi.SendBreak | src/updi.c:238-261 | break bytes at the slow baud, the two link stores, the STATUSA read; `updi_rev` is updated only on success |
| UpdiEngine.Updi.CheckLink | src/updi.c:264-271 | the link is up exactly when STATUSA was read and is non-zero |
| UpdiEngine.Updi.InProgrammingMode | src/updi.c:280-287 | as `UpdiSpec.InProgrammingMode`: false on a failed read |
| UpdiEngine.Updi.IsLocked | src/updi.c:289-296 | as `UpdiSpec.IsLocked`: true on a failed read |
| UpdiEngine.Updi.WaitForUnlocked | src/updi.c:298-310 | the polling loop leaves the link and result of `UpdiSpec.WaitForUnlocked` |
| UpdiEngine.Updi.ResetDevice | src/updi.c:316-319 | two stores to RESET_REQ, as `UpdiSpec.ResetDevice` |
| UpdiEngine.Updi.SendKey | src/updi.c:321-328 | sync, KEY opcode, the 8 key bytes, receive, as `UpdiSpec.SendKey` |
| UpdiEngine.Updi.EraseChip | src/updi.c:335-350 | as `UpdiSpec.EraseChip` |
| UpdiEngine.Updi.EnterProgrammingMode | src/updi.c:354-381 | as `UpdiSpec.EnterProgrammingMode` |
| UpdiEngine.Updi.LeaveProgrammingMode | src/updi.c:383-386 | as `UpdiSpec.LeaveProgrammingMode` |
| UpdiEngine.Updi.WaitForUserRowWriteable | src/updi.c:388-403 | the polling loop leaves the link and result of `UpdiSpec.WaitForUserRowWriteable` |
| UpdiEngine.Updi.ReadBuffer | src/updi.c:407-425 | the `while (sz--)` loop fills the buffer with exactly the bytes and status of `UpdiSpec.ReadBuffer` |
| UpdiEngine.Updi.WaitForAck | src/updi.c:428-440 | as `UpdiSpec.WaitForAck` |
| UpdiEngine.Updi.StDataPhase | src/updi.c:450-460 | as `UpdiSpec.StDataPhase` |
| UpdiEngine.Updi.St | src/updi.c:463-469 | as `UpdiSpec.St` |
| UpdiEngine.Updi.StPtr | src/updi.c:477-483 | as `UpdiSpec.StPtr` |
| UpdiEngine.Updi.Repeat | src/updi.c:491-496 | as `UpdiSpec.Repeat` |
| UpdiEngine.Updi.StPtrInc | src/updi.c:504-519 | the send/ack loop leaves the link and result of `UpdiSpec.StPtrInc` |
| UpdiEngine.Updi.LdPtrInc | src/updi.c:527-533 | as `UpdiSpec.LdPtrInc` |
| UpdiEngine.Updi.WriteData | src/updi.c:541-566 | as `UpdiSpec.WriteData` |
| UpdiEngine.Updi.ReadData | src/updi.c:577-597 | as `UpdiSpec.ReadData` |
| UpdiEngine.Updi.ReadUserRow | src/updi.c:600-608 | as `UpdiSpec.ReadUserRow` |
| UpdiEngine.Updi.WriteUserRow | src/updi.c:610-645 | as `UpdiSpec.WriteUserRow` |
| UpdiEngine.Updi.GetSib | src/updi.c:648-657 | as `UpdiSpec.GetSib` |
| UpdiProperties.WriteCsRegFrame | src/updi.c:199-208 | a CS store switches to transmit and sends exactly `0x55`, `0xC0\|reg`, `val`, consumes no reply and never switches to receive |
| UpdiProperties.ResetDeviceFrames | src/updi.c:316-319 | reset is two stores to register 0x08: `0x59` then `0x00` |
| UpdiProperties.ReadCsRegSpec | src/updi.c:229-236 | a CS read sends sync and `0x80\|reg`, drains, switches to receive, waits 2000, and returns the one reply consumed: OK with its value exactly when a byte arrived, TIMEOUT otherwise |
| UpdiProperties.StatusQueriesOnFailure | src/updi.c:264-296 | with no reply, "locked" is assumed true, "in programming mode" false and "link up" false; otherwise they test bit 0, bit 3, and non-zero |
| UpdiProperties.SendBreakSpec | src/updi.c:238-261 | the break frame, CTRLB := 0x08, CTRLA := 0x80, then the STATUSA read whose reply is the result |
| UpdiProperties.SendKeyFrame | src/updi.c:321-328 | a key exchange sends `0x55`, `0xE0`, then the 8 key bytes in array order, and switches to receive |
| UpdiProperties.PollsStep | src/updi.c:298-310 | one more poll appends one status-read frame |
| UpdiProperties.PollUnlockedSpec | src/updi.c:298-310 | the unlock poll returns OK after the first reply with the lock bit clear if that is within the budget (one status read per poll), else TIMEOUT after exactly `ticks` polls |
| UpdiProperties.PollUserRowSpec | src/updi.c:388-403 | the user-row poll returns OK at the first reply with bit 2 set, TIMEOUT on a missing reply or when the budget runs out |
| UpdiProperties.UserRowWaitIgnoresDirection | src/updi.c:388-403 | `wait_for_high` makes no difference |
| UpdiProperties.WaitForAckSpec | src/updi.c:428-440 | switches to receive, waits 2000, OK exactly when the reply is `0x40`, NACK for any other byte, TIMEOUT for none |
| UpdiProperties.RoundsHead | src/updi.c:504-519 | the rounds of a buffer are its first byte's round followed by the rest |
| UpdiProperties.StoreStepWire | src/updi.c:504-519 | one round sends one byte and consumes one reply |
| UpdiProperties.StoreStepStatus | src/updi.c:504-519 | one round succeeds exactly when its reply is an ack |
| UpdiProperties.StoreEachAcked | src/updi.c:504-519 | when every byte is acknowledged, each byte is sent with one ack wait after it, and the result is OK |
| UpdiProperties.StoreEachStops | src/updi.c:504-519 | the first failing ack ends the loop with its error; no later byte is sent |
| UpdiProperties.SentRounds | src/updi.c:504-519 | the bytes sent by the rounds are exactly the data, in order |
| UpdiProperties.StSpec | src/updi.c:450-469 | STS sends `0x44`, address low then high, waits for an ack, then sends the byte and waits again; each failing ack is returned |
| UpdiProperties.StPtrSpec | src/updi.c:477-483 | pointer set sends `0x69`, address low then high, then waits for one ack |
| UpdiProperties.RepeatSpec | src/updi.c:491-496 | repeat sends sync, `0xA0`, `num-1` in eight bits: 1 gives `0x00`, 0 gives `0xFF` |
| UpdiProperties.AddressLittleEndian | src/updi.c:466-467 | the two address bytes sent low first rebuild the 16-bit address |
| UpdiProperties.StPtrIncSpec | src/updi.c:504-519 | pointer-increment store sends sync and `0x64`, then the send/ack loop |
| UpdiProperties.WriteOneByte | src/updi.c:545-547 | size 1 is one STS to `address` |
| UpdiProperties.WriteTwoBytes | src/updi.c:549-555 | size 2 is STS to `address`, then, only if that succeeded, STS to `address+1` (wrapping at 0xFFFF) |
| UpdiProperties.BulkStart | src/updi.c:557-565 | other sizes: an acknowledged pointer set is followed by repeat(size) and the pointer-increment store |
| UpdiProperties.WriteBulkNoPointer | src/updi.c:557-561 | a failed pointer set is returned and nothing else is sent |
| UpdiProperties.WriteBulkAcked | src/updi.c:557-565 | with every ack present the bulk write sends its whole frame and returns OK |
| UpdiProperties.WriteBulkStops | src/updi.c:557-565 | the first missing ack during the data phase ends the bulk write with its error |
| UpdiProperties.ReceiveSpec | src/updi.c:407-425 | streaming sends nothing and returns the bytes that arrived before the first expired wait |
| UpdiProperties.ReadDataSpec | src/updi.c:527-597 | never INVALID_SIZE; a failed pointer set is returned; repeat only when size > 1; then `0x24` and `size` bytes streamed under one `size*1500` deadline |
| UpdiProperties.GetSibSpec | src/updi.c:648-657 | SIB read sends `0xE6` and streams 32 bytes under a 48000 deadline |
| UpdiProperties.EraseChipSpec | src/updi.c:335-350 | erase key, key-status read (TIMEOUT on failure, MODE_CHANGE_FAILED if bit 3 clear), reset, then at most 50 unlock polls |
| UpdiProperties.UnlockNvmSpec | src/updi.c:359-381 | the NVM key and the key-status read (TIMEOUT on no reply, MODE_CHANGE_FAILED if bit 4 clear), then reset, a 10-tick deadline and at most 10 unlock polls; once unlocked, one more status read whose answer is dropped, a switch to receive, and OK; the whole link is given for every exit |
| UpdiProperties.EnterProgrammingModeSpec | src/updi.c:354-381 | OK at once, after one status read, if already in programming mode; otherwise the link and result are those of the unlock sequence after that read, and the result is TIMEOUT, MODE_CHANGE_FAILED, or OK/TIMEOUT by the unlock polls |
| UpdiProperties.LeaveProgrammingModeSpec | src/updi.c:383-386 | reset, then CTRLB := UPDIDIS \| CCDETDIS (0x0C) |
| UpdiProperties.ReadUserRowOutcome | src/updi.c:600-608 | reading the user row ends with OK, TIMEOUT or NACK only: a failed mode change is never reported |
| UpdiProperties.WriteUserRowOutcome | src/updi.c:610-645 | writing the user row ends with OK, TIMEOUT or MODE_CHANGE_FAILED only: the data write's result is never reported |
| Buttons.Panel.constructor | src/buttons.c:70-124 | five released buttons indexed 0..4 with no timer and no fade; `current_buttons` is 0xFF; the invariant holds |
| Buttons.Panel.Configure | src/buttons.c:362-370 | `current_buttons` becomes the byte read back; each button whose bit is set rests in RELEASED with no timer, each held one enters PRESSED_DEBOUNCING with a 10-tick timer; the invariant is kept |
| Buttons.Panel.ChangeState | src/buttons.c:262-295 | only `buttons[i]` changes, and it becomes `Rearm` of its old value |
| Buttons.Panel.ProcessButton | src/buttons.c:149-234 | only `buttons[i]` changes, and it becomes `Step` of its old value |
| Buttons.Panel.TimerExpired | src/buttons.c:238-258 | the callback clears the handle and processes the expiry; the invariant is kept |
| Buttons.Panel.Dispatch | src/buttons.c:303-307 | for a dispatched bit, only `buttons[i]` changes: bit i becomes its level and the press or release is processed; the invariant is kept |
| Buttons.Panel.ReadButtons | src/buttons.c:298-311 | each button becomes its scan result, `current_buttons` becomes the new byte, and the invariant is kept |
| Buttons.Panel.ButtonsIdle | src/buttons.c:321-331 | true exactly when all five buttons are released; then no timer is pending |
| Buttons.RearmCancels | src/buttons.c:262-295 | change_state sets the state, cancels the pending timer whatever it was, arms one exactly when the delay is non-zero and the index is 0..4, and changes nothing else |
| Buttons.ReleasedSteps | src/buttons.c:151-159 | RELEASED: a press starts debouncing with a 1-tick timer; release and expiry change nothing |
| Buttons.PressedDebouncingSteps | src/buttons.c:161-173 | PRESSED_DEBOUNCING ignores press/release; on expiry it returns to RELEASED with no timer if released, else enters PRESSED with a 50-tick timer |
| Buttons.PressedSteps | src/buttons.c:221-232 | PRESSED: release debounces with 1 tick; expiry starts fading DOWN if no fade yet and re-arms 25 ticks |
| Buttons.ReleasedDebouncingSteps | src/buttons.c:175-193 | on expiry: released without fade gives RELEASED, released while fading gives WAITING_FOR_REPRESS with 25 ticks, not released gives PRESSED with no timer |
| Buttons.RepressSteps | src/buttons.c:195-219 | WAITING_FOR_REPRESS: expiry gives RELEASED and resets the fade, a press debounces with 1 tick; REPRESSED_DEBOUNCING: if held, expiry reverses the fade and gives PRESSED with 25 ticks, if released it bails out to RELEASED |
| Buttons.ReversedSwaps | src/buttons.c:202 | while fading, a re-press swaps DOWN and UP |
| Buttons.FadeOnlyOnExpiry | src/buttons.c:149-234 | press and release events never change the fade direction |
| Buttons.InitialGood | src/buttons.c:118-124 | the initial buttons satisfy the invariant |
| Buttons.ConfiguredGood | src/buttons.c:363-369 | power-on configuration gives a button satisfying the invariant: RELEASED with no timer exactly when its bit is set, otherwise debouncing with 10 ticks |
| Buttons.LevelPreservesGood | src/buttons.c:298-311 | recording a level and processing it keeps the invariant |
| Buttons.ExpirePreservesGood | src/buttons.c:238-258 | a timer expiry keeps the invariant |
| Buttons.RunPreservesGood | src/buttons.c:149-258 | any sequence of levels and expiries keeps the invariant |
| Buttons.RunAppend | src/buttons.c:149-258 | running two input sequences one after the other is running their concatenation |
| Buttons.ShiftedZero | src/buttons.c:300-301 | when nothing changed, no bit is ever tested set |
| Buttons.ShiftedLowBit | src/buttons.c:302-303 | after the first iteration, bit 0 of the left-shifted `changed` is clear |
| Buttons.ScanReachesOnlyFirst | src/buttons.c:298-311 | as written, buttons 1..4 are never dispatched; button 0 is dispatched exactly when bit 0 changed, with its new level |
| Buttons.TapToggles | src/buttons.c:151-186 | a tap from rest (press, debounce, release, debounce) returns to RELEASED with no fade and no timer |
| Buttons.HoldStartsFadingDown | src/buttons.c:161-232 | holding past the 50-tick start delay fades DOWN and re-arms 25 ticks |
| Buttons.HeldAtPowerOn | src/buttons.c:161-232 | a button held at power-on and kept held reaches PRESSED fading DOWN with 25 ticks; let go before the power-on debounce ends, it rests in RELEASED with no timer |
| Buttons.RepressReverses | src/buttons.c:175-219 | release while fading, then a re-press within the window, reverses the fade and resumes PRESSED with 25 ticks |
| Buttons.BailOutKeepsFade | src/buttons.c:195-219 | a bounce in the repress window bails out to RELEASED with the fade still set, so the next tap opens a repress window instead of toggling |
| Buttons.ReleaseBounceStopsRepeat | src/buttons.c:175-232 | a bounce during release debouncing leaves PRESSED with no timer; further press levels change nothing |

## Left out

- The UART driver and the SysTick registers: they are replaced by the `Uart` class's event log and
  scripted reply queue. The target's replies are an input script, not a reactive device, so no
  round trip through a simulated target is modelled.
- The physical timing of the break (300 baud, src/updi.c:243-249) and of `usDelay`
  (src/updi.c:606): only the order of events is kept.
- WaitForUnlocked, WaitForUserRowWriteable: in the source every status read inside a poll
  restarts and then stops the one shared SysTick (src/updi.c:215 and src/updi.c:225), so the outer
  countdown of the polling loop (src/updi.c:300-309) can never expire. With a silent target,
  `updi_is_locked` keeps answering "locked" (src/updi.c:293) and `updi_wait_for_unlocked` can poll
  forever. The model instead gives up with TIMEOUT after `timeout` polls; that budget is a modelling
  choice, not the source's behaviour.
- The unused NVMCTRL command and status constants (src/updi.c:87-135), the unused `timer_handle`
  (src/updi.c:146) and the commented-out operation notes (src/updi.c:164-194): no code uses them.
- The SIB buffer layout (`updi_sib_t`) is modelled as 32 bytes; its field structure is not.
- ReadUserRowOutcome, WriteUserRowOutcome: they state only the set of possible results, not the
  whole frame sequence of the user-row operations.
- Buttons: `app_easy_timer` is assumed always to return a valid handle. The "could not assign
  timer" path (src/buttons.c:288-291) is not modelled, and real asynchronous scheduling is
  represented only by calling `TimerExpired`.
- Buttons: the I2C register helpers (`write_reg`, `read_reg`, `ioexp_reread`, `ioexp_get`,
  `ioexp_int_callback`) and the register writes of `ioexp_configure` (src/buttons.c:334-358) are
  hardware I/O. The byte read back from the expander is the parameter of `ReadButtons` and of
  `Configure`, which models the rest of `ioexp_configure`. The model's constructor is the static
  initializer; that the firmware calls `ioexp_configure` once at start-up (src/user_app.c:40) is
  not modelled as an order on the `Panel` methods.
- Debug printing and `WARNING` in `process_button` are left out. Like the C code, the model makes
  no state change on those paths.
- BLE attribute tables and handlers, peripheral and boot set-up, and the debug component are not
  part of this model.
