/**
 * The one-wire UART and the SysTick countdown that src/updi.c drives, reduced to what the
 * protocol engine can observe: everything the engine does to the line is appended to a
 * log, and what the target sends back is a scripted queue.
 *
 * A queue item `Byte(b)` is a byte that arrives before the armed deadline; `Quiet` is a
 * deadline that expires with the line silent (it is consumed by that wait). An empty queue
 * means the target never answers again: every wait expires.
 */
module Transport {
  import opened Options
  import opened UpdiProtocol

  /** The two baud settings the engine selects: the slow one used to stretch a break, and the normal one. */
  datatype Baud = BreakBaud | Baud115200

  datatype Event =
    | Tx(b: byte)          // uart_write_byte
    | TxMode               // uart_one_wire_tx_en: the line is switched to transmit
    | RxMode               // uart_one_wire_rx_en: the line is switched to receive
    | Drain                // uart_wait_tx_finish
    | SetBaud(rate: Baud)  // uart_baudrate_setf
    | Arm(ticks: nat)      // systick_start: a countdown of `ticks` begins

  datatype Rx = Byte(value: byte) | Quiet

  /** The observable state of the link: what was done to it, and what the target has yet to say. */
  datatype Wire = Wire(log: seq<Event>, rx: seq<Rx>)

  /** The value an operation leaves the link in, paired with what it returns. */
  datatype Out<T> = Out(wire: Wire, value: T)

  /** The bytes transmitted in a log, in order. */
  function Sent(log: seq<Event>): (r: seq<byte>)
    ensures |r| <= |log|
  {
    if log == [] then []
    else (if log[0].Tx? then [log[0].b] else []) + Sent(log[1..])
  }

  /** The transmit events for a buffer of bytes. */
  function Txs(bs: seq<byte>): (r: seq<Event>)
    ensures |r| == |bs|
    ensures forall i :: 0 <= i < |bs| ==> r[i] == Tx(bs[i])
  {
    if bs == [] then [] else [Tx(bs[0])] + Txs(bs[1..])
  }

  function Emit(w: Wire, es: seq<Event>): Wire {
    w.(log := w.log + es)
  }

  /** Waiting for a byte until the armed deadline: the head of the queue decides. */
  function Await(w: Wire): Out<Option<byte>> {
    if w.rx == [] then Out(w, None)
    else match w.rx[0]
      case Byte(b) => Out(w.(rx := w.rx[1..]), Some(b))
      case Quiet => Out(w.(rx := w.rx[1..]), None)
  }

  lemma AppendAssoc<T>(a: seq<T>, b: seq<T>, c: seq<T>)
    ensures (a + b) + c == a + (b + c)
  {
  }

  lemma {:induction false} SentAppend(a: seq<Event>, b: seq<Event>)
    ensures Sent(a + b) == Sent(a) + Sent(b)
  {
    if a == [] {
      assert a + b == b;
    } else {
      var ab := a + b;
      assert ab[0] == a[0];
      assert ab[1..] == a[1..] + b;
      SentAppend(a[1..], b);
      var h := if a[0].Tx? then [a[0].b] else [];
      calc {
        Sent(ab);
        h + Sent(ab[1..]);
        h + (Sent(a[1..]) + Sent(b));
        (h + Sent(a[1..])) + Sent(b);
      }
    }
  }

  lemma {:induction false} SentTxs(bs: seq<byte>)
    ensures Sent(Txs(bs)) == bs
  {
    if bs != [] {
      assert Txs(bs)[1..] == Txs(bs[1..]);
      SentTxs(bs[1..]);
    }
  }

  lemma {:induction false} TxsAppend(a: seq<byte>, b: seq<byte>)
    ensures Txs(a + b) == Txs(a) + Txs(b)
  {
    if a == [] {
      assert a + b == b;
    } else {
      assert (a + b)[1..] == a[1..] + b;
      TxsAppend(a[1..], b);
    }
  }

  /** The UART driven by the engine. */
  class Uart {
    var log: seq<Event>
    var rx: seq<Rx>

    constructor (script: seq<Rx>)
      ensures log == [] && rx == script
    {
      log := [];
      rx := script;
    }

    function State(): Wire
      reads this
    {
      Wire(log, rx)
    }

    method WriteByte(b: byte)
      modifies this
      ensures State() == Emit(old(State()), [Tx(b)])
    {
      log := log + [Tx(b)];
    }

    method WriteBuffer(bs: seq<byte>)
      modifies this
      ensures State() == Emit(old(State()), Txs(bs))
    {
      log := log + Txs(bs);
    }

    method TxEnable()
      modifies this
      ensures State() == Emit(old(State()), [TxMode])
    {
      log := log + [TxMode];
    }

    method RxEnable()
      modifies this
      ensures State() == Emit(old(State()), [RxMode])
    {
      log := log + [RxMode];
    }

    method WaitTxFinish()
      modifies this
      ensures State() == Emit(old(State()), [Drain])
    {
      log := log + [Drain];
    }

    method SetBaudRate(rate: Baud)
      modifies this
      ensures State() == Emit(old(State()), [SetBaud(rate)])
    {
      log := log + [SetBaud(rate)];
    }

    method StartDeadline(ticks: nat)
      modifies this
      ensures State() == Emit(old(State()), [Arm(ticks)])
    {
      log := log + [Arm(ticks)];
    }

    /** Polls "data ready" until a byte is there (it is read) or the deadline expires (`None`). */
    method AwaitByte() returns (b: Option<byte>)
      modifies this
      ensures Out(State(), b) == Await(old(State()))
    {
      if rx == [] {
        b := None;
      } else {
        b := if rx[0].Byte? then Some(rx[0].value) else None;
        rx := rx[1..];
      }
    }
  }
}
