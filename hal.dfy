// The Arduino primitives the handler uses, abstracted: pin mode changes, pin
// writes and delays are recorded in an event trace, the analog-to-digital
// converter yields a supplied sample, and a serial port is a pair of byte
// queues (what is still to be read, what has been written).

module Hal {

  datatype Level = Low | High

  datatype Direction = Input | Output

  datatype Event =
    | ModeSet(pin: int, direction: Direction)
    | Wrote(pin: int, level: Level)
    | Waited(ms: int)
    | Sampled(pin: int)

  /** GPIO, ADC and the delay primitive, observed as the trace of what was done to them. */
  class Board {
    var trace: seq<Event>
    // The value analogRead yields on this board.
    var sample: int

    constructor (sample: int)
      ensures trace == [] && this.sample == sample
    {
      trace := [];
      this.sample := sample;
    }

    method PinMode(pin: int, direction: Direction)
      modifies this`trace
      ensures trace == old(trace) + [ModeSet(pin, direction)]
    {
      trace := trace + [ModeSet(pin, direction)];
    }

    method DigitalWrite(pin: int, level: Level)
      modifies this`trace
      ensures trace == old(trace) + [Wrote(pin, level)]
    {
      trace := trace + [Wrote(pin, level)];
    }

    /** Blocks for ms milliseconds; only the argument is recorded. */
    method Delay(ms: int)
      modifies this`trace
      ensures trace == old(trace) + [Waited(ms)]
    {
      trace := trace + [Waited(ms)];
    }

    method AnalogRead(pin: int) returns (value: int)
      modifies this`trace
      ensures value == sample
      ensures trace == old(trace) + [Sampled(pin)]
    {
      value := sample;
      trace := trace + [Sampled(pin)];
    }
  }

  /** A duplex serial stream: rx holds the bytes not read yet, tx every byte printed so far. */
  class Stream {
    var rx: string
    var tx: string

    constructor (incoming: string)
      ensures rx == incoming && tx == []
    {
      rx := incoming;
      tx := [];
    }

    /** The number of bytes that can be read without blocking. */
    function Available(): (n: nat)
      reads this
      ensures n == 0 <==> rx == []
    {
      |rx|
    }

    /** The next byte as a non-negative code, or -1 when none is available. */
    method Read() returns (b: int)
      modifies this`rx
      ensures old(rx) == [] ==> b == -1 && rx == []
      ensures old(rx) != [] ==> b == old(rx)[0] as int && rx == old(rx)[1..]
    {
      if rx == [] {
        b := -1;
      } else {
        b := rx[0] as int;
        rx := rx[1..];
      }
    }

    method Print(s: string)
      modifies this`tx
      ensures tx == old(tx) + s
    {
      tx := tx + s;
    }
  }
}
