/** The I2C transport and the clock as the LCD driver sees them.

    The bus is open-loop and write-only towards the display, so everything
    the driver does is captured by an append-only trace of events: a
    one-byte write to an address, or a pause of some milliseconds.
 */
module I2CBus {

  /** One observable step of the driver: a single-byte write to a 7-bit
      address, or a blocking sleep. */
  datatype Event = Write(addr: int, payload: bv8) | Delay(ms: nat)

  /** The bytes written, in order, with the pauses dropped. */
  function Payloads(t: seq<Event>): (bytes: seq<bv8>)
    ensures |bytes| <= |t|
  {
    if t == [] then []
    else (if t[0].Write? then [t[0].payload] else []) + Payloads(t[1..])
  }

  lemma {:induction false} PayloadsAppend(s: seq<Event>, t: seq<Event>)
    ensures Payloads(s + t) == Payloads(s) + Payloads(t)
  {
    if s != [] {
      assert (s + t)[1..] == s[1..] + t;
      PayloadsAppend(s[1..], t);
    } else {
      assert s + t == t;
    }
  }

  /** A bus handle: the devices that answer a scan, and everything written
      or waited so far. */
  class Bus {
    const devices: seq<int>
    var trace: seq<Event>

    constructor (devices: seq<int>)
      ensures this.devices == devices && trace == []
    {
      this.devices := devices;
      trace := [];
    }

    /** The addresses that acknowledge on the bus. */
    method Scan() returns (found: seq<int>)
      ensures found == devices
    {
      found := devices;
    }

    /** Writes the one-byte buffer [payload] to addr. */
    method WriteTo(addr: int, payload: bv8)
      modifies this
      ensures trace == old(trace) + [Write(addr, payload)]
    {
      trace := trace + [Write(addr, payload)];
    }

    /** Blocks for ms milliseconds. */
    method Sleep(ms: nat)
      modifies this
      ensures trace == old(trace) + [Delay(ms)]
    {
      trace := trace + [Delay(ms)];
    }
  }
}
