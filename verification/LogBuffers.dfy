/** The bounded ring buffer of log entries (`LogBuffer` in daemon.rs). */
module LogBuffers {

  /** The contents after adding one entry to a buffer of this capacity. */
  function Pushed<T>(buffer: seq<T>, capacity: nat, entry: T): seq<T> {
    (if |buffer| == capacity && buffer != [] then buffer[1..] else buffer) + [entry]
  }

  class LogBuffer<T> {
    const capacity: nat
    var buffer: seq<T>

    predicate Valid()
      reads this
    {
      capacity > 0 && |buffer| <= capacity
    }

    constructor (capacity: nat)
      requires capacity > 0
      ensures Valid() && buffer == [] && this.capacity == capacity
    {
      this.capacity, buffer := capacity, [];
    }

    /** Append, evicting the oldest entry at capacity. */
    method AddEntry(entry: T)
      requires Valid()
      modifies this
      ensures Valid() && buffer == Pushed(old(buffer), capacity, entry)
    {
      if |buffer| == capacity {
        buffer := buffer[1..];
      }
      buffer := buffer + [entry];
    }

    method DrainLogs() returns (drained: seq<T>)
      requires Valid()
      modifies this
      ensures Valid() && drained == old(buffer) && buffer == []
    {
      drained := buffer;
      buffer := [];
    }
  }

  function PushedAll<T>(buffer: seq<T>, capacity: nat, entries: seq<T>): seq<T>
    decreases |entries|
  {
    if entries == [] then buffer else PushedAll(Pushed(buffer, capacity, entries[0]), capacity, entries[1..])
  }

  function LastN<T>(s: seq<T>, n: nat): seq<T> {
    if |s| <= n then s else s[|s| - n..]
  }

  /** However many entries are added, the buffer holds exactly the last ones that fit, in order. */
  lemma {:induction false} KeepsTheLast<T>(buffer: seq<T>, capacity: nat, entries: seq<T>)
    requires capacity > 0 && |buffer| <= capacity
    ensures PushedAll(buffer, capacity, entries) == LastN(buffer + entries, capacity)
    decreases |entries|
  {
    if entries == [] {
      assert buffer + entries == buffer;
    } else {
      KeepsTheLast(Pushed(buffer, capacity, entries[0]), capacity, entries[1..]);
      if |buffer| == capacity {
        assert buffer[1..] + [entries[0]] + entries[1..] == (buffer + entries)[1..];
      } else {
        assert buffer + [entries[0]] + entries[1..] == buffer + entries;
      }
    }
  }
}
