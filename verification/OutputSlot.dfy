/**
 The one-chunk slot between the audio output server and the play thread: a
 buffer, how much of it is pending, and the client being served.
 */
module OutputSlot {
  import opened Bytes

  const NOBODY := -1

  datatype Slot = Slot(buffer: seq<byte>, size: nat, active: int)

  /** The chunk bytes land at the front of the buffer; what lay behind them stays. */
  function Filled(slot: Slot, data: seq<byte>): Slot
    requires |data| <= |slot.buffer|
  {
    slot.(buffer := data + slot.buffer[|data|..], size := |data|)
  }

  function Wiped(slot: Slot): Slot {
    slot.(buffer := Zeros(|slot.buffer|))
  }

  function WipedAt(slot: Slot, i: nat): Slot
    requires i < |slot.buffer|
  {
    slot.(buffer := slot.buffer[i := 0])
  }

  function Emptied(slot: Slot): Slot {
    slot.(size := 0)
  }

  function Served(slot: Slot, client: int): Slot {
    slot.(active := client)
  }

  /** What a control client hears when it asks for the queue status. */
  function QueueReply(active: int): string {
    if active != NOBODY then "queued" else "not_queued"
  }

  /** The bytes a frame of the given length hands to the device. */
  function Frame(slot: Slot, len: nat): seq<byte>
    requires len <= |slot.buffer|
  {
    slot.buffer[..len]
  }

  /** A chunk is read back exactly, whatever longer chunk lay in the buffer before, and nothing behind it changes. */
  lemma FilledThenFrame(slot: Slot, data: seq<byte>)
    requires |data| <= |slot.buffer|
    ensures |Filled(slot, data).buffer| == |slot.buffer| && Filled(slot, data).size == |data|
    ensures Frame(Filled(slot, data), |data|) == data
    ensures forall i :: |data| <= i < |slot.buffer| ==> Filled(slot, data).buffer[i] == slot.buffer[i]
    ensures Filled(slot, data).active == slot.active
  {
  }

  /** The slot as the program keeps it. */
  class SharedSlot {
    var buffer: array<byte>
    var size: nat
    var active: int

    ghost function Abs(): Slot
      reads this, buffer
    {
      Slot(buffer[..], size, active)
    }

    constructor (capacity: nat)
      ensures fresh(buffer) && Abs() == Slot(Zeros(capacity), 0, NOBODY)
    {
      buffer := new byte[capacity](_ => 0);
      size, active := 0, NOBODY;
      new;
      assert buffer[..] == Zeros(capacity);
    }

    method Publish(data: seq<byte>)
      requires |data| <= buffer.Length
      modifies this`size, buffer
      ensures Abs() == Filled(old(Abs()), data)
    {
      var i := 0;
      while i < |data|
        invariant 0 <= i <= |data|
        invariant forall k :: 0 <= k < i ==> buffer[k] == data[k]
        invariant forall k :: i <= k < buffer.Length ==> buffer[k] == old(buffer[k])
      {
        buffer[i] := data[i];
        i := i + 1;
      }
      size := |data|;
      assert buffer[..] == Filled(old(Abs()), data).buffer;
    }

    method Wipe()
      modifies buffer
      ensures Abs() == Wiped(old(Abs()))
    {
      var i := 0;
      while i < buffer.Length
        invariant 0 <= i <= buffer.Length
        invariant forall k :: 0 <= k < i ==> buffer[k] == 0
      {
        buffer[i] := 0;
        i := i + 1;
      }
      assert buffer[..] == Zeros(buffer.Length);
    }

    /** Claims the slot for a client if nobody holds it. Only iad clears what is pending. */
    method Claim(client: int, clears: bool) returns (ok: bool)
      modifies this`size, this`active, buffer
      ensures ok <==> old(active) == NOBODY
      ensures !ok ==> Abs() == old(Abs())
      ensures ok && !clears ==> Abs() == Served(old(Abs()), client)
      ensures ok && clears ==> Abs() == Served(Emptied(Wiped(old(Abs()))), client)
    {
      ok := active == NOBODY;
      if ok {
        active := client;
        if clears {
          Wipe();
          size := 0;
        }
      }
    }

    /** Reinitialising the device allocates another buffer; the old one stays where it was. */
    method Replace(garbage: seq<byte>)
      requires |garbage| == buffer.Length
      modifies this`buffer
      ensures fresh(buffer) && Abs() == old(Abs()).(buffer := garbage)
    {
      buffer := new byte[|garbage|](i requires 0 <= i < |garbage| => garbage[i]);
      assert buffer[..] == garbage;
    }
  }
}
