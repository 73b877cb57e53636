/**
 The two output threads at work on the shared slot itself: real buffers, where
 replacing one leaves a clear under way writing to the other. Each step is what
 one thread does next; the interleaving is given.
 */
module OutputThreads {
  import opened AudioOut
  import opened Bytes
  import opened Options
  import opened OutputSlot

  function Frames(played: seq<Played>): (frames: seq<seq<byte>>)
    ensures |frames| == |played| && forall i :: 0 <= i < |played| ==> frames[i] == played[i].bytes
  {
    seq(|played|, i requires 0 <= i < |played| => played[i].bytes)
  }

  class Threads {
    const build: Build
    const slot: SharedSlot
    var server: Server
    var player: Player
    var target: array<byte>          // the buffer that the end-of-client clear was given
    var frames: seq<seq<byte>>       // what the device accepted

    /** The threads and the slot are where the state machine says. */
    ghost predicate Matches(s: State)
      reads this, slot, slot.buffer
    {
      && build == s.build && slot.Abs() == s.slot && server == s.server && player == s.player
      && frames == Frames(s.played)
      && target.Length == slot.buffer.Length
      && (server.Wiping? ==> (server.stale <==> target != slot.buffer))
    }

    constructor (build: Build, capacity: nat)
      ensures Matches(Start(build, capacity)) && fresh(slot) && fresh(slot.buffer) && target == slot.buffer
    {
      var slot := new SharedSlot(capacity);
      this.build, this.slot, target := build, slot, slot.buffer;
      server, player, frames := Accepting, Ready, [];
    }

    method ServerStep(step: Step, ghost s: State)
      requires WellFormed(s) && Enabled(s, step) && Matches(s)
      requires step.Claim? || step.Publish? || step.WipeByte? || step.EmptySlot? || step.Release?
      modifies this`server, this`player, slot`size, slot`active, slot.buffer, target
      ensures Matches(Apply(s, step))
    {
      match step {
        case Claim =>
          var ok := slot.Claim(server.client, build.Iad?);
          server := if ok then Reading(server.client) else Queued(server.client);
        case Publish =>
          slot.Publish(server.data);
          server, player := Reading(server.client), Awake(player);
        case WipeByte(i) =>
          target[i] := 0;
          assert target == slot.buffer ==> slot.buffer[..] == WipedAt(s.slot, i).buffer;
        case EmptySlot =>
          slot.size := 0;
          server := Releasing(server.client);
        case Release =>
          slot.active := NOBODY;
          server, player := Accepting, Awake(player);
      }
    }

    method PlayerStep(step: Step, ghost s: State)
      requires WellFormed(s) && Enabled(s, step) && Matches(s)
      requires step.Look? || step.Measure? || step.Take? || step.SendOk? || step.Recover?
      modifies this`server, this`player, this`frames, slot`buffer, slot`size
      ensures Matches(Apply(s, step))
      ensures slot.buffer == old(slot.buffer) || fresh(slot.buffer)
    {
      match step {
        case Look => player := if slot.size == 0 then Asleep else Looking;
        case Measure => player := Sending(slot.size, []);
        case Take => player := Sending(player.len, player.taken + [slot.buffer[|player.taken|]]);
        case SendOk =>
          frames := frames + [player.taken];
          slot.size := 0;
          player := Ready;
        case Recover(garbage) =>
          if build.Iad? {
            slot.Replace(garbage);
            if server.Wiping? {
              server := Wiping(server.client, true);
            }
          }
          player := Ready;
      }
    }

    /** Steps that leave the slot alone. */
    method LocalStep(step: Step, ghost s: State)
      requires WellFormed(s) && Enabled(s, step) && Matches(s)
      requires
        || step.Accept? || step.Read? || step.ReadEnd? || step.WipeEnd?
        || step.SendFail? || step.WakePlayer? || step.WakeServer?
      modifies this`server, this`player, this`target
      ensures Matches(Apply(s, step))
      ensures target == old(target) || target == slot.buffer
    {
      match step {
        case Accept(client) => server := Accepted(client);
        case Read(data) => server := HasChunk(server.client, data);
        case ReadEnd =>
          if build.Iad? {
            target, server := slot.buffer, Wiping(server.client, false);
          } else {
            server := Releasing(server.client);
          }
        case WipeEnd => server := Emptying(server.client);
        case SendFail => player := Failed;
        case WakePlayer => player := Ready;
        case WakeServer => server := Accepted(server.client);
      }
    }

    method Do(step: Step, ghost s: State)
      requires WellFormed(s) && Enabled(s, step) && Matches(s)
      modifies this, slot, slot.buffer, target
      ensures Matches(Apply(s, step))
      ensures slot.buffer == old(slot.buffer) || fresh(slot.buffer)
      ensures target == old(target) || target == old(slot.buffer)
    {
      if step.Claim? || step.Publish? || step.WipeByte? || step.EmptySlot? || step.Release? {
        ServerStep(step, s);
      } else if step.Look? || step.Measure? || step.Take? || step.SendOk? || step.Recover? {
        PlayerStep(step, s);
      } else {
        LocalStep(step, s);
      }
    }
  }

  /** A frame and the chunk it was made of, as read from a client. */
  ghost predicate Delivers(build: Build, frame: seq<byte>, sent: Sent, read: seq<Chunk>) {
    && 0 <= sent.chunk < |read|
    && var data := read[sent.chunk].data;
       && (build.Standalone? ==> frame == data)
       && (build.Iad? ==> sent.session == read[sent.chunk].session && (frame == [] || |frame| == |data|))
       && (build.Iad? && !sent.replaced ==>
             forall k :: 0 <= k < |frame| ==> frame[k] == data[k] || frame[k] == 0)
  }

  lemma {:induction false} DeliveredAsRead(s: State, sent: seq<Sent>, read: seq<Chunk>)
    requires Safe(s) && |sent| == |s.played|
    requires forall i :: 0 <= i < |sent| ==>
               sent[i] == Sent(s.played[i].chunk, s.played[i].session, s.played[i].replaced)
    requires s.published <= read
    ensures forall i :: 0 <= i < |sent| ==> Delivers(s.build, s.played[i].bytes, sent[i], read)
    ensures forall i, j :: 0 <= i < j < |sent| ==> sent[i].chunk < sent[j].chunk
  {
    forall i | 0 <= i < |sent|
      ensures Delivers(s.build, s.played[i].bytes, sent[i], read)
    {
      assert Faithful(s, s.played[i]);
      assert read[s.played[i].chunk] == s.published[s.played[i].chunk];
    }
  }

  /**
   Any interleaving, on real buffers, against the steps of the run alone. Frame
   number i is the one the device accepted with the i-th SendOk: it renders the
   chunk that was read in the latest Read published by then, byte for byte in the
   standalone daemon. Chunks come in the order they were read, and none twice.
   */
  method RunThreads(build: Build, capacity: nat, steps: seq<Step>)
    returns (frames: seq<seq<byte>>, slot: SharedSlot, ghost end: State)
    requires Exec(Start(build, capacity), steps).Some?
    ensures Exec(Start(build, capacity), steps) == Some(end) && fresh(slot) && slot.Abs() == end.slot
    ensures |frames| == |FramesSent(steps, Counts(0, 0, false), build)|
    ensures forall i :: 0 <= i < |frames| ==>
              Delivers(build, frames[i], FramesSent(steps, Counts(0, 0, false), build)[i], ChunksRead(steps, 0))
    ensures forall i, j :: 0 <= i < j < |frames| ==>
              FramesSent(steps, Counts(0, 0, false), build)[i].chunk
              < FramesSent(steps, Counts(0, 0, false), build)[j].chunk
  {
    var threads := new Threads(build, capacity);
    slot := threads.slot;
    ghost var s := Start(build, capacity);
    end := Exec(s, steps).value;
    var i := 0;
    while i < |steps|
      invariant 0 <= i <= |steps|
      invariant WellFormed(s) && threads.Matches(s) && Exec(s, steps[i..]) == Some(end)
      invariant fresh(threads) && threads.slot == slot && fresh(slot) && fresh(slot.buffer) && fresh(threads.target)
    {
      assert steps[i..][0] == steps[i] && steps[i..][1..] == steps[i + 1..];
      threads.Do(steps[i], s);
      WellFormedKept(s, steps[i]);
      s := Apply(s, steps[i]);
      i := i + 1;
    }
    assert steps[i..] == [];
    frames := threads.frames;
    RunsAreSafe(Start(build, capacity), steps);
    PublishedAsRead(build, capacity, steps, end);
    PlayedAsSent(build, capacity, steps, end);
    DeliveredAsRead(end, FramesSent(steps, Counts(0, 0, false), build), ChunksRead(steps, 0));
  }
}
