/**
 Audio output as an interleaving of the server thread, which reads chunks from
 one client at a time, and the play thread, which hands them to the device.
 They share one slot, one mutex and one condition variable. The standalone
 daemon and iad run the same protocol, except that iad clears the slot when a
 client starts and ends and replaces the buffer after a failed send.

 Critical sections that touch only data guarded by the mutex are one step. The
 play thread keeps the mutex from its look at the size until the device has
 answered: it sees a chunk, makes a frame of the current size, and the device
 takes the frame byte by byte. iad's end-of-client clear and its buffer
 replacement run without the mutex and may fall between any two steps, the
 clear byte by byte and in any order.
 */
module AudioOut {
  import opened Bytes
  import opened Options
  import opened OutputSlot
  import opened Sequences

  datatype Build = Standalone | Iad

  datatype Server =
    | Accepting
    | Accepted(client: int)             // wants the mutex, to claim the slot
    | Queued(client: int)               // in cond_wait, until the slot is free
    | Reading(client: int)
    | HasChunk(client: int, data: seq<byte>)
    | Wiping(client: int, stale: bool)  // iad: zeroing the buffer, without the mutex; stale once it was replaced
    | Emptying(client: int)             // iad: about to zero the size, without the mutex
    | Releasing(client: int)            // wants the mutex, to give up the slot

  datatype Player =
    | Ready                             // wants the mutex, to look at the slot
    | Asleep                            // in cond_wait
    | Looking                           // holds the mutex, has seen a chunk
    | Sending(len: nat, taken: seq<byte>) // holds the mutex, has made a frame; the device has taken these bytes
    | Failed                            // about to reinitialise the device

  datatype Chunk = Chunk(session: nat, data: seq<byte>)
  datatype Played = Played(chunk: nat, session: nat, bytes: seq<byte>, replaced: bool)

  datatype State = State(
    build: Build,
    slot: Slot,
    server: Server,
    player: Player,
    session: nat,            // clients admitted so far
    published: seq<Chunk>,
    played: seq<Played>,     // frames the device accepted
    overwritten: nat,        // chunks replaced in the slot by a newer one
    cleared: nat,            // chunks iad cleared before they were played
    replaced: bool)          // the buffer was replaced since the last publication

  datatype Step =
    | Accept(client: int)
    | Claim
    | Read(data: seq<byte>)
    | ReadEnd
    | Publish
    | WipeByte(i: nat)
    | WipeEnd
    | EmptySlot
    | Release
    | Look
    | Measure
    | Take
    | SendOk
    | SendFail
    | Recover(garbage: seq<byte>)
    | WakePlayer             // spurious wake-ups
    | WakeServer

  function Start(build: Build, capacity: nat): State {
    State(build, Slot(Zeros(capacity), 0, NOBODY), Accepting, Ready, 0, [], [], 0, 0, false)
  }

  /** Only the play thread keeps the mutex from one step to the next. */
  predicate MutexFree(s: State) {
    !Busy(s.player)
  }

  predicate Busy(player: Player) {
    player.Looking? || player.Sending?
  }

  predicate InSession(server: Server) {
    !server.Accepting? && !server.Accepted? && !server.Queued?
  }

  /** A published chunk is still in the slot, or in the device's hands. */
  predicate Pending(s: State) {
    s.slot.size != 0 || Busy(s.player)
  }

  function Awake(player: Player): Player {
    if player.Asleep? then Ready else player
  }

  predicate Enabled(s: State, step: Step) {
    match step
    case Accept(client) => s.server.Accepting? && client >= 0
    case Claim => s.server.Accepted? && MutexFree(s)
    case Read(data) => s.server.Reading? && 0 < |data| <= |s.slot.buffer|
    case ReadEnd => s.server.Reading?
    case Publish => s.server.HasChunk? && MutexFree(s)
    case WipeByte(i) => s.server.Wiping? && i < |s.slot.buffer|
    case WipeEnd => s.server.Wiping? && (s.server.stale || s.slot.buffer == Zeros(|s.slot.buffer|))
    case EmptySlot => s.server.Emptying?
    case Release => s.server.Releasing? && MutexFree(s)
    case Look => s.player.Ready?
    case Measure => s.player.Looking?
    case Take => s.player.Sending? && |s.player.taken| < s.player.len
    case SendOk => s.player.Sending? && |s.player.taken| == s.player.len
    case SendFail => s.player.Sending?
    case Recover(garbage) => s.player.Failed? && |garbage| == |s.slot.buffer|
    case WakePlayer => s.player.Asleep?
    case WakeServer => s.server.Queued?
  }

  ghost predicate WellFormed(s: State) {
    && (s.server.HasChunk? ==> 0 < |s.server.data| <= |s.slot.buffer|)
    && (s.player.Sending? ==> |s.player.taken| <= s.player.len <= |s.slot.buffer|)
    && s.slot.size <= |s.slot.buffer|
    && (Pending(s) ==> s.published != [])
  }

  function Apply(s: State, step: Step): State
    requires WellFormed(s) && Enabled(s, step)
  {
    match step
    case Accept(client) => s.(server := Accepted(client))
    case Claim => ClaimSlot(s)
    case Read(data) => s.(server := HasChunk(s.server.client, data))
    case ReadEnd => s.(server := if s.build.Iad? then Wiping(s.server.client, false) else Releasing(s.server.client))
    case Publish =>
      // pthread_cond_signal: the server runs, so the only thread it can wake is the player
      s.(slot := Filled(s.slot, s.server.data), server := Reading(s.server.client), player := Awake(s.player),
         published := s.published + [Chunk(s.session, s.server.data)], replaced := false,
         overwritten := s.overwritten + if s.slot.size != 0 then 1 else 0)
    case WipeByte(i) =>
      // a stale wipe goes on in the buffer that was replaced
      if s.server.stale then s else s.(slot := WipedAt(s.slot, i))
    case WipeEnd => s.(server := Emptying(s.server.client))
    case EmptySlot =>
      s.(slot := Emptied(s.slot), server := Releasing(s.server.client),
         cleared := s.cleared + if s.slot.size != 0 && MutexFree(s) then 1 else 0)
    case Release => s.(slot := Served(s.slot, NOBODY), server := Accepting, player := Awake(s.player))
    case Look => s.(player := if s.slot.size == 0 then Asleep else Looking)
    case Measure => s.(player := Sending(s.slot.size, []))
    case Take => s.(player := Sending(s.player.len, s.player.taken + [s.slot.buffer[|s.player.taken|]]))
    case SendOk =>
      s.(slot := Emptied(s.slot), player := Ready,
         played := s.played + [Played(|s.published| - 1, s.session, s.player.taken, s.replaced)])
    case SendFail => s.(player := Failed, cleared := s.cleared + if s.slot.size == 0 then 1 else 0)
    case Recover(garbage) =>
      if s.build.Iad? then
        s.(player := Ready, slot := s.slot.(buffer := garbage), replaced := true,
           server := if s.server.Wiping? then Wiping(s.server.client, true) else s.server)
      else s.(player := Ready)
    case WakePlayer => s.(player := Ready)
    case WakeServer => s.(server := Accepted(s.server.client))
  }

  function ClaimSlot(s: State): State
    requires s.server.Accepted?
  {
    if s.slot.active != NOBODY then s.(server := Queued(s.server.client))
    else
      var taken := s.(server := Reading(s.server.client), session := s.session + 1);
      if s.build.Iad? then
        taken.(slot := Served(Emptied(Wiped(s.slot)), s.server.client),
               cleared := s.cleared + if s.slot.size != 0 then 1 else 0)
      else
        taken.(slot := Served(s.slot, s.server.client))
  }

  lemma WellFormedKept(s: State, step: Step)
    requires WellFormed(s) && Enabled(s, step)
    ensures WellFormed(Apply(s, step))
    ensures Apply(s, step).build == s.build && |Apply(s, step).slot.buffer| == |s.slot.buffer|
  {
  }

  /** The state after a run of steps, or None if some step was not enabled. */
  function Exec(s: State, steps: seq<Step>): (end: Option<State>)
    requires WellFormed(s)
    ensures end.Some? ==> WellFormed(end.value) && end.value.build == s.build
    decreases |steps|
  {
    if steps == [] then Some(s)
    else if Enabled(s, steps[0]) then
      WellFormedKept(s, steps[0]);
      Exec(Apply(s, steps[0]), steps[1..])
    else None
  }

  ghost predicate Reachable(s: State) {
    exists capacity, steps :: Exec(Start(s.build, capacity), steps) == Some(s)
  }

  // ---------- Sessions and wake-ups ----------

  /** active_client_sock names the client being served, and the one acceptor never has to queue. */
  ghost predicate Sessions(s: State) {
    && !s.server.Queued?
    && (!s.server.Accepting? ==> s.server.client >= 0)
    && s.slot.active == (if InSession(s.server) then s.server.client else NOBODY)
    && (s.server.Wiping? || s.server.Emptying? ==> s.build.Iad?)
  }

  /** A sleeping player has nothing to play, and what is pending is the last chunk published. */
  ghost predicate Slots(s: State) {
    && (s.player.Asleep? ==> s.slot.size == 0)
    && (Pending(s) ==> s.published != [])
    && (s.slot.size != 0 ==> s.slot.size == |s.published[|s.published| - 1].data|)
    && (s.player.Sending? && s.player.len != 0 ==> s.player.len == |s.published[|s.published| - 1].data|)
    && (s.player.Sending? && s.player.len == 0 ==> s.slot.size == 0)
    && (Busy(s.player) && s.slot.size == 0 ==> s.build.Iad? && s.server.Releasing?)
    && (forall i :: 0 <= i < |s.published| ==>
          0 < |s.published[i].data| <= |s.slot.buffer| && s.published[i].session <= s.session)
    && (s.build.Iad? && Pending(s) ==>
          InSession(s.server) && s.published[|s.published| - 1].session == s.session
          && (s.slot.size != 0 ==> !s.server.Releasing?))
  }

  lemma SessionsKept(s: State, step: Step)
    requires WellFormed(s) && Sessions(s) && Enabled(s, step)
    ensures Sessions(Apply(s, step))
  {
  }

  lemma SlotsKept(s: State, step: Step)
    requires WellFormed(s) && Sessions(s) && Slots(s) && Enabled(s, step)
    ensures Slots(Apply(s, step))
  {
  }

  // ---------- Every chunk accounted for ----------

  /** Played frames name published chunks in strictly increasing order; the pending chunk is not among them. */
  ghost predicate Ordered(s: State) {
    && (forall i, j :: 0 <= i < j < |s.played| ==> s.played[i].chunk < s.played[j].chunk)
    && (forall i :: 0 <= i < |s.played| ==> s.played[i].chunk < |s.published| - if Pending(s) then 1 else 0)
    && (forall i :: 0 <= i < |s.played| && s.build.Iad? ==>
          s.played[i].session == s.published[s.played[i].chunk].session)
  }

  /** Without clears, the newest chunk is pending or was played. */
  ghost predicate NewestKept(s: State) {
    s.build.Standalone? && s.published != [] && !Pending(s) ==>
      s.played != [] && s.played[|s.played| - 1].chunk == |s.published| - 1
  }

  ghost predicate Balanced(s: State) {
    && |s.published| == |s.played| + s.overwritten + s.cleared + (if Pending(s) then 1 else 0)
    && (s.build.Standalone? ==> s.cleared == 0)
  }

  lemma SendKeepsOrder(s: State)
    requires WellFormed(s) && Sessions(s) && Slots(s) && Ordered(s) && Enabled(s, SendOk)
    ensures Ordered(Apply(s, SendOk))
  {
  }

  lemma OrderKept(s: State, step: Step)
    requires WellFormed(s) && Sessions(s) && Slots(s) && Ordered(s) && Enabled(s, step)
    ensures Ordered(Apply(s, step))
  {
    if step.SendOk? {
      SendKeepsOrder(s);
    } else {
      var s' := Apply(s, step);
      assert s'.played == s.played && s.published <= s'.published;
      assert Pending(s') ==> Pending(s) || |s'.published| > |s.published|;
    }
  }

  lemma NewestStays(s: State, step: Step)
    requires WellFormed(s) && Sessions(s) && Slots(s) && NewestKept(s) && Enabled(s, step)
    ensures NewestKept(Apply(s, step))
  {
  }

  lemma BalanceKept(s: State, step: Step)
    requires WellFormed(s) && Sessions(s) && Slots(s) && Balanced(s) && Enabled(s, step)
    ensures Balanced(Apply(s, step))
  {
  }

  // ---------- What the device hears ----------

  /** iad's end-of-client clear is under way, or done and the slot not yet given up. */
  predicate Clearing(s: State) {
    s.build.Iad? && (s.server.Wiping? || s.server.Emptying? || s.server.Releasing?)
  }

  /** Each byte is the chunk's or zero. */
  ghost predicate ChunkOrZero(bytes: seq<byte>, data: seq<byte>) {
    |bytes| <= |data| && forall k :: 0 <= k < |bytes| ==> bytes[k] == data[k] || bytes[k] == 0
  }

  /** Bytes of the pending chunk, which only a clear under way can have changed. */
  ghost predicate Undamaged(s: State, bytes: seq<byte>, data: seq<byte>) {
    ChunkOrZero(bytes, data) && (!Clearing(s) ==> bytes <= data)
  }

  /** Unless the buffer was replaced, it holds the pending chunk, and so do the bytes the device has taken. */
  ghost predicate Contents(s: State)
    requires WellFormed(s) && Slots(s)
  {
    && (s.build.Standalone? ==> !s.replaced)
    && (s.server.Wiping? && s.server.stale ==> s.replaced)
    && (Pending(s) && !s.replaced ==>
          var data := s.published[|s.published| - 1].data;
          Undamaged(s, Frame(s.slot, |data|), data) && (s.player.Sending? ==> Undamaged(s, s.player.taken, data)))
  }

  /**
   A frame carries the chunk's own bytes, or in iad zeros in place of some of
   them, or nothing, or whatever a replaced buffer holds.
   */
  ghost predicate Faithful(s: State, p: Played)
    requires p.chunk < |s.published|
  {
    var data := s.published[p.chunk].data;
    && (p.bytes == [] || |p.bytes| == |data|)
    && (!p.replaced ==> ChunkOrZero(p.bytes, data))
    && (s.build.Standalone? ==> p.bytes == data)
  }

  ghost predicate Heard(s: State) {
    forall i :: 0 <= i < |s.played| ==> s.played[i].chunk < |s.published| && Faithful(s, s.played[i])
  }

  lemma TakeKeepsContents(s: State)
    requires WellFormed(s) && Sessions(s) && Slots(s) && Contents(s) && Enabled(s, Take)
    requires WellFormed(Apply(s, Take)) && Slots(Apply(s, Take))
    ensures Contents(Apply(s, Take))
  {
    if !s.replaced {
      var data := s.published[|s.published| - 1].data;
      assert Frame(s.slot, |data|)[|s.player.taken|] == s.slot.buffer[|s.player.taken|];
    }
  }

  lemma ContentsKept(s: State, step: Step)
    requires WellFormed(s) && Sessions(s) && Slots(s) && Contents(s) && Enabled(s, step)
    requires WellFormed(Apply(s, step)) && Slots(Apply(s, step))
    ensures Contents(Apply(s, step))
  {
    if step.Publish? {
      FilledThenFrame(s.slot, s.server.data);
    } else if step.Take? {
      TakeKeepsContents(s);
    }
  }

  lemma AcceptedIsFaithful(s: State)
    requires WellFormed(s) && Sessions(s) && Slots(s) && Contents(s) && Enabled(s, SendOk)
    ensures var s' := Apply(s, SendOk); Faithful(s', s'.played[|s.played|])
    ensures !s.replaced && !Clearing(s) ==> s.player.taken == s.published[|s.published| - 1].data
  {
  }

  lemma HeardKept(s: State, step: Step)
    requires WellFormed(s) && Sessions(s) && Slots(s) && Contents(s) && Heard(s) && Enabled(s, step)
    ensures Heard(Apply(s, step))
  {
    if step.SendOk? {
      AcceptedIsFaithful(s);
    }
    OldFramesStayFaithful(s, step);
  }

  lemma OldFramesStayFaithful(s: State, step: Step)
    requires WellFormed(s) && Heard(s) && Enabled(s, step)
    ensures var s' := Apply(s, step);
            && s.played == s'.played[..|s.played|] && s.published <= s'.published
            && forall i :: 0 <= i < |s.played| ==> s'.played[i].chunk < |s'.published| && Faithful(s', s'.played[i])
  {
    var s' := Apply(s, step);
    forall i | 0 <= i < |s.played|
      ensures s'.played[i].chunk < |s'.published| && Faithful(s', s'.played[i])
    {
      assert s'.played[i] == s.played[i] && Faithful(s, s.played[i]);
    }
  }

  // ---------- Whole runs ----------

  ghost predicate Safe(s: State) {
    WellFormed(s) && Sessions(s) && Slots(s) && Ordered(s) && NewestKept(s) && Balanced(s) && Contents(s) && Heard(s)
  }

  lemma SafeKept(s: State, step: Step)
    requires Safe(s) && Enabled(s, step)
    ensures Safe(Apply(s, step))
  {
    WellFormedKept(s, step);
    SessionsKept(s, step);
    SlotsKept(s, step);
    OrderKept(s, step);
    NewestStays(s, step);
    BalanceKept(s, step);
    ContentsKept(s, step);
    HeardKept(s, step);
  }

  lemma {:induction false} RunsAreSafe(s: State, steps: seq<Step>)
    requires Safe(s) && Exec(s, steps).Some?
    ensures Safe(Exec(s, steps).value)
    decreases |steps|
  {
    if steps == [] {
    } else {
      SafeKept(s, steps[0]);
      RunsAreSafe(Apply(s, steps[0]), steps[1..]);
    }
  }

  lemma ReachableIsSafe(s: State)
    requires Reachable(s)
    ensures Safe(s)
  {
    var capacity, steps :| Exec(Start(s.build, capacity), steps) == Some(s);
    RunsAreSafe(Start(s.build, capacity), steps);
  }

  /**
   No lost wake-up: a play thread asleep and not signalled has an empty slot.
   So whenever a chunk is in the slot the play thread has a step to take.
   */
  lemma NoLostWakeUp(s: State)
    requires Reachable(s)
    ensures s.player.Asleep? ==> MutexFree(s) && s.slot.size == 0
    ensures s.slot.size != 0 ==>
              Enabled(s, Look) || Enabled(s, Measure) || Enabled(s, Take) || Enabled(s, SendOk) || s.player.Failed?
  {
    ReachableIsSafe(s);
  }

  /** The play thread is awake right after a chunk has come in or a session has ended. */
  lemma SignalsWake(s: State, step: Step)
    requires WellFormed(s) && Enabled(s, step) && (step.Publish? || step.Release?)
    ensures !Apply(s, step).player.Asleep?
  {
  }

  /** The server's next step is open to it, whichever chunk or client it is about to get. */
  ghost predicate ServerCanMove(s: State) {
    match s.server
    case Accepting => forall client :: client >= 0 ==> Enabled(s, Accept(client))
    case Accepted(_) => Enabled(s, Claim)
    case Queued(_) => false
    case Reading(_) =>
      Enabled(s, ReadEnd) && forall data :: 0 < |data| <= |s.slot.buffer| ==> Enabled(s, Read(data))
    case HasChunk(_, _) => Enabled(s, Publish)
    case Wiping(_, _) => Enabled(s, WipeEnd) || exists i: nat :: i < |s.slot.buffer| && Enabled(s, WipeByte(i))
    case Emptying(_) => Enabled(s, EmptySlot)
    case Releasing(_) => Enabled(s, Release)
  }

  ghost predicate PlayerCanMove(s: State) {
    match s.player
    case Ready => Enabled(s, Look)
    case Asleep => false
    case Looking => Enabled(s, Measure)
    case Sending(_, _) => Enabled(s, SendFail) && (Enabled(s, Take) || Enabled(s, SendOk))
    case Failed => forall garbage :: |garbage| == |s.slot.buffer| ==> Enabled(s, Recover(garbage))
  }

  /** No deadlock: each thread can move, or waits for the mutex while the other can move, or has nothing to play. */
  lemma NobodyIsStuck(s: State)
    requires Reachable(s)
    ensures PlayerCanMove(s) || (s.player.Asleep? && s.slot.size == 0 && Enabled(s, WakePlayer))
    ensures ServerCanMove(s) || (!MutexFree(s) && PlayerCanMove(s))
  {
    ReachableIsSafe(s);
    PlayerMovesOrSleeps(s);
    ServerMovesOrWaits(s);
  }

  lemma PlayerMovesOrSleeps(s: State)
    requires WellFormed(s)
    ensures PlayerCanMove(s) || s.player.Asleep?
  {
  }

  lemma ServerMovesOrWaits(s: State)
    requires WellFormed(s) && Sessions(s)
    ensures ServerCanMove(s) || !MutexFree(s)
  {
    if s.server.Wiping? && s.slot.buffer != Zeros(|s.slot.buffer|) {
      var i :| 0 <= i < |s.slot.buffer| && s.slot.buffer[i] != 0;
      assert Enabled(s, WipeByte(i));
    }
  }

  /**
   The slot names a client exactly between claim and release, and then the one
   being read. So the acceptor's wait for a free slot never blocks, and a
   control client hears "queued" exactly during a session.
   */
  lemma SlotFollowsSession(s: State)
    requires Reachable(s)
    ensures s.slot.active == if InSession(s.server) then s.server.client else NOBODY
    ensures Enabled(s, Claim) ==> Apply(s, Claim).server == Reading(s.server.client)
    ensures QueueReply(s.slot.active) == if InSession(s.server) then "queued" else "not_queued"
  {
    ReachableIsSafe(s);
    assert |"queued"| == 6 && |"not_queued"| == 10;
  }

  /** Chunks are played at most once and in the order they were published. */
  lemma ChunksPlayInOrder(s: State, i: nat, j: nat)
    requires Reachable(s) && i < j < |s.played|
    ensures s.played[i].chunk < s.played[j].chunk < |s.published|
  {
    ReachableIsSafe(s);
  }

  /** No chunk vanishes uncounted. */
  lemma ChunksAreConserved(s: State)
    requires Reachable(s)
    ensures |s.published| == |s.played| + s.overwritten + s.cleared + if Pending(s) then 1 else 0
  {
    ReachableIsSafe(s);
  }

  /**
   In the standalone daemon a failed send costs nothing: the chunk stays whole
   in the slot, and the newest chunk is at any time either pending or played.
   */
  lemma FailedSendIsRetried(s: State)
    requires Reachable(s) && s.build.Standalone? && s.published != []
    ensures Pending(s) || (s.played != [] && s.played[|s.played| - 1].chunk == |s.published| - 1)
    ensures Enabled(s, SendFail) ==> var s' := Apply(s, SendFail); s'.slot == s.slot && Pending(s')
    ensures s.cleared == 0
  {
    ReachableIsSafe(s);
  }

  // ---------- What the steps of a run say ----------

  /** The chunks read, each with the number of clients admitted so far; n had been admitted before the run. */
  function ChunksRead(steps: seq<Step>, n: nat): seq<Chunk> {
    if steps == [] then []
    else ReadBy(steps[0], n) + ChunksRead(steps[1..], if steps[0].Claim? then n + 1 else n)
  }

  function ReadBy(step: Step, n: nat): seq<Chunk> {
    if step.Read? then [Chunk(n, step.data)] else []
  }

  /** What the server has published, and what it has read and is about to publish. */
  function Taken(s: State): seq<Chunk> {
    s.published + if s.server.HasChunk? then [Chunk(s.session, s.server.data)] else []
  }

  lemma StepTakes(s: State, step: Step)
    requires WellFormed(s) && Sessions(s) && Enabled(s, step)
    ensures Taken(Apply(s, step)) == Taken(s) + ReadBy(step, s.session)
    ensures Apply(s, step).session == s.session + if step.Claim? then 1 else 0
  {
  }

  /** The server publishes exactly the chunks it reads, whole, in order and in their sessions. */
  lemma {:induction false} ReadIsPublished(s: State, steps: seq<Step>)
    requires WellFormed(s) && Sessions(s) && Exec(s, steps).Some?
    ensures Taken(Exec(s, steps).value) == Taken(s) + ChunksRead(steps, s.session)
    decreases |steps|
  {
    if steps == [] {
    } else {
      var s' := Apply(s, steps[0]);
      WellFormedKept(s, steps[0]);
      SessionsKept(s, steps[0]);
      StepTakes(s, steps[0]);
      ReadIsPublished(s', steps[1..]);
      Associate(Taken(s), ReadBy(steps[0], s.session), ChunksRead(steps[1..], s'.session));
    }
  }

  /** A frame accepted: the number of its chunk, the session it was played in, whether the buffer was replaced. */
  datatype Sent = Sent(chunk: int, session: nat, replaced: bool)

  /** The counts before a step: chunks published, clients admitted, and whether iad replaced the buffer since. */
  datatype Counts = Counts(published: nat, admitted: nat, replaced: bool)

  function CountsAfter(c: Counts, step: Step, build: Build): Counts {
    if step.Publish? then c.(published := c.published + 1, replaced := false)
    else if step.Claim? then c.(admitted := c.admitted + 1)
    else if step.Recover? && build.Iad? then c.(replaced := true)
    else c
  }

  function SentBy(c: Counts, step: Step): seq<Sent> {
    if step.SendOk? then [Sent(c.published - 1, c.admitted, c.replaced)] else []
  }

  function FramesSent(steps: seq<Step>, c: Counts, build: Build): seq<Sent> {
    if steps == [] then []
    else SentBy(c, steps[0]) + FramesSent(steps[1..], CountsAfter(c, steps[0], build), build)
  }

  function CountsOf(s: State): Counts {
    Counts(|s.published|, s.session, s.replaced)
  }

  function SentFrames(played: seq<Played>): (sent: seq<Sent>)
    ensures |sent| == |played|
    ensures forall i :: 0 <= i < |played| ==>
              sent[i] == Sent(played[i].chunk, played[i].session, played[i].replaced)
  {
    seq(|played|, i requires 0 <= i < |played| => Sent(played[i].chunk, played[i].session, played[i].replaced))
  }

  lemma StepSends(s: State, step: Step)
    requires WellFormed(s) && Sessions(s) && Enabled(s, step)
    ensures SentFrames(Apply(s, step).played) == SentFrames(s.played) + SentBy(CountsOf(s), step)
    ensures CountsOf(Apply(s, step)) == CountsAfter(CountsOf(s), step, s.build)
  {
  }

  /** Each frame accepted is of the chunk published last, in the session of the client admitted last. */
  lemma {:induction false} SentIsNewest(s: State, steps: seq<Step>)
    requires WellFormed(s) && Sessions(s) && Exec(s, steps).Some?
    ensures SentFrames(Exec(s, steps).value.played) == SentFrames(s.played) + FramesSent(steps, CountsOf(s), s.build)
    decreases |steps|
  {
    if steps == [] {
    } else {
      var s' := Apply(s, steps[0]);
      WellFormedKept(s, steps[0]);
      SessionsKept(s, steps[0]);
      StepSends(s, steps[0]);
      SentIsNewest(s', steps[1..]);
      Associate(SentFrames(s.played), SentBy(CountsOf(s), steps[0]), FramesSent(steps[1..], CountsOf(s'), s.build));
    }
  }

  /** The client whose connection was accepted last. */
  function LastClient(steps: seq<Step>, client: int): int {
    if steps == [] then client
    else LastClient(steps[1..], if steps[0].Accept? then steps[0].client else client)
  }

  lemma {:induction false} ServesLastClient(s: State, steps: seq<Step>, client: int)
    requires WellFormed(s) && Exec(s, steps).Some? && (!s.server.Accepting? ==> s.server.client == client)
    ensures var end := Exec(s, steps).value;
            !end.server.Accepting? ==> end.server.client == LastClient(steps, client)
    decreases |steps|
  {
    if steps == [] {
    } else {
      WellFormedKept(s, steps[0]);
      ServesLastClient(Apply(s, steps[0]), steps[1..], if steps[0].Accept? then steps[0].client else client);
    }
  }

  /** How often along the run a chunk was published while another was in the slot. */
  function Overwrites(s: State, steps: seq<Step>): nat
    requires WellFormed(s)
    decreases |steps|
  {
    if steps == [] || !Enabled(s, steps[0]) then 0
    else
      WellFormedKept(s, steps[0]);
      (if steps[0].Publish? && s.slot.size != 0 then 1 else 0) + Overwrites(Apply(s, steps[0]), steps[1..])
  }

  lemma {:induction false} OverwritesAreCounted(s: State, steps: seq<Step>)
    requires WellFormed(s) && Exec(s, steps).Some?
    ensures Exec(s, steps).value.overwritten == s.overwritten + Overwrites(s, steps)
    decreases |steps|
  {
    if steps == [] {
    } else {
      WellFormedKept(s, steps[0]);
      assert Apply(s, steps[0]).overwritten ==
             s.overwritten + if steps[0].Publish? && s.slot.size != 0 then 1 else 0;
      OverwritesAreCounted(Apply(s, steps[0]), steps[1..]);
    }
  }

  /** What was published, with what the server has read and is about to publish, is what was read, byte for byte. */
  lemma {:induction false} PublishedAsRead(build: Build, capacity: nat, steps: seq<Step>, s: State)
    requires Exec(Start(build, capacity), steps) == Some(s)
    ensures s.published + (if s.server.HasChunk? then [Chunk(s.session, s.server.data)] else []) == ChunksRead(steps, 0)
  {
    ReadIsPublished(Start(build, capacity), steps);
    assert Taken(Start(build, capacity)) == [];
  }

  /** What was played is what was newest when the device accepted it. */
  lemma {:induction false} PlayedAsSent(build: Build, capacity: nat, steps: seq<Step>, s: State)
    requires Exec(Start(build, capacity), steps) == Some(s)
    ensures |s.played| == |FramesSent(steps, Counts(0, 0, false), build)|
    ensures forall i :: 0 <= i < |s.played| ==>
              FramesSent(steps, Counts(0, 0, false), build)[i] ==
              Sent(s.played[i].chunk, s.played[i].session, s.played[i].replaced)
  {
    SentIsNewest(Start(build, capacity), steps);
    assert SentFrames(s.played) == FramesSent(steps, Counts(0, 0, false), build);
  }

  /** Who is served is who was accepted last, and overwritten chunks are those a publication found in the slot. */
  lemma {:induction false} ServedAsAccepted(build: Build, capacity: nat, steps: seq<Step>, s: State)
    requires Exec(Start(build, capacity), steps) == Some(s)
    ensures s.slot.active == if InSession(s.server) then LastClient(steps, NOBODY) else -1
    ensures s.overwritten == Overwrites(Start(build, capacity), steps)
  {
    ServesLastClient(Start(build, capacity), steps, NOBODY);
    OverwritesAreCounted(Start(build, capacity), steps);
    RunsAreSafe(Start(build, capacity), steps);
  }

  /** Admitting a client empties the slot in iad, to the last byte, and leaves it alone in the standalone daemon. */
  lemma AdmissionClears(s: State)
    requires Reachable(s) && Enabled(s, Claim)
    ensures WellFormed(s)
    ensures s.build.Standalone? ==> Apply(s, Claim).slot.(active := -1) == s.slot
    ensures s.build.Iad? ==> Apply(s, Claim).slot.size == 0
    ensures s.build.Iad? ==> var buffer := Apply(s, Claim).slot.buffer;
              |buffer| == |s.slot.buffer| && forall i :: 0 <= i < |buffer| ==> buffer[i] == 0
  {
    ReachableIsSafe(s);
  }

  /**
   From the end of one client's clear to the admission of the next, iad's buffer
   holds only zeros, unless it was replaced since the last chunk.
   */
  ghost predicate ZerosBetween(s: State) {
    && (s.build.Iad? && (!InSession(s.server) || s.server.Emptying? || s.server.Releasing?) ==>
          s.replaced || forall i :: 0 <= i < |s.slot.buffer| ==> s.slot.buffer[i] == 0)
    && (s.server.Wiping? && s.server.stale ==> s.replaced)
  }

  lemma ZerosBetweenKept(s: State, step: Step)
    requires WellFormed(s) && Sessions(s) && ZerosBetween(s) && Enabled(s, step)
    ensures ZerosBetween(Apply(s, step))
  {
  }

  lemma {:induction false} SessionEndsClear(build: Build, capacity: nat, steps: seq<Step>, s: State)
    requires Exec(Start(build, capacity), steps) == Some(s)
    ensures build.Iad? && (!InSession(s.server) || s.server.Emptying? || s.server.Releasing?) && !s.replaced ==>
              forall i :: 0 <= i < |s.slot.buffer| ==> s.slot.buffer[i] == 0
  {
    ZerosAlong(Start(build, capacity), steps);
  }

  lemma {:induction false} ZerosAlong(s: State, steps: seq<Step>)
    requires WellFormed(s) && Sessions(s) && ZerosBetween(s) && Exec(s, steps).Some?
    ensures ZerosBetween(Exec(s, steps).value)
    decreases |steps|
  {
    if steps == [] {
    } else {
      WellFormedKept(s, steps[0]);
      SessionsKept(s, steps[0]);
      ZerosBetweenKept(s, steps[0]);
      ZerosAlong(Apply(s, steps[0]), steps[1..]);
    }
  }

  // ---------- Reaching a state ----------

  lemma {:induction false} ExecThen(s: State, steps: seq<Step>, step: Step)
    requires WellFormed(s) && Exec(s, steps).Some? && Enabled(Exec(s, steps).value, step)
    ensures Exec(s, steps + [step]) == Some(Apply(Exec(s, steps).value, step))
    decreases |steps|
  {
    if steps == [] {
      WellFormedKept(s, step);
    } else {
      WellFormedKept(s, steps[0]);
      assert (steps + [step])[1..] == steps[1..] + [step];
      ExecThen(Apply(s, steps[0]), steps[1..], step);
    }
  }

  lemma Reach(s: State, step: Step) returns (s': State)
    requires Reachable(s) && Enabled(s, step)
    ensures Reachable(s') && s' == Apply(s, step)
  {
    var capacity, steps :| Exec(Start(s.build, capacity), steps) == Some(s);
    ExecThen(Start(s.build, capacity), steps, step);
    WellFormedKept(s, step);
    s' := Apply(s, step);
    assert Exec(Start(s'.build, capacity), steps + [step]) == Some(s');
  }

  /** A client has published a chunk that fills the slot. */
  lemma ChunkPublished(build: Build, data: seq<byte>) returns (s: State)
    requires data != []
    ensures Reachable(s) && s.build == build && s.server == Reading(5) && s.player == Ready && !s.replaced
    ensures s.slot == Slot(data, |data|, 5) && s.session == 1 && s.published == [Chunk(1, data)] && s.played == []
  {
    s := Start(build, |data|);
    assert Exec(Start(s.build, |data|), []) == Some(s);
    s := Reach(s, Accept(5));
    s := Reach(s, Claim);
    s := Reach(s, Read(data));
    s := Reach(s, Publish);
    assert s.slot.buffer == data;
  }

  /** And the play thread has made a frame of it. */
  lemma ChunkTaken(build: Build, data: seq<byte>) returns (s: State)
    requires data != []
    ensures Reachable(s) && s.build == build && s.server == Reading(5) && s.player == Sending(|data|, []) && !s.replaced
    ensures s.slot == Slot(data, |data|, 5) && s.session == 1 && s.published == [Chunk(1, data)] && s.played == []
  {
    s := ChunkPublished(build, data);
    s := Reach(s, Look);
    s := Reach(s, Measure);
  }

  lemma OneTaken(taken: seq<byte>, buffer: seq<byte>, k: nat, len: nat)
    requires k < len <= |buffer|
    ensures taken + [buffer[k]] + buffer[k + 1..len] == taken + buffer[k..len]
  {
  }

  /** The device takes the rest of the frame undisturbed. */
  lemma {:induction false} TakeRest(s: State) returns (s': State)
    requires Reachable(s) && WellFormed(s) && s.player.Sending?
    ensures Reachable(s')
    ensures var rest := s.slot.buffer[|s.player.taken|..s.player.len];
            s' == s.(player := Sending(s.player.len, s.player.taken + rest))
    decreases if s.player.Sending? then s.player.len - |s.player.taken| else 0
  {
    if |s.player.taken| == s.player.len {
      s' := s;
      assert s.player.taken + s.slot.buffer[|s.player.taken|..s.player.len] == s.player.taken;
    } else {
      var next := Reach(s, Take);
      WellFormedKept(s, Take);
      s' := TakeRest(next);
      OneTaken(s.player.taken, s.slot.buffer, |s.player.taken|, s.player.len);
    }
  }

  /** The clear zeroes the first k bytes. */
  lemma {:induction false} WipeFirst(s: State, k: nat) returns (s': State)
    requires Reachable(s) && WellFormed(s) && s.server.Wiping? && !s.server.stale && k <= |s.slot.buffer|
    ensures Reachable(s') && s' == s.(slot := s.slot.(buffer := Zeros(k) + s.slot.buffer[k..]))
  {
    if k == 0 {
      s' := s;
      assert Zeros(0) + s.slot.buffer[0..] == s.slot.buffer;
    } else {
      var before := WipeFirst(s, k - 1);
      s' := Reach(before, WipeByte(k - 1));
      assert s'.slot.buffer == Zeros(k) + s.slot.buffer[k..];
    }
  }

  // ---------- Sessions of the two builds ----------

  /** Every frame was played while its own client was the one being served. */
  ghost predicate Isolated(s: State) {
    forall i :: 0 <= i < |s.played| ==>
      s.played[i].chunk < |s.published| && s.played[i].session == s.published[s.played[i].chunk].session
  }

  /** The chunk is still in the slot when the next client is served. */
  lemma NextClientFindsChunk() returns (s: State)
    ensures Reachable(s) && s.build.Standalone? && s.server == Reading(6) && s.player == Ready
    ensures s.slot == Slot([7], 1, 6) && s.session == 2 && s.published == [Chunk(1, [7])] && s.played == []
  {
    s := ChunkPublished(Standalone, [7]);
    s := Reach(s, ReadEnd);
    s := Reach(s, Release);
    s := Reach(s, Accept(6));
    s := Reach(s, Claim);
  }

  lemma StandaloneLeaks() returns (s: State)
    ensures Reachable(s) && s.build.Standalone? && !Isolated(s)
  {
    s := NextClientFindsChunk();
    s := Reach(s, Look);
    s := Reach(s, Measure);
    s := TakeRest(s);
    s := Reach(s, SendOk);
    assert s.played[0].session == 2;
  }

  /**
   Clearing the slot is what keeps an earlier client's audio out of a later
   session: iad does, the standalone daemon does not.
   */
  lemma SessionsAreIsolatedInIadOnly(build: Build)
    ensures (forall s :: Reachable(s) && s.build == build ==> Isolated(s)) <==> build.Iad?
  {
    if build.Iad? {
      forall s | Reachable(s) && s.build == build
        ensures Isolated(s)
      {
        ReachableIsSafe(s);
      }
    } else {
      var s := StandaloneLeaks();
    }
  }

  /** No client of the run is admitted while a chunk is pending. */
  ghost predicate AdmitsWhenIdle(s: State, steps: seq<Step>)
    requires WellFormed(s)
    decreases |steps|
  {
    steps != [] && Enabled(s, steps[0]) ==>
      && (steps[0].Claim? ==> !Pending(s))
      && WellFormed(Apply(s, steps[0])) && AdmitsWhenIdle(Apply(s, steps[0]), steps[1..])
  }

  /** What is pending was published in the session under way. */
  ghost predicate Current(s: State) {
    Pending(s) && s.published != [] ==> s.published[|s.published| - 1].session == s.session
  }

  lemma IdleAdmissionStep(s: State, step: Step)
    requires Safe(s) && s.build.Standalone? && Enabled(s, step) && Isolated(s) && Current(s)
    requires step.Claim? ==> !Pending(s)
    ensures Isolated(Apply(s, step)) && Current(Apply(s, step))
  {
    var s' := Apply(s, step);
    if step.SendOk? {
      assert s'.played == s.played + [s'.played[|s.played|]];
    } else {
      assert s'.played == s.played && s.published <= s'.published;
    }
  }

  lemma {:induction false} IdleAdmissionIsolates(s: State, steps: seq<Step>)
    requires Safe(s) && s.build.Standalone? && Exec(s, steps).Some? && AdmitsWhenIdle(s, steps)
    requires Isolated(s) && Current(s)
    ensures Isolated(Exec(s, steps).value)
    decreases |steps|
  {
    if steps == [] {
    } else {
      SafeKept(s, steps[0]);
      IdleAdmissionStep(s, steps[0]);
      IdleAdmissionIsolates(Apply(s, steps[0]), steps[1..]);
    }
  }

  /** An earlier client's chunk is pending, or was overwritten, or was played in a later session. */
  ghost predicate Leaking(s: State, overwritten: nat) {
    || (Pending(s) && s.published != [] && s.published[|s.published| - 1].session < s.session)
    || s.overwritten > overwritten
    || !Isolated(s)
  }

  lemma LeakStays(s: State, step: Step, overwritten: nat)
    requires Safe(s) && s.build.Standalone? && Enabled(s, step)
    requires Leaking(s, overwritten) && s.overwritten >= overwritten
    ensures Leaking(Apply(s, step), overwritten) && Apply(s, step).overwritten >= overwritten
  {
    if !Isolated(s) {
      StaysLeaked(s, step);
    } else if step.SendOk? && s.published[|s.published| - 1].session < s.session {
      StalePlayLeaks(s);
    }
  }

  lemma StaysLeaked(s: State, step: Step)
    requires WellFormed(s) && Enabled(s, step) && Heard(s) && !Isolated(s)
    ensures !Isolated(Apply(s, step))
  {
    var s' := Apply(s, step);
    var i :| 0 <= i < |s.played| && s.played[i].session != s.published[s.played[i].chunk].session;
    assert s'.played[i] == s.played[i] && s.published <= s'.published;
  }

  lemma StalePlayLeaks(s: State)
    requires WellFormed(s) && Enabled(s, SendOk) && s.published[|s.published| - 1].session < s.session
    ensures !Isolated(Apply(s, SendOk))
  {
    var s' := Apply(s, SendOk);
    assert s'.played[|s.played|].session != s'.published[s'.played[|s.played|].chunk].session;
  }

  lemma {:induction false} LeakLasts(s: State, steps: seq<Step>, overwritten: nat)
    requires Safe(s) && s.build.Standalone? && Exec(s, steps).Some?
    requires Leaking(s, overwritten) && s.overwritten >= overwritten
    ensures Leaking(Exec(s, steps).value, overwritten)
    decreases |steps|
  {
    if steps == [] {
    } else {
      SafeKept(s, steps[0]);
      LeakStays(s, steps[0], overwritten);
      LeakLasts(Apply(s, steps[0]), steps[1..], overwritten);
    }
  }

  lemma {:induction false} BusyAdmissionLeaks(s: State, steps: seq<Step>)
    requires Safe(s) && s.build.Standalone? && Exec(s, steps).Some? && !AdmitsWhenIdle(s, steps)
    ensures exists overwritten :: s.overwritten <= overwritten && Leaking(Exec(s, steps).value, overwritten)
    decreases |steps|
  {
    SafeKept(s, steps[0]);
    var s' := Apply(s, steps[0]);
    if steps[0].Claim? && Pending(s) {
      LeakLasts(s', steps[1..], s'.overwritten);
    } else {
      BusyAdmissionLeaks(s', steps[1..]);
    }
  }

  /**
   When the standalone daemon keeps its clients apart: whenever no client is
   admitted while a chunk is pending; and over a run that overwrites no chunk
   and leaves none pending, only then.
   */
  lemma StandaloneIsolationCondition(capacity: nat, steps: seq<Step>, end: State)
    requires Exec(Start(Standalone, capacity), steps) == Some(end)
    ensures AdmitsWhenIdle(Start(Standalone, capacity), steps) ==> Isolated(end)
    ensures end.overwritten == 0 && !Pending(end) && Isolated(end) ==>
              AdmitsWhenIdle(Start(Standalone, capacity), steps)
  {
    var s := Start(Standalone, capacity);
    if AdmitsWhenIdle(s, steps) {
      IdleAdmissionIsolates(s, steps);
    } else {
      BusyAdmissionLeaks(s, steps);
    }
  }

  ghost predicate NoClaim(steps: seq<Step>) {
    forall i :: 0 <= i < |steps| ==> !steps[i].Claim?
  }

  /** Whatever happens before the next client is admitted, no frame is played outside its session. */
  ghost predicate StaysIsolated(s: State)
    requires WellFormed(s)
  {
    forall steps :: NoClaim(steps) && Exec(s, steps).Some? ==> Isolated(Exec(s, steps).value)
  }

  lemma {:induction false} NoClaimAdmitsWhenIdle(s: State, steps: seq<Step>)
    requires WellFormed(s) && NoClaim(steps)
    ensures AdmitsWhenIdle(s, steps)
    decreases |steps|
  {
    if steps == [] {
    } else if Enabled(s, steps[0]) {
      WellFormedKept(s, steps[0]);
      NoClaimAdmitsWhenIdle(Apply(s, steps[0]), steps[1..]);
    }
  }

  /** One more step of a run without admissions. */
  lemma Extend(start: State, steps: seq<Step>, s: State, step: Step) returns (more: seq<Step>, s': State)
    requires WellFormed(start) && NoClaim(steps) && Exec(start, steps) == Some(s)
    requires Enabled(s, step) && !step.Claim?
    ensures NoClaim(more) && Exec(start, more) == Some(s') && s' == Apply(s, step)
  {
    ExecThen(start, steps, step);
    more, s' := steps + [step], Apply(s, step);
  }

  lemma {:induction false} ExtendTakes(start: State, steps: seq<Step>, s: State) returns (more: seq<Step>, s': State)
    requires WellFormed(start) && NoClaim(steps) && Exec(start, steps) == Some(s) && s.player.Sending?
    ensures NoClaim(more) && Exec(start, more) == Some(s') && Enabled(s', SendOk)
    ensures s' == s.(player := s'.player)
    decreases if s.player.Sending? then s.player.len - |s.player.taken| else 0
  {
    more, s' := steps, s;
    if |s.player.taken| < s.player.len {
      more, s' := Extend(start, steps, s, Take);
      more, s' := ExtendTakes(start, more, s');
    }
  }

  /** In the standalone daemon a pending chunk can be played next, with nothing else happening. */
  lemma PendingCanPlay(start: State) returns (steps: seq<Step>, end: State)
    requires Safe(start) && start.build.Standalone? && start.slot.size != 0 && MutexFree(start)
    ensures NoClaim(steps) && Exec(start, steps) == Some(end)
    ensures |end.played| == |start.played| + 1 && end.published == start.published
    ensures end.played[|start.played|].session == start.session
    ensures end.played[|start.played|].chunk == |start.published| - 1
  {
    var s: State;
    steps, s := [], start;
    if start.player.Failed? {
      steps, s := Extend(start, steps, s, Recover(start.slot.buffer));
    }
    steps, s := Extend(start, steps, s, Look);
    steps, s := Extend(start, steps, s, Measure);
    steps, s := ExtendTakes(start, steps, s);
    steps, end := Extend(start, steps, s, SendOk);
  }

  lemma AdmissionMakesStale(s: State)
    requires Safe(s) && s.build.Standalone? && Enabled(s, Claim)
    ensures var s' := Apply(s, Claim);
            && s'.slot.size == s.slot.size && s'.player == s.player && s'.published == s.published
            && s'.session == s.session + 1 && (Isolated(s') <==> Isolated(s))
  {
  }

  /**
   The same at the moment it is decided: as long as nothing has leaked yet, a
   standalone daemon that admits a client is bound to keep the sessions apart
   until it admits the next one exactly when no chunk is pending.
   */
  lemma AdmissionIsSafeWhenIdle(s: State)
    requires Reachable(s) && s.build.Standalone? && Enabled(s, Claim) && Isolated(s)
    ensures WellFormed(s) && WellFormed(Apply(s, Claim))
    ensures StaysIsolated(Apply(s, Claim)) <==> !Pending(s)
  {
    ReachableIsSafe(s);
    SafeKept(s, Claim);
    AdmissionMakesStale(s);
    var s' := Apply(s, Claim);
    if Pending(s) {
      var steps, end := PendingCanPlay(s');
      assert !Isolated(end) by {
        assert end.played[|s'.played|].session != end.published[end.played[|s'.played|].chunk].session;
      }
    } else {
      forall steps | NoClaim(steps) && Exec(s', steps).Some?
        ensures Isolated(Exec(s', steps).value)
      {
        NoClaimAdmitsWhenIdle(s', steps);
        IdleAdmissionIsolates(s', steps);
      }
    }
  }

  // ---------- Frames of the two builds ----------

  /** Every frame carried the bytes its client sent. */
  ghost predicate Exact(s: State) {
    forall i :: 0 <= i < |s.played| ==>
      s.played[i].chunk < |s.published| && s.played[i].bytes == s.published[s.played[i].chunk].data
  }

  /** The clear runs alongside the device, which has taken the first k bytes of a torn frame. */
  lemma {:induction false} TornSoFar(data: seq<byte>, frame: seq<byte>, k: nat) returns (s: State)
    requires data != [] && |frame| == |data| && ChunkOrZero(frame, data) && k <= |data|
    ensures Reachable(s) && s.build.Iad? && s.server == Wiping(5, false) && !s.replaced
    ensures s.player == Sending(|data|, frame[..k]) && |s.slot.buffer| == |data| && s.slot.buffer[k..] == data[k..]
    ensures s.session == 1 && s.published == [Chunk(1, data)] && s.played == []
  {
    if k == 0 {
      s := ChunkTaken(Iad, data);
      s := Reach(s, ReadEnd);
    } else {
      s := TornSoFar(data, frame, k - 1);
      assert s.slot.buffer[k - 1..][0] == data[k - 1..][0];
      assert s.slot.buffer[k - 1..][1..] == data[k - 1..][1..];
      if frame[k - 1] != data[k - 1] {
        s := Reach(s, WipeByte(k - 1));
      }
      s := Reach(s, Take);
      assert frame[..k] == frame[..k - 1] + [frame[k - 1]];
    }
  }

  /** iad's unlocked clear can put zeros in place of any of the bytes of the frame the device is taking. */
  lemma ClearCanTear(data: seq<byte>, frame: seq<byte>) returns (s: State)
    requires data != [] && |frame| == |data| && ChunkOrZero(frame, data)
    ensures Reachable(s) && s.build.Iad? && s.published == [Chunk(1, data)] && s.played == [Played(0, 1, frame, false)]
  {
    s := TornSoFar(data, frame, |data|);
    assert frame[..|data|] == frame;
    s := Reach(s, SendOk);
  }

  /** The whole clear can fall between the play thread's look and its making a frame. */
  lemma ClearWhileLooking(s: State) returns (s': State)
    requires Reachable(s) && WellFormed(s) && s.build.Iad?
    requires s.server == Reading(5) && s.player == Ready && s.slot.size != 0
    ensures Reachable(s') && s'.server == Releasing(5) && s'.player == Looking && s'.slot.size == 0
    ensures s'.build == s.build && s'.session == s.session && s'.replaced == s.replaced
    ensures s'.published == s.published && s'.played == s.played
  {
    s' := Reach(s, Look);
    s' := Reach(s', ReadEnd);
    var n := |s'.slot.buffer|;
    s' := WipeFirst(s', n);
    assert s'.slot.buffer == Zeros(n);
    s' := Reach(s', WipeEnd);
    s' := Reach(s', EmptySlot);
  }

  /** Then the device is handed an empty frame. */
  lemma PlayEmpty(s: State) returns (s': State)
    requires Reachable(s) && WellFormed(s) && s.build.Iad?
    requires s.server == Reading(5) && s.player == Ready && s.slot.size != 0
    ensures Reachable(s') && s'.build.Iad? && s'.published == s.published
    ensures s'.played == s.played + [Played(|s.published| - 1, s.session, [], s.replaced)]
  {
    s' := ClearWhileLooking(s);
    s' := Reach(s', Measure);
    s' := Reach(s', SendOk);
  }

  lemma ClearCanEmptyFrame(data: seq<byte>) returns (s: State)
    requires data != []
    ensures Reachable(s) && s.build.Iad? && s.published == [Chunk(1, data)] && s.played == [Played(0, 1, [], false)]
  {
    s := ChunkPublished(Iad, data);
    s := PlayEmpty(s);
  }

  /** The device refused the chunk and the buffer was replaced. */
  lemma BufferReplaced(data: seq<byte>, garbage: seq<byte>) returns (s: State)
    requires data != [] && |garbage| == |data|
    ensures Reachable(s) && s.build.Iad? && s.server == Reading(5) && s.player == Ready && s.replaced
    ensures s.slot == Slot(garbage, |data|, 5) && s.session == 1 && s.published == [Chunk(1, data)] && s.played == []
  {
    s := ChunkTaken(Iad, data);
    s := Reach(s, SendFail);
    s := Reach(s, Recover(garbage));
  }

  /** iad's retry after a failed send plays the contents of a fresh buffer. */
  lemma RetryCanPlayGarbage(data: seq<byte>, garbage: seq<byte>) returns (s: State)
    requires data != [] && |garbage| == |data|
    ensures Reachable(s) && s.build.Iad? && s.published == [Chunk(1, data)] && s.played == [Played(0, 1, garbage, true)]
  {
    s := BufferReplaced(data, garbage);
    s := Reach(s, Look);
    s := Reach(s, Measure);
    s := TakeRest(s);
    assert [] + garbage[0..|data|] == garbage;
    s := Reach(s, SendOk);
  }

  /** The standalone daemon always plays what was sent; iad does not. */
  lemma FramesAreExactInStandaloneOnly(build: Build)
    ensures (forall s :: Reachable(s) && s.build == build ==> Exact(s)) <==> build.Standalone?
  {
    if build.Standalone? {
      forall s | Reachable(s) && s.build == build
        ensures Exact(s)
      {
        ReachableIsSafe(s);
        forall i | 0 <= i < |s.played|
          ensures s.played[i].bytes == s.published[s.played[i].chunk].data
        {
          assert Faithful(s, s.played[i]);
        }
      }
    } else {
      var s := ClearCanTear([7, 7], [0, 7]);
      assert s.played[0].bytes[0] != s.published[0].data[0];
    }
  }

  /** Some run of iad plays the chunk as this frame, from a buffer that was or was not replaced. */
  ghost predicate CanPlay(data: seq<byte>, frame: seq<byte>, replaced: bool) {
    exists s, i: nat :: Reachable(s) && s.build.Iad? && PlaysAs(s, i, data, frame, replaced)
  }

  ghost predicate PlaysAs(s: State, i: nat, data: seq<byte>, frame: seq<byte>, replaced: bool) {
    && i < |s.played| && s.played[i].chunk < |s.published| && s.played[i].replaced == replaced
    && s.published[s.played[i].chunk].data == data && s.played[i].bytes == frame
  }

  /**
   What iad guarantees, and no more: unless the buffer was replaced after the
   chunk was published, a frame is empty, or as long as the chunk with every
   byte the chunk's or zero; and every such frame is played in some run.
   */
  lemma IadFramesAreChunkOrZeros(data: seq<byte>, frame: seq<byte>)
    requires data != []
    ensures CanPlay(data, frame, false) <==> frame == [] || (|frame| == |data| && ChunkOrZero(frame, data))
  {
    if CanPlay(data, frame, false) {
      var s, i: nat :| Reachable(s) && s.build.Iad? && PlaysAs(s, i, data, frame, false);
      ReachableIsSafe(s);
      assert Faithful(s, s.played[i]);
    } else if frame == [] {
      var s := ClearCanEmptyFrame(data);
      assert PlaysAs(s, 0, data, frame, false);
    } else if |frame| == |data| && ChunkOrZero(frame, data) {
      var s := ClearCanTear(data, frame);
      assert PlaysAs(s, 0, data, frame, false);
    }
  }

  /** From a replaced buffer only the length is kept: a frame is empty, or any bytes as many as the chunk's. */
  lemma ReplacedFramesAreAnything(data: seq<byte>, frame: seq<byte>)
    requires data != []
    ensures CanPlay(data, frame, true) <==> frame == [] || |frame| == |data|
  {
    if CanPlay(data, frame, true) {
      var s, i: nat :| Reachable(s) && s.build.Iad? && PlaysAs(s, i, data, frame, true);
      ReachableIsSafe(s);
      assert Faithful(s, s.played[i]);
    } else if frame == [] {
      var s := BufferReplaced(data, data);
      s := PlayEmpty(s);
      assert PlaysAs(s, 0, data, frame, true);
    } else if |frame| == |data| {
      var s := RetryCanPlayGarbage(data, frame);
      assert PlaysAs(s, 0, data, frame, true);
    }
  }

  /** A frame accepted before the client's audio has ended carries exactly the chunk, unless the buffer was replaced. */
  lemma FrameIsExactBeforeClear(s: State)
    requires Reachable(s) && Enabled(s, SendOk) && !s.replaced && !Clearing(s)
    ensures WellFormed(s) && s.published != []
    ensures var played := Apply(s, SendOk).played;
            played[|played| - 1].bytes == s.published[|s.published| - 1].data
  {
    ReachableIsSafe(s);
    AcceptedIsFaithful(s);
  }
}
