/**
 Microphone fan-out as an interleaving of threads: the input server links
 clients at the head of the shared list, and every record thread loops over
 fetch, lock, write to each client, unlock, release. One step is one action of
 one thread; only the list walk happens under audio_buffer_lock.
 */
module FanOut {
  import opened Options
  import opened Sequences
  import opened Survivors

  type Client = nat // numbered in order of arrival
  type Thread = nat // numbered in order of creation
  type Frame = nat  // numbered in the order the device hands them out

  datatype Phase =
    | Fetching
    | Holding(frame: Frame)
    | Writing(frame: Frame, at: nat) // `current` is the client at this position of the list
    | Releasing(frame: Frame)
    | Exited

  datatype State = State(
    threads: seq<Phase>,
    lock: Option<Thread>,
    list: seq<Client>,        // from client_list_head on
    spawning: bool,           // a client is linked, its record thread not yet created
    fetched: seq<Thread>,     // which thread obtained each frame so far
    bcast: seq<Frame>,        // frames whose pass has begun, in that order
    released: seq<Frame>,
    joined: seq<nat>,         // |bcast| at the moment each client was linked
    left: map<Client, nat>,   // |bcast| at the moment a client was unlinked
    tried: seq<seq<Frame>>,   // writes made to each client
    got: seq<seq<Frame>>)     // those that did not fail

  datatype Step =
    | Arrive
    | Spawn
    | Fetch(t: Thread)
    | Exit(t: Thread)               // poll or get error
    | Lock(t: Thread)
    | Write(t: Thread, ok: bool)
    | Unlock(t: Thread)
    | Release(t: Thread)

  const START := State([], None, [], false, [], [], [], [], map[], [], [])

  ghost predicate Distinct<T(!new)>(s: seq<T>) {
    forall i, j :: 0 <= i < j < |s| ==> s[i] != s[j]
  }

  /** Position of `current` in the pass under way; past the end when no pass is. */
  function At(s: State): nat {
    if s.lock.Some? && s.lock.value < |s.threads| && s.threads[s.lock.value].Writing?
    then s.threads[s.lock.value].at
    else |s.list|
  }

  /** The lock owner is the one thread walking the list, with the newest broadcast frame in hand. */
  ghost predicate WellFormed(s: State) {
    && |s.tried| == |s.joined| && |s.got| == |s.joined|
    && (forall k :: 0 <= k < |s.list| ==> s.list[k] < |s.joined|)
    && Distinct(s.list)
    && (s.lock.Some? ==> s.lock.value < |s.threads| && s.threads[s.lock.value].Writing?)
    && (forall t :: 0 <= t < |s.threads| && s.threads[t].Writing? ==> s.lock == Some(t))
    && (s.lock.Some? ==> s.bcast != [] && s.threads[s.lock.value].frame == s.bcast[|s.bcast| - 1])
    && At(s) <= |s.list|
  }

  predicate Enabled(s: State, step: Step) {
    match step
    case Arrive => s.lock.None? && !s.spawning
    case Spawn => s.spawning
    case Fetch(t) => t < |s.threads| && s.threads[t].Fetching?
    case Exit(t) => t < |s.threads| && s.threads[t].Fetching?
    case Lock(t) => t < |s.threads| && s.threads[t].Holding? && s.lock.None?
    case Write(t, _) => t < |s.threads| && s.threads[t].Writing? && s.threads[t].at < |s.list|
    case Unlock(t) => t < |s.threads| && s.threads[t].Writing? && s.threads[t].at >= |s.list|
    case Release(t) => t < |s.threads| && s.threads[t].Releasing?
  }

  function Apply(s: State, step: Step): State
    requires WellFormed(s) && Enabled(s, step)
  {
    match step
    case Arrive =>
      s.(list := [|s.joined|] + s.list, spawning := true,
         joined := s.joined + [|s.bcast|], tried := s.tried + [[]], got := s.got + [[]])
    case Spawn => s.(threads := s.threads + [Fetching], spawning := false)
    case Fetch(t) => s.(threads := s.threads[t := Holding(|s.fetched|)], fetched := s.fetched + [t])
    case Exit(t) => s.(threads := s.threads[t := Exited])
    case Lock(t) =>
      var f := s.threads[t].frame;
      s.(threads := s.threads[t := Writing(f, 0)], lock := Some(t), bcast := s.bcast + [f])
    case Write(t, ok) => WriteNext(s, t, ok)
    case Unlock(t) => s.(threads := s.threads[t := Releasing(s.threads[t].frame)], lock := None)
    case Release(t) => s.(threads := s.threads[t := Fetching], released := s.released + [s.threads[t].frame])
  }

  /** Writes the frame to the next client of the pass; a failure unlinks it. */
  function WriteNext(s: State, t: Thread, ok: bool): State
    requires WellFormed(s) && Enabled(s, Write(t, ok))
  {
    var Writing(f, at) := s.threads[t];
    var c := s.list[at];
    var s1 := s.(tried := s.tried[c := s.tried[c] + [f]]);
    if ok then
      s1.(threads := s.threads[t := Writing(f, at + 1)], got := s.got[c := s.got[c] + [f]])
    else
      s1.(list := s.list[..at] + s.list[at + 1..], left := s.left[c := |s.bcast|])
  }

  lemma WriteKeepsWellFormed(s: State, t: Thread, ok: bool)
    requires WellFormed(s) && Enabled(s, Write(t, ok))
    ensures WellFormed(WriteNext(s, t, ok))
  {
  }

  lemma WellFormedKept(s: State, step: Step)
    requires WellFormed(s) && Enabled(s, step)
    ensures WellFormed(Apply(s, step))
  {
    if step.Write? {
      WriteKeepsWellFormed(s, step.t, step.ok);
    }
  }

  /** The state after a run of steps, or None if some step was not enabled. */
  function Exec(s: State, steps: seq<Step>): (end: Option<State>)
    requires WellFormed(s)
    ensures end.Some? ==> WellFormed(end.value)
    decreases |steps|
  {
    if steps == [] then Some(s)
    else if Enabled(s, steps[0]) then
      WellFormedKept(s, steps[0]);
      Exec(Apply(s, steps[0]), steps[1..])
    else None
  }

  // ---------- What each client is sent ----------

  /** How far along bcast the client at position k of the list has been served. */
  ghost function Served(s: State, k: nat): int {
    if k >= At(s) then |s.bcast| - 1 else |s.bcast|
  }

  /** A linked client has been sent, and has got, everything broadcast since it was linked. */
  ghost predicate OnList(s: State, k: nat)
    requires WellFormed(s) && k < |s.list|
  {
    var c := s.list[k];
    && c !in s.left
    && s.joined[c] <= Served(s, k)
    && s.tried[c] == s.bcast[s.joined[c]..Served(s, k)]
    && s.got[c] == s.tried[c]
  }

  /** An unlinked client was sent everything broadcast while it was linked, and got all but the last. */
  ghost predicate OffList(s: State, c: Client)
    requires WellFormed(s) && c in s.left
  {
    && c < |s.joined| && c !in s.list
    && s.joined[c] < s.left[c] <= |s.bcast|
    && s.tried[c] == s.bcast[s.joined[c]..s.left[c]]
    && s.got[c] == s.bcast[s.joined[c]..s.left[c] - 1]
  }

  ghost predicate Streams(s: State) {
    && WellFormed(s)
    && (forall k: nat :: k < |s.list| ==> OnList(s, k))
    && (forall c :: c in s.left ==> OffList(s, c))
    && (forall c: Client :: c < |s.joined| ==> c in s.list || c in s.left)
  }

  lemma SliceToLast<T>(s: seq<T>, i: nat)
    requires i < |s|
    ensures s[i..|s| - 1] + [s[|s| - 1]] == s[i..|s|]
  {
  }

  lemma OthersStay<T>(s: seq<T>, p: nat)
    requires p < |s|
    ensures forall x :: x in s && x != s[p] ==> x in s[..p] + s[p + 1..]
  {
    forall x | x in s && x != s[p]
      ensures x in s[..p] + s[p + 1..]
    {
      var i :| 0 <= i < |s| && s[i] == x;
      assert (s[..p] + s[p + 1..])[if i < p then i else i - 1] == x;
    }
  }

  lemma DeliveryKeepsStreams(s: State, t: Thread)
    requires Streams(s) && Enabled(s, Write(t, true)) && WellFormed(WriteNext(s, t, true))
    ensures Streams(WriteNext(s, t, true))
  {
    var s', at := WriteNext(s, t, true), s.threads[t].at;
    forall k: nat | k < |s.list|
      ensures OnList(s', k)
    {
      assert OnList(s, k);
      if k == at {
        SliceToLast(s.bcast, s.joined[s.list[at]]);
      }
    }
    forall d | d in s.left
      ensures OffList(s', d)
    {
      assert OffList(s, d);
    }
  }

  /** A failed write moves those behind the dropped client up by one. */
  lemma FailureKeepsLinked(s: State, t: Thread, k: nat)
    requires Streams(s) && Enabled(s, Write(t, false)) && WellFormed(WriteNext(s, t, false))
    requires k < |WriteNext(s, t, false).list|
    ensures OnList(WriteNext(s, t, false), k)
  {
    var at := s.threads[t].at;
    var was := if k < at then k else k + 1;
    assert OnList(s, was) && WriteNext(s, t, false).list[k] == s.list[was];
    assert s.list[was] != s.list[at];
  }

  lemma FailureDropsClient(s: State, t: Thread)
    requires Streams(s) && Enabled(s, Write(t, false)) && WellFormed(WriteNext(s, t, false))
    ensures OffList(WriteNext(s, t, false), s.list[s.threads[t].at])
  {
    var at := s.threads[t].at;
    assert OnList(s, at);
    SliceToLast(s.bcast, s.joined[s.list[at]]);
  }

  lemma FailureKeepsStreams(s: State, t: Thread)
    requires Streams(s) && Enabled(s, Write(t, false)) && WellFormed(WriteNext(s, t, false))
    ensures Streams(WriteNext(s, t, false))
  {
    var s', at := WriteNext(s, t, false), s.threads[t].at;
    forall k: nat | k < |s'.list|
      ensures OnList(s', k)
    {
      FailureKeepsLinked(s, t, k);
    }
    forall c | c in s'.left
      ensures OffList(s', c)
    {
      if c == s.list[at] {
        FailureDropsClient(s, t);
      } else {
        assert OffList(s, c);
      }
    }
    OthersStay(s.list, at);
  }

  lemma LockKeepsStreams(s: State, t: Thread)
    requires Streams(s) && Enabled(s, Lock(t)) && WellFormed(Apply(s, Lock(t)))
    ensures Streams(Apply(s, Lock(t)))
  {
    var s', n := Apply(s, Lock(t)), |s.bcast|;
    forall i, j | 0 <= i <= j <= n
      ensures s'.bcast[i..j] == s.bcast[i..j]
    {
    }
    forall k: nat | k < |s.list|
      ensures OnList(s', k)
    {
      assert OnList(s, k);
    }
    forall c | c in s.left
      ensures OffList(s', c)
    {
      assert OffList(s, c);
    }
  }

  lemma ArriveKeepsStreams(s: State)
    requires Streams(s) && Enabled(s, Arrive) && WellFormed(Apply(s, Arrive))
    ensures Streams(Apply(s, Arrive))
  {
    var s' := Apply(s, Arrive);
    forall k: nat | k < |s'.list|
      ensures OnList(s', k)
    {
      assert k > 0 ==> OnList(s, k - 1);
    }
    forall c | c in s.left
      ensures OffList(s', c)
    {
      assert OffList(s, c);
    }
  }

  lemma OtherStepKeepsStreams(s: State, step: Step)
    requires Streams(s) && Enabled(s, step) && WellFormed(Apply(s, step))
    requires !step.Write? && !step.Lock? && !step.Arrive?
    ensures Streams(Apply(s, step))
  {
    var s' := Apply(s, step);
    assert At(s') == At(s);
    forall k: nat | k < |s.list|
      ensures OnList(s', k)
    {
      assert OnList(s, k);
    }
    forall c | c in s.left
      ensures OffList(s', c)
    {
      assert OffList(s, c);
    }
  }

  lemma StreamsKept(s: State, step: Step)
    requires Streams(s) && Enabled(s, step)
    ensures Streams(Apply(s, step))
  {
    WellFormedKept(s, step);
    if step.Write? {
      if step.ok {
        DeliveryKeepsStreams(s, step.t);
      } else {
        FailureKeepsStreams(s, step.t);
      }
    } else if step.Lock? {
      LockKeepsStreams(s, step.t);
    } else if step.Arrive? {
      ArriveKeepsStreams(s);
    } else {
      OtherStepKeepsStreams(s, step);
    }
  }

  // ---------- Where each frame is ----------

  predicate Holds(p: Phase) {
    p.Holding?
  }

  predicate Carries(p: Phase) {
    p.Holding? || p.Writing? || p.Releasing?
  }

  function Count(ps: seq<Phase>, p: Phase -> bool): nat {
    if ps == [] then 0
    else Count(ps[..|ps| - 1], p) + if p(ps[|ps| - 1]) then 1 else 0
  }

  lemma {:induction false} CountOfUpdate(ps: seq<Phase>, t: nat, x: Phase, p: Phase -> bool)
    requires t < |ps|
    ensures Count(ps[t := x], p) + (if p(ps[t]) then 1 else 0) == Count(ps, p) + if p(x) then 1 else 0
  {
    var last := |ps| - 1;
    if t == last {
      assert ps[t := x][..last] == ps[..last];
    } else {
      assert ps[t := x][..last] == ps[..last][t := x];
      CountOfUpdate(ps[..last], t, x, p);
    }
  }

  lemma CountOfAppend(ps: seq<Phase>, x: Phase, p: Phase -> bool)
    ensures Count(ps + [x], p) == Count(ps, p) + if p(x) then 1 else 0
  {
    assert (ps + [x])[..|ps|] == ps;
  }

  /**
   Every frame handed out is either broadcast or still held by the thread that
   obtained it, and either released or carried by that thread. No frame is
   broadcast or released twice, and no two threads carry the same one.
   */
  ghost predicate Frames(s: State) {
    && Distinct(s.bcast) && Distinct(s.released)
    && (forall f :: f in s.bcast ==> f < |s.fetched|)
    && (forall f :: f in s.released ==> f in s.bcast)
    && (forall t :: 0 <= t < |s.threads| && Carries(s.threads[t]) ==> CarriedFrame(s, t, s.threads[t].frame))
    && (forall f: Frame :: f < |s.fetched| ==> s.fetched[f] < |s.threads| && Located(s, f, s.threads[s.fetched[f]]))
  }

  ghost predicate CarriedFrame(s: State, t: Thread, f: Frame)
    requires t < |s.threads|
  {
    && f < |s.fetched| && s.fetched[f] == t
    && f !in s.released
    && (f in s.bcast <==> !Holds(s.threads[t]))
  }

  ghost predicate Located(s: State, f: Frame, owner: Phase) {
    && (f !in s.bcast ==> owner == Holding(f))
    && (f !in s.released ==> Carries(owner) && owner.frame == f)
  }

  /** Frames obtained = frames broadcast + frames held back = frames released + frames carried. */
  ghost predicate Balanced(s: State) {
    && |s.fetched| == |s.bcast| + Count(s.threads, Holds)
    && |s.fetched| == |s.released| + Count(s.threads, Carries)
  }

  lemma ThreadStepBalances(s: State, step: Step)
    requires WellFormed(s) && Balanced(s) && Enabled(s, step) && !step.Arrive? && !step.Spawn?
    ensures Balanced(Apply(s, step))
  {
    var x := Apply(s, step).threads[step.t];
    assert Apply(s, step).threads == s.threads[step.t := x];
    CountOfUpdate(s.threads, step.t, x, Holds);
    CountOfUpdate(s.threads, step.t, x, Carries);
  }

  lemma BalanceKept(s: State, step: Step)
    requires WellFormed(s) && Balanced(s) && Enabled(s, step)
    ensures Balanced(Apply(s, step))
  {
    if step.Spawn? {
      CountOfAppend(s.threads, Fetching, Holds);
      CountOfAppend(s.threads, Fetching, Carries);
    } else if !step.Arrive? {
      ThreadStepBalances(s, step);
    }
  }

  /** The acting thread. */
  lemma ActorCarries(s: State, step: Step)
    requires WellFormed(s) && Frames(s) && Enabled(s, step) && !step.Arrive? && !step.Spawn?
    requires Carries(Apply(s, step).threads[step.t])
    ensures CarriedFrame(Apply(s, step), step.t, Apply(s, step).threads[step.t].frame)
  {
    if Carries(s.threads[step.t]) {
      assert CarriedFrame(s, step.t, s.threads[step.t].frame);
    }
  }

  /** Any other thread. */
  lemma OthersCarry(s: State, step: Step, t: Thread)
    requires WellFormed(s) && Frames(s) && Enabled(s, step) && t < |s.threads|
    requires step.Arrive? || step.Spawn? || step.t != t
    requires Carries(s.threads[t])
    ensures CarriedFrame(Apply(s, step), t, s.threads[t].frame)
  {
    assert CarriedFrame(s, t, s.threads[t].frame);
    if step.Lock? || step.Release? {
      assert CarriedFrame(s, step.t, s.threads[step.t].frame);
    }
  }

  lemma CarriedKept(s: State, step: Step, t: Thread)
    requires WellFormed(s) && Frames(s) && Enabled(s, step)
    requires t < |Apply(s, step).threads| && Carries(Apply(s, step).threads[t])
    ensures CarriedFrame(Apply(s, step), t, Apply(s, step).threads[t].frame)
  {
    if step.Arrive? || step.Spawn? || step.t != t {
      OthersCarry(s, step, t);
    } else {
      ActorCarries(s, step);
    }
  }

  lemma LocatedKept(s: State, step: Step, f: Frame)
    requires WellFormed(s) && Frames(s) && Enabled(s, step)
    requires f < |Apply(s, step).fetched|
    ensures var s' := Apply(s, step);
            s'.fetched[f] < |s'.threads| && Located(s', f, s'.threads[s'.fetched[f]])
  {
    assert f < |s.fetched| ==> Located(s, f, s.threads[s.fetched[f]]);
  }

  lemma FramesKept(s: State, step: Step)
    requires WellFormed(s) && Frames(s) && Enabled(s, step)
    ensures Frames(Apply(s, step))
  {
    var s' := Apply(s, step);
    forall t | 0 <= t < |s'.threads| && Carries(s'.threads[t])
      ensures CarriedFrame(s', t, s'.threads[t].frame)
    {
      CarriedKept(s, step, t);
    }
    forall f: Frame | f < |s'.fetched|
      ensures s'.fetched[f] < |s'.threads| && Located(s', f, s'.threads[s'.fetched[f]])
    {
      LocatedKept(s, step, f);
    }
    if step.Lock? || step.Release? {
      assert CarriedFrame(s, step.t, s.threads[step.t].frame);
    }
  }

  // ---------- Whole runs ----------

  ghost predicate Safe(s: State) {
    Streams(s) && Frames(s) && Balanced(s)
  }

  lemma {:induction false} RunsAreSafe(s: State, steps: seq<Step>)
    requires Safe(s) && Exec(s, steps).Some?
    ensures Safe(Exec(s, steps).value)
    decreases |steps|
  {
    if steps == [] {
    } else {
      StreamsKept(s, steps[0]);
      FramesKept(s, steps[0]);
      BalanceKept(s, steps[0]);
      RunsAreSafe(Apply(s, steps[0]), steps[1..]);
    }
  }

  ghost predicate Reachable(s: State) {
    exists steps :: Exec(START, steps) == Some(s)
  }

  lemma ReachableIsSafe(s: State)
    requires Reachable(s)
    ensures Safe(s)
  {
    var steps :| Exec(START, steps) == Some(s);
    RunsAreSafe(START, steps);
  }

  lemma {:induction false} DistinctCount<T>(s: seq<T>, x: T)
    requires forall i, j :: 0 <= i < j < |s| ==> s[i] != s[j]
    ensures multiset(s)[x] == if x in s then 1 else 0
  {
    if s == [] {
    } else {
      var last := |s| - 1;
      assert s == s[..last] + [s[last]];
      DistinctCount(s[..last], x);
    }
  }

  /**
   Exactly once: whatever the interleaving, a linked client has got each frame
   of its membership once and every other frame never. The newest frame is
   missing only while the pass that carries it has not reached the client.
   */
  lemma LinkedClientGetsEachFrameOnce(s: State, k: nat, f: Frame)
    requires Reachable(s) && k < |s.list|
    ensures var c := s.list[k];
            && 0 <= s.joined[c] <= Served(s, k)
            && multiset(s.got[c])[f] == if f in s.bcast[s.joined[c]..Served(s, k)] then 1 else 0
    ensures s.lock.None? ==> Served(s, k) == |s.bcast|
  {
    ReachableIsSafe(s);
    assert OnList(s, k);
    DistinctCount(s.got[s.list[k]], f);
  }

  /** A client that was unlinked got each frame of its membership once, but for the one whose write failed. */
  lemma UnlinkedClientMissesOnlyTheLast(s: State, c: Client, f: Frame)
    requires Reachable(s) && c < |s.joined| && c !in s.list
    ensures c in s.left && s.joined[c] < s.left[c] <= |s.bcast|
    ensures multiset(s.got[c])[f] == if f in s.bcast[s.joined[c]..s.left[c] - 1] then 1 else 0
    ensures s.tried[c] == s.got[c] + [s.bcast[s.left[c] - 1]]
  {
    ReachableIsSafe(s);
    assert OffList(s, c);
    DistinctCount(s.got[c], f);
  }

  /**
   Conservation: every frame obtained is broadcast by the thread that obtained
   it or still held by it, at most one per thread; the same between released
   and carried. This covers runs in which threads have exited.
   */
  lemma FramesAreConserved(s: State, f: Frame)
    requires Reachable(s) && f < |s.fetched|
    ensures s.fetched[f] < |s.threads|
    ensures f in s.bcast <==> s.threads[s.fetched[f]] != Holding(f)
    ensures f in s.released <==> !(Carries(s.threads[s.fetched[f]]) && s.threads[s.fetched[f]].frame == f)
    ensures |s.fetched| == |s.bcast| + Count(s.threads, Holds) == |s.released| + Count(s.threads, Carries)
  {
    ReachableIsSafe(s);
    assert Located(s, f, s.threads[s.fetched[f]]);
    assert Carries(s.threads[s.fetched[f]]) ==>
        CarriedFrame(s, s.fetched[f], s.threads[s.fetched[f]].frame);
  }

  // ---------- What the steps of a run say ----------

  /** How many passes began before each arrival, given that n had begun before the run. */
  function PassesBeforeArrivals(steps: seq<Step>, n: nat): seq<nat> {
    if steps == [] then []
    else
      (if steps[0].Arrive? then [n] else [])
      + PassesBeforeArrivals(steps[1..], if steps[0].Lock? then n + 1 else n)
  }

  /** Which thread fetched each frame. */
  function Fetchers(steps: seq<Step>): seq<Thread> {
    if steps == [] then []
    else (if steps[0].Fetch? then [steps[0].t] else []) + Fetchers(steps[1..])
  }

  /** For each thread that locks, or that releases, the frame it fetched last before. */
  function Handled(steps: seq<Step>, hand: map<Thread, Frame>, n: nat, locks: bool): seq<Frame> {
    if steps == [] then []
    else
      HandledBy(hand, steps[0], locks)
      + Handled(steps[1..], HandAfter(hand, n, steps[0]), if steps[0].Fetch? then n + 1 else n, locks)
  }

  /** The step writes to client c. */
  predicate Aims(s: State, step: Step, c: Client) {
    step.Write? && Enabled(s, step) && s.list[s.threads[step.t].at] == c
  }

  /** The frames written to client c along the run; with `failed` false only those that did not fail. */
  function WrittenTo(s: State, steps: seq<Step>, c: Client, failed: bool): seq<Frame>
    requires WellFormed(s)
    decreases |steps|
  {
    if steps == [] || !Enabled(s, steps[0]) then []
    else
      WellFormedKept(s, steps[0]);
      Added(s, steps[0], c, failed) + WrittenTo(Apply(s, steps[0]), steps[1..], c, failed)
  }

  /** Some write to client c along the run failed. */
  predicate Fails(s: State, steps: seq<Step>, c: Client)
    requires WellFormed(s)
    decreases |steps|
  {
    if steps == [] || !Enabled(s, steps[0]) then false
    else
      WellFormedKept(s, steps[0]);
      (Aims(s, steps[0], c) && !steps[0].ok) || Fails(Apply(s, steps[0]), steps[1..], c)
  }

  function StreamSoFar(streams: seq<seq<Frame>>, c: Client): seq<Frame> {
    if c < |streams| then streams[c] else []
  }

  lemma StepWrites(s: State, step: Step, c: Client)
    requires WellFormed(s) && Enabled(s, step)
    ensures StreamSoFar(Apply(s, step).tried, c) == StreamSoFar(s.tried, c) + Added(s, step, c, true)
    ensures StreamSoFar(Apply(s, step).got, c) == StreamSoFar(s.got, c) + Added(s, step, c, false)
  {
  }

  /** What one step adds to the frames written to client c. */
  function Added(s: State, step: Step, c: Client, failed: bool): seq<Frame>
    requires WellFormed(s) && Enabled(s, step)
  {
    if Aims(s, step, c) && (failed || step.ok) then [s.threads[step.t].frame] else []
  }

  function StreamsOf(s: State, failed: bool): seq<seq<Frame>> {
    if failed then s.tried else s.got
  }

  lemma {:induction false} RunWrites(s: State, steps: seq<Step>, c: Client, failed: bool)
    requires WellFormed(s) && Exec(s, steps).Some?
    ensures StreamSoFar(StreamsOf(Exec(s, steps).value, failed), c) ==
            StreamSoFar(StreamsOf(s, failed), c) + WrittenTo(s, steps, c, failed)
    decreases |steps|
  {
    if steps == [] {
    } else {
      var s' := Apply(s, steps[0]);
      WellFormedKept(s, steps[0]);
      StepWrites(s, steps[0], c);
      RunWrites(s', steps[1..], c, failed);
      Associate(StreamSoFar(StreamsOf(s, failed), c), Added(s, steps[0], c, failed),
                WrittenTo(s', steps[1..], c, failed));
    }
  }

  lemma StepJoins(s: State, step: Step)
    requires WellFormed(s) && Enabled(s, step)
    ensures var s' := Apply(s, step);
            && s'.joined == s.joined + (if step.Arrive? then [|s.bcast|] else [])
            && |s'.bcast| == |s.bcast| + (if step.Lock? then 1 else 0)
            && s'.fetched == s.fetched + (if step.Fetch? then [step.t] else [])
  {
  }

  lemma {:induction false} RunJoins(s: State, steps: seq<Step>)
    requires WellFormed(s) && Exec(s, steps).Some?
    ensures Exec(s, steps).value.joined == s.joined + PassesBeforeArrivals(steps, |s.bcast|)
    decreases |steps|
  {
    if steps == [] {
    } else {
      var s' := Apply(s, steps[0]);
      WellFormedKept(s, steps[0]);
      StepJoins(s, steps[0]);
      RunJoins(s', steps[1..]);
      Associate(s.joined, if steps[0].Arrive? then [|s.bcast|] else [], PassesBeforeArrivals(steps[1..], |s'.bcast|));
    }
  }

  lemma {:induction false} RunFetches(s: State, steps: seq<Step>)
    requires WellFormed(s) && Exec(s, steps).Some?
    ensures Exec(s, steps).value.fetched == s.fetched + Fetchers(steps)
    decreases |steps|
  {
    if steps == [] {
    } else {
      WellFormedKept(s, steps[0]);
      StepJoins(s, steps[0]);
      RunFetches(Apply(s, steps[0]), steps[1..]);
      Associate(s.fetched, if steps[0].Fetch? then [steps[0].t] else [], Fetchers(steps[1..]));
    }
  }

  /** Every thread that carries a frame carries the one it fetched last. */
  ghost predicate HandsAgree(s: State, hand: map<Thread, Frame>) {
    forall t :: 0 <= t < |s.threads| && Carries(s.threads[t]) ==> t in hand && hand[t] == s.threads[t].frame
  }

  function HandAfter(hand: map<Thread, Frame>, n: nat, step: Step): map<Thread, Frame> {
    if step.Fetch? then hand[step.t := n] else hand
  }

  /** The frame that a step locks with, or releases. */
  function HandledBy(hand: map<Thread, Frame>, step: Step, locks: bool): seq<Frame> {
    if (if locks then step.Lock? else step.Release?) then [if step.t in hand then hand[step.t] else 0] else []
  }

  function Passed(s: State, locks: bool): seq<Frame> {
    if locks then s.bcast else s.released
  }

  lemma StepHands(s: State, step: Step, hand: map<Thread, Frame>, locks: bool)
    requires WellFormed(s) && Enabled(s, step) && HandsAgree(s, hand)
    ensures HandsAgree(Apply(s, step), HandAfter(hand, |s.fetched|, step))
    ensures Passed(Apply(s, step), locks) == Passed(s, locks) + HandledBy(hand, step, locks)
    ensures |Apply(s, step).fetched| == |s.fetched| + if step.Fetch? then 1 else 0
  {
  }

  lemma {:induction false} RunHandles(s: State, steps: seq<Step>, hand: map<Thread, Frame>, locks: bool)
    requires WellFormed(s) && Exec(s, steps).Some? && HandsAgree(s, hand)
    ensures Passed(Exec(s, steps).value, locks) == Passed(s, locks) + Handled(steps, hand, |s.fetched|, locks)
    decreases |steps|
  {
    if steps == [] {
    } else {
      var s', hand' := Apply(s, steps[0]), HandAfter(hand, |s.fetched|, steps[0]);
      WellFormedKept(s, steps[0]);
      StepHands(s, steps[0], hand, locks);
      RunHandles(s', steps[1..], hand', locks);
      Associate(Passed(s, locks), HandledBy(hand, steps[0], locks), Handled(steps[1..], hand', |s'.fetched|, locks));
    }
  }

  /** Newest client first, and on the list exactly those to whom no write has failed. */
  ghost predicate Listed(s: State) {
    && (forall i, j :: 0 <= i < j < |s.list| ==> s.list[i] > s.list[j])
    && (forall k :: 0 <= k < |s.list| ==> s.list[k] < |s.joined|)
  }

  lemma FailureLists(s: State, t: Thread, c: Client)
    requires WellFormed(s) && Enabled(s, Write(t, false)) && Listed(s)
    ensures Listed(WriteNext(s, t, false))
    ensures c in WriteNext(s, t, false).list <==> c in s.list && c != s.list[s.threads[t].at]
  {
    OthersStay(s.list, s.threads[t].at);
  }

  lemma StepLists(s: State, step: Step, c: Client)
    requires WellFormed(s) && Enabled(s, step) && Listed(s)
    ensures Listed(Apply(s, step))
    ensures c in Apply(s, step).list <==>
            (c in s.list && !(Aims(s, step, c) && !step.ok)) || (step.Arrive? && c == |s.joined|)
  {
    if step.Write? && !step.ok {
      FailureLists(s, step.t, c);
    }
  }

  lemma {:induction false} RunLists(s: State, steps: seq<Step>, c: Client)
    requires WellFormed(s) && Listed(s) && Exec(s, steps).Some? && c < |Exec(s, steps).value.joined|
    ensures Listed(Exec(s, steps).value)
    ensures c in Exec(s, steps).value.list <==> (c in s.list || c >= |s.joined|) && !Fails(s, steps, c)
    decreases |steps|
  {
    if steps == [] {
    } else {
      WellFormedKept(s, steps[0]);
      StepLists(s, steps[0], c);
      StepJoins(s, steps[0]);
      RunLists(Apply(s, steps[0]), steps[1..], c);
    }
  }

  /**
   The state against the run that led to it. A client has got exactly the frames
   of the writes to it that did not fail, its membership began after as many
   passes as were begun before it arrived, and it is linked, newest first, until
   a write to it fails. A pass broadcasts, and a release returns, the frame that
   its thread fetched last.
   */
  lemma {:induction false} StateTellsTheRun(steps: seq<Step>, s: State, c: Client)
    requires Exec(START, steps) == Some(s) && c < |s.joined|
    ensures s.joined == PassesBeforeArrivals(steps, 0) && s.fetched == Fetchers(steps)
    ensures |s.tried| == |s.got| == |s.joined|
    ensures s.tried[c] == WrittenTo(START, steps, c, true) && s.got[c] == WrittenTo(START, steps, c, false)
    ensures s.bcast == Handled(steps, map[], 0, true) && s.released == Handled(steps, map[], 0, false)
    ensures c in s.list <==> !Fails(START, steps, c)
    ensures forall i, j :: 0 <= i < j < |s.list| ==> s.list[i] > s.list[j]
  {
    RunWrites(START, steps, c, true);
    RunWrites(START, steps, c, false);
    RunJoins(START, steps);
    RunFetches(START, steps);
    RunHandles(START, steps, map[], true);
    RunHandles(START, steps, map[], false);
    RunLists(START, steps, c);
  }

  /** A step of the given thread. */
  predicate By(step: Step, t: Thread) {
    !step.Arrive? && !step.Spawn? && step.t == t
  }

  /** Where its latest step leaves a thread. */
  predicate StandsAfter(p: Phase, step: Step) {
    match step
    case Fetch(_) => p.Holding?
    case Lock(_) => p.Writing?
    case Write(_, _) => p.Writing?
    case Unlock(_) => p.Releasing?
    case Exit(_) => p.Exited?
    case _ => p.Fetching?
  }

  lemma StepMoves(s: State, step: Step, t: Thread)
    requires WellFormed(s) && Enabled(s, step) && t < |Apply(s, step).threads|
    ensures t < |s.threads| && !By(step, t) ==> Apply(s, step).threads[t] == s.threads[t]
    ensures By(step, t) ==> t < |s.threads| && StandsAfter(Apply(s, step).threads[t], step)
    ensures |Apply(s, step).threads| == |s.threads| + if step.Spawn? then 1 else 0
  {
  }

  lemma {:induction false} OthersLeaveAlone(s: State, steps: seq<Step>, t: Thread)
    requires WellFormed(s) && Exec(s, steps).Some? && t < |s.threads|
    requires forall i :: 0 <= i < |steps| ==> !By(steps[i], t)
    ensures t < |Exec(s, steps).value.threads| && Exec(s, steps).value.threads[t] == s.threads[t]
    decreases |steps|
  {
    if steps != [] {
      WellFormedKept(s, steps[0]);
      StepMoves(s, steps[0], t);
      forall i | 0 <= i < |steps| - 1 ensures !By(steps[1..][i], t) {
        assert steps[1..][i] == steps[i + 1];
      }
      OthersLeaveAlone(Apply(s, steps[0]), steps[1..], t);
    }
  }

  /** A thread stands where its own latest step has left it, whatever the other threads did since. */
  lemma {:induction false} LastStepTells(s: State, steps: seq<Step>, t: Thread, i: nat)
    requires WellFormed(s) && Exec(s, steps).Some?
    requires i < |steps| && By(steps[i], t) && forall j :: i < j < |steps| ==> !By(steps[j], t)
    ensures var end := Exec(s, steps).value; t < |end.threads| && StandsAfter(end.threads[t], steps[i])
    decreases |steps|
  {
    WellFormedKept(s, steps[0]);
    var s' := Apply(s, steps[0]);
    assert forall j :: 0 <= j < |steps| - 1 ==> steps[1..][j] == steps[j + 1];
    if i == 0 {
      StepMoves(s, steps[0], t);
      OthersLeaveAlone(s', steps[1..], t);
    } else {
      LastStepTells(s', steps[1..], t, i - 1);
    }
  }

  /** The thread can take its next step, and where it may go either way, both. */
  predicate CanMove(s: State, t: Thread) {
    || (Enabled(s, Fetch(t)) && Enabled(s, Exit(t)))
    || Enabled(s, Lock(t))
    || (Enabled(s, Write(t, true)) && Enabled(s, Write(t, false)))
    || Enabled(s, Unlock(t))
    || Enabled(s, Release(t))
  }

  /**
   No deadlock: a thread that has not exited can move, or has a frame in hand and
   waits for the lock, whose owner can move. The server waits for nothing else.
   */
  lemma NobodyIsStuck(s: State, t: Thread)
    requires Reachable(s) && t < |s.threads| && !s.threads[t].Exited?
    ensures CanMove(s, t) || (s.threads[t].Holding? && s.lock.Some? && s.lock.value != t && CanMove(s, s.lock.value))
    ensures s.lock.None? ==> CanMove(s, t) && (Enabled(s, Arrive) || Enabled(s, Spawn))
  {
    ReachableIsSafe(s);
    MovesOrWaits(s, t);
    if s.lock.Some? {
      MovesOrWaits(s, s.lock.value);
    }
  }

  lemma MovesOrWaits(s: State, t: Thread)
    requires WellFormed(s) && t < |s.threads| && !s.threads[t].Exited?
    ensures CanMove(s, t) || (s.threads[t].Holding? && s.lock.Some? && s.lock != Some(t))
  {
  }

  // ---------- A pass of the threads is a pass of the heap ----------

  /** The lock owner finishes its walk; its k-th write from here on is write number base + k. */
  function Pass(s: State, t: Thread, reply: nat -> int, base: nat): State
    requires WellFormed(s) && s.lock == Some(t)
    decreases |s.list| - At(s)
  {
    if At(s) == |s.list| then s
    else
      WellFormedKept(s, Write(t, Delivered(reply, base)));
      Pass(Apply(s, Write(t, Delivered(reply, base))), t, reply, base + 1)
  }

  lemma KeptOfTail(list: seq<Client>, at: nat, reply: nat -> int, base: nat)
    requires at < |list|
    ensures Delivered(reply, base) ==>
              list[..at] + Kept(list[at..], reply, base) == list[..at + 1] + Kept(list[at + 1..], reply, base + 1)
    ensures !Delivered(reply, base) ==> var shorter := list[..at] + list[at + 1..];
              list[..at] + Kept(list[at..], reply, base) == shorter[..at] + Kept(shorter[at..], reply, base + 1)
  {
    KeptOfConcat([list[at]], list[at + 1..], reply, base);
    KeptOfNext([], list[at], reply, base, base);
    assert list[at..] == [list[at]] + list[at + 1..];
    assert [] + [list[at]] == [list[at]];
    var shorter := list[..at] + list[at + 1..];
    assert shorter[..at] == list[..at] && shorter[at..] == list[at + 1..];
  }

  lemma WriteEffect(s: State, t: Thread, ok: bool)
    requires WellFormed(s) && Enabled(s, Write(t, ok))
    ensures var s' := Apply(s, Write(t, ok)); var at := At(s);
            && WellFormed(s') && s'.lock == Some(t)
            && s'.list == (if ok then s.list else s.list[..at] + s.list[at + 1..])
            && At(s') == if ok then at + 1 else at
  {
    WellFormedKept(s, Write(t, ok));
  }

  lemma {:induction false} PassFrom(s: State, t: Thread, reply: nat -> int, base: nat)
    requires WellFormed(s) && s.lock == Some(t)
    ensures Pass(s, t, reply, base).list == s.list[..At(s)] + Kept(s.list[At(s)..], reply, base)
    decreases |s.list| - At(s)
  {
    if At(s) < |s.list| {
      var ok := Delivered(reply, base);
      var s' := Apply(s, Write(t, ok));
      WriteEffect(s, t, ok);
      KeptOfTail(s.list, At(s), reply, base);
      PassFrom(s', t, reply, base + 1);
      assert Pass(s, t, reply, base) == Pass(s', t, reply, base + 1);
    } else {
      assert s.list[..At(s)] == s.list && s.list[At(s)..] == [];
    }
  }

  /** One pass, step by step under the lock, leaves the list that the in-place heap pass leaves. */
  lemma PassLeavesKept(s: State, t: Thread, reply: nat -> int, base: nat)
    requires WellFormed(s) && Enabled(s, Lock(t))
    ensures WellFormed(Apply(s, Lock(t)))
    ensures Pass(Apply(s, Lock(t)), t, reply, base).list == Kept(s.list, reply, base)
  {
    WellFormedKept(s, Lock(t));
    PassFrom(Apply(s, Lock(t)), t, reply, base);
    assert s.list[0..] == s.list;
  }

  // ---------- Order ----------

  /** Frames have been broadcast in the order the device handed them out, with none skipped. */
  ghost predicate InOrder(s: State) {
    forall i :: 0 <= i < |s.bcast| ==> s.bcast[i] == i
  }

  /** No thread holds an older frame than thread t does. */
  ghost predicate HoldsOldest(s: State, t: Thread)
    requires t < |s.threads| && s.threads[t].Holding?
  {
    forall u :: 0 <= u < |s.threads| && s.threads[u].Holding? ==> s.threads[t].frame <= s.threads[u].frame
  }

  /** Along the run, whenever a thread takes the lock it holds the oldest frame held. */
  ghost predicate OldestFirst(s: State, steps: seq<Step>)
    requires WellFormed(s)
    decreases |steps|
  {
    steps != [] && Enabled(s, steps[0]) ==>
      && (steps[0].Lock? ==> HoldsOldest(s, steps[0].t))
      && WellFormed(Apply(s, steps[0])) && OldestFirst(Apply(s, steps[0]), steps[1..])
  }

  lemma BroadcastSoFar(bcast: seq<Frame>, f: Frame)
    requires forall i :: 0 <= i < |bcast| ==> bcast[i] == i
    ensures f in bcast <==> f < |bcast|
  {
    assert f < |bcast| ==> bcast[f] == f;
  }

  /** As long as the order holds, the frame of a pass is the next one exactly when it is the oldest held. */
  lemma NextIsOldest(s: State, t: Thread)
    requires WellFormed(s) && Frames(s) && InOrder(s) && Enabled(s, Lock(t))
    ensures s.threads[t].frame == |s.bcast| <==> HoldsOldest(s, t)
  {
    var f, n := s.threads[t].frame, |s.bcast|;
    assert CarriedFrame(s, t, f);
    BroadcastSoFar(s.bcast, f);
    BroadcastSoFar(s.bcast, n);
    if f != n {
      assert n < f < |s.fetched| && n !in s.bcast;
      assert Located(s, n, s.threads[s.fetched[n]]);
    } else {
      forall u | 0 <= u < |s.threads| && s.threads[u].Holding?
        ensures f <= s.threads[u].frame
      {
        assert CarriedFrame(s, u, s.threads[u].frame);
        BroadcastSoFar(s.bcast, s.threads[u].frame);
      }
    }
  }

  lemma {:induction false} DisorderLasts(s: State, steps: seq<Step>)
    requires WellFormed(s) && Exec(s, steps).Some? && !InOrder(s)
    ensures !InOrder(Exec(s, steps).value)
    decreases |steps|
  {
    if steps == [] {
    } else {
      WellFormedKept(s, steps[0]);
      var s' := Apply(s, steps[0]);
      var i :| 0 <= i < |s.bcast| && s.bcast[i] != i;
      assert s'.bcast[i] == s.bcast[i];
      DisorderLasts(s', steps[1..]);
    }
  }

  lemma {:induction false} OrderFrom(s: State, steps: seq<Step>)
    requires WellFormed(s) && Frames(s) && InOrder(s) && Exec(s, steps).Some?
    ensures InOrder(Exec(s, steps).value) <==> OldestFirst(s, steps)
    decreases |steps|
  {
    if steps == [] {
    } else {
      var step := steps[0];
      var s' := Apply(s, step);
      WellFormedKept(s, step);
      FramesKept(s, step);
      if step.Lock? {
        NextIsOldest(s, step.t);
      }
      if step.Lock? && !HoldsOldest(s, step.t) {
        assert s'.bcast[|s.bcast|] != |s.bcast|;
        DisorderLasts(s', steps[1..]);
      } else {
        assert InOrder(s');
        OrderFrom(s', steps[1..]);
      }
    }
  }

  /**
   Frames are broadcast in device order, none skipped, exactly in those runs in
   which the lock is always taken by a thread that holds the oldest frame held.
   */
  lemma BroadcastOrderCondition(steps: seq<Step>, s: State)
    requires Exec(START, steps) == Some(s)
    ensures (forall i :: 0 <= i < |s.bcast| ==> s.bcast[i] == i) <==> OldestFirst(START, steps)
  {
    OrderFrom(START, steps);
  }

  /** In such a run the stream of every client, linked or not, counts up by one from its first frame. */
  lemma OrderedStreamsAreContiguous(steps: seq<Step>, s: State, c: Client)
    requires Exec(START, steps) == Some(s) && OldestFirst(START, steps) && c < |s.joined|
    ensures forall i :: 0 <= i < |s.got[c]| ==> s.got[c][i] == s.joined[c] + i
  {
    BroadcastOrderCondition(steps, s);
    RunsAreSafe(START, steps);
    if c in s.list {
      var k: nat :| k < |s.list| && s.list[k] == c;
      assert OnList(s, k);
    } else {
      assert OffList(s, c);
    }
  }

  /** At most one record thread has not exited. */
  ghost predicate Solo(s: State) {
    forall t, u :: 0 <= t < u < |s.threads| ==> s.threads[t].Exited? || s.threads[u].Exited?
  }

  ghost predicate SoloRun(s: State, steps: seq<Step>)
    requires WellFormed(s)
    decreases |steps|
  {
    Solo(s) && (steps != [] && Enabled(s, steps[0]) ==>
      WellFormed(Apply(s, steps[0])) && SoloRun(Apply(s, steps[0]), steps[1..]))
  }

  lemma {:induction false} SoloIsOldestFirst(s: State, steps: seq<Step>)
    requires WellFormed(s) && SoloRun(s, steps)
    ensures OldestFirst(s, steps)
    decreases |steps|
  {
    if steps != [] && Enabled(s, steps[0]) {
      SoloIsOldestFirst(Apply(s, steps[0]), steps[1..]);
    }
  }

  /** With a single record thread alive at a time, that is so for every client. */
  lemma SoloStreamsAreContiguous(steps: seq<Step>, s: State, c: Client)
    requires SoloRun(START, steps) && Exec(START, steps) == Some(s) && c < |s.joined|
    ensures forall i :: 0 <= i < |s.got[c]| ==> s.got[c][i] == s.joined[c] + i
  {
    SoloIsOldestFirst(START, steps);
    OrderedStreamsAreContiguous(steps, s, c);
  }

  lemma {:induction false} ExecThen(s: State, steps: seq<Step>, step: Step)
    requires WellFormed(s) && Exec(s, steps).Some? && Enabled(Exec(s, steps).value, step)
    ensures Exec(s, steps + [step]) == Some(Apply(Exec(s, steps).value, step))
    decreases |steps|
  {
    if steps == [] {
      WellFormedKept(s, step);
    } else {
      WellFormedKept(s, steps[0]);
      assert (steps + [step])[1..] == steps[1..] + [step];
      ExecThen(Apply(s, steps[0]), steps[1..], step);
    }
  }

  lemma Reach(s: State, step: Step) returns (s': State)
    requires Reachable(s) && Enabled(s, step)
    ensures Reachable(s') && s' == Apply(s, step)
  {
    var steps :| Exec(START, steps) == Some(s);
    ExecThen(START, steps, step);
    s' := Apply(s, step);
  }

  lemma TwoThreadsCanHold() returns (s: State)
    ensures Reachable(s) && s.threads == [Holding(0), Holding(1)]
    ensures s.list == [1, 0] && s.lock.None? && s.bcast == []
  {
    assert Exec(START, []) == Some(START);
    s := Reach(START, Arrive);
    s := Reach(s, Spawn);
    s := Reach(s, Arrive);
    s := Reach(s, Spawn);
    s := Reach(s, Fetch(0));
    s := Reach(s, Fetch(1));
  }

  /** The second thread has written its frame to both clients, and both writes failed. */
  lemma LaterFrameIsWritten() returns (s: State)
    ensures Reachable(s) && s.threads == [Holding(0), Writing(1, 0)] && s.lock == Some(1)
    ensures s.list == [] && s.bcast == [1]
  {
    s := TwoThreadsCanHold();
    s := Reach(s, Lock(1));
    s := Reach(s, Write(1, false));
    s := Reach(s, Write(1, false));
  }

  lemma LaterFrameIsOut() returns (s: State)
    ensures Reachable(s) && s.threads == [Holding(0), Releasing(1)] && s.lock.None? && s.bcast == [1]
  {
    s := LaterFrameIsWritten();
    s := Reach(s, Unlock(1));
  }

  /** With two record threads the later frame can be broadcast first. */
  lemma TwoThreadsCanReorder()
    ensures exists s :: Reachable(s) && s.bcast == [1, 0]
  {
    var s := LaterFrameIsOut();
    s := Reach(s, Lock(0));
  }
}
