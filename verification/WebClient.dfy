/**
 The web client: WebSocket and HTTP callbacks that share one socket to the
 audio daemon and one growing buffer. The service loop calls them one at a time.
 Writes are taken to be complete.
 */
module WebClient {
  import opened Bytes
  import opened Options
  import opened Sequences

  const NO_SOCKET := -1
  const INITIAL_AUDIO_BUFFER_SIZE := 1280

  /** A socket descriptor, or NO_SOCKET. */
  type Fd = x: int | x >= -1

  /** What the daemon sees of the client. */
  datatype Op = Open(fd: Fd) | Write(fd: Fd, bytes: seq<byte>) | Close(fd: Fd)

  /** A callback; `setup` is what connecting to the daemon would give, `uri` what is copied of the POST path. */
  datatype Event =
    | Established(setup: Fd)
    | Receive(payload: seq<byte>)
    | Closed
    | Http(uri: string, setup: Fd)
    | Body(payload: seq<byte>)
    | BodyCompletion

  datatype State = State(live: int, fd: Fd, capacity: nat, log: seq<Op>)

  const START := State(0, NO_SOCKET, INITIAL_AUDIO_BUFFER_SIZE, [])

  function Max(a: nat, b: nat): nat {
    if a < b then b else a
  }

  function Connect(s: State, setup: Fd): State {
    if s.fd != NO_SOCKET || setup == NO_SOCKET then s else s.(fd := setup, log := s.log + [Open(setup)])
  }

  function Disconnect(s: State): State {
    if s.fd == NO_SOCKET then s else s.(fd := NO_SOCKET, log := s.log + [Close(s.fd)])
  }

  function Send(s: State, bytes: seq<byte>): State {
    if s.fd == NO_SOCKET then s else s.(log := s.log + [Write(s.fd, bytes)])
  }

  function Step(s: State, e: Event): State {
    if e.Established? then Connect(s.(live := s.live + 1), e.setup)
    else if e.Receive? then Send(s, e.payload)
    else if e.Closed? then
      var t := s.(live := s.live - 1);
      if t.live == 0 then Disconnect(t) else t
    else if e.Http? then (if "/audio" <= e.uri then Connect(s, e.setup) else s)
    else if e.Body? then
      var t := if s.fd == NO_SOCKET then s else s.(capacity := Max(s.capacity, |e.payload|));
      Send(t, e.payload)
    else Disconnect(s)
  }

  /** The statics of the program. The log is what its writes, opens and closes have done so far. */
  class Client {
    var activeWsConnections: int
    var daemonSockfd: Fd
    var audioBuffer: array?<byte>    // null once a reallocation has failed
    var audioBufferSize: nat
    var audioBufferLen: nat
    ghost var log: seq<Op>

    /** Between callbacks the buffer is empty and as large as its recorded size. */
    ghost predicate Valid()
      reads this
    {
      audioBuffer != null && audioBufferSize == audioBuffer.Length && audioBufferLen == 0
    }

    ghost function Abs(): State
      reads this
    {
      State(activeWsConnections, daemonSockfd, audioBufferSize, log)
    }

    constructor ()
      ensures Valid() && Abs() == START && fresh(audioBuffer)
    {
      activeWsConnections, daemonSockfd, log := 0, NO_SOCKET, [];
      audioBuffer := new byte[INITIAL_AUDIO_BUFFER_SIZE](_ => 0);
      audioBufferSize, audioBufferLen := INITIAL_AUDIO_BUFFER_SIZE, 0;
    }

    method SetupClientConnection(setup: Fd)
      modifies this`daemonSockfd, this`log
      requires daemonSockfd == NO_SOCKET
      ensures Abs() == Connect(old(Abs()), setup)
    {
      daemonSockfd := setup;
      if setup != NO_SOCKET {
        log := log + [Open(setup)];
      }
    }

    method CloseClientConnection()
      requires daemonSockfd != NO_SOCKET
      modifies this`daemonSockfd, this`log
      ensures Abs() == Disconnect(old(Abs()))
    {
      log := log + [Close(daemonSockfd)];
      daemonSockfd := NO_SOCKET;
    }

    method WsCallback(e: Event)
      requires Valid() && (e.Established? || e.Receive? || e.Closed?)
      modifies this`activeWsConnections, this`daemonSockfd, this`log
      ensures Valid() && Abs() == Step(old(Abs()), e)
    {
      if e.Established? {
        activeWsConnections := activeWsConnections + 1;
        if daemonSockfd == NO_SOCKET {
          SetupClientConnection(e.setup);
        }
      } else if e.Receive? {
        if daemonSockfd != NO_SOCKET {
          log := log + [Write(daemonSockfd, e.payload)];
        }
      } else {
        activeWsConnections := activeWsConnections - 1;
        if activeWsConnections == 0 && daemonSockfd != NO_SOCKET {
          CloseClientConnection();
        }
      }
    }

    /** Makes room for `extra` more bytes, keeping the ones already held; a failing realloc loses the buffer. */
    method Reserve(extra: nat, reallocOk: bool) returns (ok: bool)
      requires audioBuffer != null && audioBufferSize == audioBuffer.Length && audioBufferLen <= audioBufferSize
      modifies this`audioBuffer, this`audioBufferSize
      ensures ok <==> reallocOk || audioBufferLen + extra <= old(audioBufferSize)
      ensures audioBuffer == null <==> !ok
      ensures audioBufferSize == Max(old(audioBufferSize), audioBufferLen + extra)
      ensures ok ==> audioBuffer.Length == audioBufferSize
      ensures ok ==> audioBuffer[..audioBufferLen] == old(audioBuffer[..audioBufferLen])
      ensures ok ==> audioBuffer == old(audioBuffer) || fresh(audioBuffer)
    {
      ok := true;
      if audioBufferLen + extra > audioBufferSize {
        audioBufferSize := audioBufferLen + extra;
        if !reallocOk {
          audioBuffer := null;
          return false;
        }
        var kept, grown := audioBuffer, new byte[audioBufferSize](_ => 0);
        forall i | 0 <= i < audioBufferLen {
          grown[i] := kept[i];
        }
        audioBuffer := grown;
      }
    }

    /** A body part arrives while connected. */
    method Append(payload: seq<byte>, reallocOk: bool) returns (ok: bool)
      requires Valid() && daemonSockfd != NO_SOCKET
      modifies this, audioBuffer
      ensures ok <==> reallocOk || |payload| <= old(audioBufferSize)
      ensures Valid() <==> ok
      ensures ok ==> Abs() == Step(old(Abs()), Body(payload))
      ensures !ok ==> Abs() == old(Abs()).(capacity := |payload|)
      ensures !ok || audioBuffer == old(audioBuffer) || fresh(audioBuffer)
    {
      var len := |payload|;
      ok := Reserve(len, reallocOk);
      if !ok {
        return;
      }
      forall i | 0 <= i < len {
        audioBuffer[audioBufferLen + i] := payload[i];
      }
      audioBufferLen := audioBufferLen + len;
      assert audioBuffer[..audioBufferLen] == payload;
      log := log + [Write(daemonSockfd, audioBuffer[..audioBufferLen])];
      audioBufferLen := 0;
    }

    /**
     An HTTP callback. A body part whose buffer could not grow is refused, is not
     written, and leaves the client without a buffer.
     */
    method HttpCallback(e: Event, reallocOk: bool) returns (refused: bool)
      requires Valid() && (e.Http? || e.Body? || e.BodyCompletion?)
      modifies this, audioBuffer
      ensures Valid() <==> !e.Body? || daemonSockfd == NO_SOCKET || reallocOk || |e.payload| <= old(audioBufferSize)
      ensures Valid() ==> Abs() == Step(old(Abs()), e)
      ensures Valid() ==> (refused <==> e.Http? && !("/audio" <= e.uri))
      ensures Valid() ==> audioBuffer == old(audioBuffer) || fresh(audioBuffer)
      ensures !Valid() ==> refused && log == old(log)
    {
      refused := false;
      if e.Http? {
        if "/audio" <= e.uri {
          if daemonSockfd == NO_SOCKET {
            SetupClientConnection(e.setup);
          }
        } else {
          refused := true;
        }
      } else if e.Body? {
        if daemonSockfd != NO_SOCKET {
          var ok := Append(e.payload, reallocOk);
          refused := !ok;
        }
      } else {
        if daemonSockfd != NO_SOCKET {
          CloseClientConnection();
        }
      }
    }

    method Handle(e: Event)
      requires Valid()
      modifies this, audioBuffer
      ensures Valid() && Abs() == Step(old(Abs()), e)
      ensures audioBuffer == old(audioBuffer) || fresh(audioBuffer)
    {
      if e.Established? || e.Receive? || e.Closed? {
        WsCallback(e);
      } else {
        var refused := HttpCallback(e, true);
      }
    }

    /** The service loop, while reallocation succeeds. */
    method HandleAll(es: seq<Event>)
      requires Valid() && Abs() == START
      modifies this, audioBuffer
      ensures Valid() && Abs() == Run(es)
    {
      var i := 0;
      while i < |es|
        invariant 0 <= i <= |es|
        invariant Valid() && Abs() == Run(es[..i])
        invariant audioBuffer == old(audioBuffer) || fresh(audioBuffer)
      {
        assert es[..i + 1] == es[..i] + [es[i]];
        RunOnce(es[..i], es[i]);
        Handle(es[i]);
        i := i + 1;
      }
      assert es[..i] == es;
    }
  }

  /** The state after a sequence of callbacks. */
  function Run(es: seq<Event>): State {
    if es == [] then START else Step(Run(es[..|es| - 1]), es[|es| - 1])
  }

  /** WebSockets established less WebSockets closed. */
  function Live(es: seq<Event>): int {
    if es == [] then 0 else
      var e := es[|es| - 1];
      Live(es[..|es| - 1]) + (if e.Established? then 1 else if e.Closed? then -1 else 0)
  }

  /** The socket left open by a log, None if the log opens over an open socket or uses one that is not open. */
  function OpenAfter(log: seq<Op>): Option<Fd> {
    if log == [] then Some(NO_SOCKET) else
      var was, op := OpenAfter(log[..|log| - 1]), log[|log| - 1];
      if was.None? || op.fd == NO_SOCKET then None
      else if op.Open? then (if was.value == NO_SOCKET then Some(op.fd) else None)
      else if op.fd != was.value then None
      else if op.Write? then was
      else Some(NO_SOCKET)
  }

  predicate Opens(e: Event) {
    (e.Established? || (e.Http? && "/audio" <= e.uri)) && e.setup != NO_SOCKET
  }

  /** An HTTP completion, or the close that leaves no WebSocket. */
  predicate ClosesAt(es: seq<Event>, j: nat)
    requires j < |es|
  {
    es[j].BodyCompletion? || (es[j].Closed? && Live(es[..j + 1]) == 0)
  }

  /** Some callback opened a connection and none has closed it since. */
  predicate Connected(es: seq<Event>) {
    exists i: nat :: i < |es| && Opens(es[i]) && StaysOpen(es, i + 1)
  }

  predicate StaysOpen(es: seq<Event>, from: nat) {
    forall j: nat :: from <= j < |es| ==> !ClosesAt(es, j)
  }

  /** The bytes a client hands over while it is connected, in order. */
  function Delivered(es: seq<Event>): seq<byte> {
    if es == [] then [] else
      var before, e := es[..|es| - 1], es[|es| - 1];
      Delivered(before) + (if (e.Receive? || e.Body?) && Connected(before) then e.payload else [])
  }

  function Written(log: seq<Op>): seq<byte> {
    if log == [] then [] else
      var op := log[|log| - 1];
      Written(log[..|log| - 1]) + (if op.Write? then op.bytes else [])
  }

  /** The largest HTTP body part handed over while connected. */
  function LargestBody(es: seq<Event>): nat {
    if es == [] then 0 else
      var before, e := es[..|es| - 1], es[|es| - 1];
      Max(LargestBody(before), if e.Body? && Connected(before) then |e.payload| else 0)
  }

  lemma {:induction false} CountIsLive(es: seq<Event>)
    ensures Run(es).live == Live(es)
  {
    if es == [] {
    } else {
      CountIsLive(es[..|es| - 1]);
    }
  }

  lemma PrefixClosesAlike(es: seq<Event>, n: nat, j: nat)
    requires j < n <= |es|
    ensures ClosesAt(es[..n], j) == ClosesAt(es, j)
  {
    assert es[..n][..j + 1] == es[..j + 1];
  }

  lemma PrefixStaysAlike(es: seq<Event>, from: nat)
    requires es != [] && from < |es|
    ensures StaysOpen(es, from) <==> StaysOpen(es[..|es| - 1], from) && !ClosesAt(es, |es| - 1)
  {
    var n := |es| - 1;
    forall j: nat | j < n ensures ClosesAt(es[..n], j) == ClosesAt(es, j) {
      PrefixClosesAlike(es, n, j);
    }
  }

  lemma ConnectedStep(es: seq<Event>)
    requires es != []
    ensures Connected(es) <==> Opens(es[|es| - 1]) || (Connected(es[..|es| - 1]) && !ClosesAt(es, |es| - 1))
  {
    var n := |es| - 1;
    var before := es[..n];
    if Opens(es[n]) {
      assert StaysOpen(es, n + 1);
    } else if Connected(es) {
      var i: nat :| i < |es| && Opens(es[i]) && StaysOpen(es, i + 1);
      PrefixStaysAlike(es, i + 1);
      assert before[i] == es[i];
    } else if Connected(before) {
      var i: nat :| i < |before| && Opens(before[i]) && StaysOpen(before, i + 1);
      PrefixStaysAlike(es, i + 1);
      assert before[i] == es[i];
    }
  }

  /** The daemon socket is open exactly when some callback opened it and none has closed it since. */
  lemma {:induction false} OpenIffConnected(es: seq<Event>)
    ensures Run(es).fd != NO_SOCKET <==> Connected(es)
  {
    if es == [] {
    } else {
      var before, n := es[..|es| - 1], |es| - 1;
      OpenIffConnected(before);
      CountIsLive(before);
      assert es[..n + 1] == es;
      ConnectedStep(es);
    }
  }

  lemma OpenAfterAppend(log: seq<Op>, op: Op)
    ensures OpenAfter(log + [op]) ==
            var was := OpenAfter(log);
            if was.None? || op.fd == NO_SOCKET then None
            else if op.Open? then (if was.value == NO_SOCKET then Some(op.fd) else None)
            else if op.fd != was.value then None
            else if op.Write? then was
            else Some(NO_SOCKET)
    ensures Written(log + [op]) == Written(log) + if op.Write? then op.bytes else []
  {
    assert (log + [op])[..|log|] == log;
  }

  /** A callback does at most one thing to the daemon, and only what the current socket allows. */
  lemma StepDoesOneThing(s: State, e: Event)
    ensures var t := Step(s, e);
            || (t.log == s.log && t.fd == s.fd)
            || (exists op :: t.log == s.log + [op] && Allowed(s.fd, op, t.fd))
  {
    var t := Step(s, e);
    if |t.log| > |s.log| {
      var op := t.log[|s.log|];
      assert t.log == s.log + [op] && Allowed(s.fd, op, t.fd);
    }
  }

  predicate Allowed(from: Fd, op: Op, to: Fd) {
    op.fd != NO_SOCKET && if op.Open? then from == NO_SOCKET && to == op.fd else
      op.fd == from && to == if op.Write? then from else NO_SOCKET
  }

  /** One socket at a time: never a second open, never a use of a closed one, and what is open is the current one. */
  lemma {:induction false} SocketsAreBracketed(es: seq<Event>)
    ensures OpenAfter(Run(es).log) == Some(Run(es).fd)
  {
    if es == [] {
    } else {
      var s, e := Run(es[..|es| - 1]), es[|es| - 1];
      SocketsAreBracketed(es[..|es| - 1]);
      StepDoesOneThing(s, e);
      var t := Step(s, e);
      if t.log != s.log || t.fd != s.fd {
        var op :| t.log == s.log + [op] && Allowed(s.fd, op, t.fd);
        OpenAfterAppend(s.log, op);
      }
    }
  }

  lemma StepWrites(s: State, e: Event)
    ensures Written(Step(s, e).log) ==
            Written(s.log) + if (e.Receive? || e.Body?) && s.fd != NO_SOCKET then e.payload else []
  {
    var t := Step(s, e);
    if |t.log| > |s.log| {
      OpenAfterAppend(s.log, t.log[|s.log|]);
    }
  }

  /** Exactly the payloads and bodies received while connected reach the daemon, in order. */
  lemma {:induction false} DaemonGetsWhatIsDelivered(es: seq<Event>)
    ensures Written(Run(es).log) == Delivered(es)
  {
    if es == [] {
    } else {
      var s, e := Run(es[..|es| - 1]), es[|es| - 1];
      DaemonGetsWhatIsDelivered(es[..|es| - 1]);
      OpenIffConnected(es[..|es| - 1]);
      StepWrites(s, e);
    }
  }

  /** The socket in use is the one that the callback that opened it got: the first to open while none was open. */
  lemma {:induction false} SocketIsFromItsOpener(es: seq<Event>)
    requires Connected(es)
    ensures exists i: nat :: i < |es| && Opens(es[i]) && !Connected(es[..i]) && StaysOpen(es, i + 1)
                          && Run(es).fd == es[i].setup
  {
    var n := |es| - 1;
    var before := es[..n];
    ConnectedStep(es);
    OpenIffConnected(before);
    if Connected(before) {
      SocketIsFromItsOpener(before);
      var i: nat :| i < n && Opens(before[i]) && !Connected(before[..i]) && StaysOpen(before, i + 1)
                 && Run(before).fd == before[i].setup;
      PrefixStaysAlike(es, i + 1);
      StaysOnSocket(es);
      assert before[..i] == es[..i] && before[i] == es[i];
    } else {
      assert StaysOpen(es, n + 1);
    }
  }

  lemma {:induction false} StaysOnSocket(es: seq<Event>)
    requires es != [] && Connected(es) && Connected(es[..|es| - 1])
    ensures !ClosesAt(es, |es| - 1) && Run(es).fd == Run(es[..|es| - 1]).fd
  {
    var before, n := es[..|es| - 1], |es| - 1;
    ConnectedStep(es);
    OpenIffConnected(before);
    CountIsLive(before);
    assert es[..n + 1] == es;
  }

  /** The buffer is as large as the largest body it has had to hold, and never shrinks. */
  lemma {:induction false} CapacityIsLargestBody(es: seq<Event>)
    ensures Run(es).capacity == Max(INITIAL_AUDIO_BUFFER_SIZE, LargestBody(es))
    ensures es != [] ==> Run(es).capacity >= Run(es[..|es| - 1]).capacity
  {
    if es == [] {
    } else {
      CapacityIsLargestBody(es[..|es| - 1]);
      OpenIffConnected(es[..|es| - 1]);
    }
  }

  /** A body part that the callback at i hands over while the daemon is connected. */
  predicate Carried(es: seq<Event>, i: nat)
    requires i < |es|
  {
    es[i].Body? && Connected(es[..i])
  }

  lemma CarriedBefore(es: seq<Event>, i: nat)
    requires i + 1 < |es|
    ensures Carried(es[..|es| - 1], i) == Carried(es, i)
  {
    assert es[..|es| - 1][..i] == es[..i];
  }

  lemma {:induction false} CapacityGrows(es: seq<Event>)
    requires es != []
    ensures var was, e := Run(es[..|es| - 1]).capacity, es[|es| - 1];
            Run(es).capacity == if Carried(es, |es| - 1) && |e.payload| > was then |e.payload| else was
  {
    OpenIffConnected(es[..|es| - 1]);
  }

  lemma {:induction false} CapacitySuffices(es: seq<Event>, i: nat)
    requires i < |es| && Carried(es, i)
    ensures |es[i].payload| <= Run(es).capacity
  {
    var n := |es| - 1;
    CapacityGrows(es);
    if i < n {
      CarriedBefore(es, i);
      CapacitySuffices(es[..n], i);
    }
  }

  /** Some part carried made the buffer as large as it is, if it has grown at all. */
  lemma {:induction false} CapacityHasCause(es: seq<Event>) returns (i: nat)
    ensures Run(es).capacity == 1280 || (i < |es| && Carried(es, i) && |es[i].payload| == Run(es).capacity)
    ensures Run(es).capacity >= 1280
  {
    i := 0;
    if es != [] {
      var n := |es| - 1;
      CapacityGrows(es);
      i := CapacityHasCause(es[..n]);
      if Run(es).capacity != Run(es[..n]).capacity {
        i := n;
      } else if Run(es).capacity != 1280 {
        CarriedBefore(es, i);
      }
    }
  }

  /** In plain terms: 1280 bytes at first, enough for every part carried, and no more than one of these made it. */
  lemma CapacityInBytes(es: seq<Event>)
    ensures Run(es).capacity >= 1280
    ensures forall i: nat :: i < |es| && Carried(es, i) ==> |es[i].payload| <= Run(es).capacity
    ensures Run(es).capacity == 1280
         || exists i: nat :: i < |es| && Carried(es, i) && |es[i].payload| == Run(es).capacity
  {
    var i := CapacityHasCause(es);
    forall i: nat | i < |es| && Carried(es, i)
      ensures |es[i].payload| <= Run(es).capacity
    {
      CapacitySuffices(es, i);
    }
  }

  /** One write per payload or body part. */
  function Writes(fd: Fd, es: seq<Event>): seq<Op> {
    if es == [] then [] else
      Writes(fd, es[..|es| - 1]) + WriteOf(fd, es[|es| - 1])
  }

  function WriteOf(fd: Fd, e: Event): seq<Op> {
    if e.Receive? || e.Body? then [Write(fd, e.payload)] else []
  }

  lemma StepInSession(s: State, e: Event)
    requires s.fd != NO_SOCKET && !e.BodyCompletion? && !(e.Closed? && s.live == 1)
    ensures Step(s, e).fd == s.fd && Step(s, e).log == s.log + WriteOf(s.fd, e)
  {
  }

  lemma RunOnce(es: seq<Event>, e: Event)
    ensures Run(es + [e]) == Step(Run(es), e)
    ensures Live(es + [e]) == Live(es) + if e.Established? then 1 else if e.Closed? then -1 else 0
  {
    assert (es + [e])[..|es|] == es;
  }

  /** From a connected point to the next closing callback the daemon gets one write per payload on one socket. */
  lemma {:induction false} SessionCarriesEverything(before: seq<Event>, during: seq<Event>)
    requires Run(before).fd != NO_SOCKET && StaysOpen(before + during, |before|)
    ensures Run(before + during).fd == Run(before).fd
    ensures Run(before + during).log == Run(before).log + Writes(Run(before).fd, during)
  {
    var all := before + during;
    if during == [] {
      assert all == before;
    } else {
      var head, e := during[..|during| - 1], during[|during| - 1];
      CutLast(before, during);
      PrefixStaysAlike(all, |before|);
      SessionCarriesEverything(before, head);
      CountIsLive(before + head);
      RunOnce(before + head, e);
      assert all[..|all| - 1 + 1] == all;
      StepInSession(Run(before + head), e);
      Associate(Run(before).log, Writes(Run(before).fd, head), WriteOf(Run(before).fd, e));
    }
  }

  lemma {:induction false} CutLast(before: seq<Event>, during: seq<Event>)
    requires during != []
    ensures var head, e := during[..|during| - 1], during[|during| - 1];
            before + during == before + head + [e] && (before + during)[..|before + during| - 1] == before + head
  {
    var head, e := during[..|during| - 1], during[|during| - 1];
    assert during == head + [e];
    Associate(before, head, [e]);
    CutApart(before + head, [e]);
  }

  lemma StepWhileIdle(s: State, e: Event)
    requires s.fd == NO_SOCKET && !Opens(e)
    ensures Step(s, e).fd == NO_SOCKET && Step(s, e).log == s.log
  {
  }

  /** While no connection is open and none is opened, everything received is lost. */
  lemma {:induction false} IdleLosesEverything(before: seq<Event>, during: seq<Event>)
    requires Run(before).fd == NO_SOCKET && forall i :: 0 <= i < |during| ==> !Opens(during[i])
    ensures Run(before + during).fd == NO_SOCKET && Run(before + during).log == Run(before).log
  {
    var all := before + during;
    if during == [] {
      assert all == before;
    } else {
      var head, e := during[..|during| - 1], during[|during| - 1];
      CutLast(before, during);
      IdleLosesEverything(before, head);
      RunOnce(before + head, e);
      StepWhileIdle(Run(before + head), e);
    }
  }

  /**
   The end of an HTTP upload closes the daemon socket whatever WebSockets remain;
   their audio is then lost until some callback opens a connection again.
   */
  lemma CompletionCutsWebSockets(before: seq<Event>, during: seq<Event>)
    requires Run(before).fd != NO_SOCKET && forall i :: 0 <= i < |during| ==> !Opens(during[i])
    ensures Run(before + [BodyCompletion] + during).log == Run(before).log + [Close(Run(before).fd)]
    ensures Run(before + [BodyCompletion]).live == Run(before).live
  {
    RunOnce(before, BodyCompletion);
    IdleLosesEverything(before + [BodyCompletion], during);
  }

  /** So an open WebSocket does not mean that its audio arrives. */
  lemma OpenWebSocketCanBeSilent(payload: seq<byte>)
    ensures var es := [Established(3), Http("/audio", 4), BodyCompletion, Receive(payload)];
            Live(es) == 1 && Written(Run(es).log) == []
  {
    var one: seq<Event> := [Established(3)];
    var two := one + [Http("/audio", 4)];
    var three := two + [BodyCompletion];
    assert [] + one == one;
    RunOnce([], Established(3));
    RunOnce(one, Http("/audio", 4));
    RunOnce(two, BodyCompletion);
    RunOnce(three, Receive(payload));
    assert three + [Receive(payload)] == [Established(3), Http("/audio", 4), BodyCompletion, Receive(payload)];
    OpenAfterAppend([], Open(3));
    OpenAfterAppend([] + [Open(3)], Close(3));
  }
}
