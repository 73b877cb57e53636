/**
 Page and worker exchanging messages. The page posts messages and, for each
 request, pushes the caller's callback on a list kept per command; the worker
 handles messages in the order posted and replies; on a reply the page pops the
 list of that command and calls what it popped. Both queues are first in first
 out, the callback lists last in first out.
 */
module Callbacks {
  import opened Options
  import opened Recorder
  import opened Sequences
  import opened Worker

  /** A request is known by its place among the posted messages, and so is its caller's callback. */
  type Request = nat

  datatype Reply = Reply(request: Request, data: seq<seq<Sample>>)

  /** One call of a callback: the reply that caused it, whose callback it was, and how many were waiting. */
  datatype Firing = Firing(reply: Reply, callback: Request, waiting: nat)

  datatype State = State(
    posted: seq<Message>,            // everything the page has posted, oldest first
    handled: nat,                    // how many of them the worker has dealt with
    tape: seq<seq<Sample>>,          // what the worker holds, per channel
    replies: seq<Reply>,             // in flight to the page, oldest first
    exportWav: seq<Request>,         // callbacks.exportWAV
    getBuffer: seq<Request>,         // callbacks.getBuffer
    fired: seq<Firing>)

  datatype Step =
    | Post(m: Message)
    | Work
    | Deliver

  predicate IsRequest(m: Message) {
    m.ExportWav? || m.GetBuffer?
  }

  function Start(channels: nat): State {
    State([], 0, seq(channels, _ => []), [], [], [], [])
  }

  function Waiting(s: State, cmd: Message): seq<Request> {
    if cmd.ExportWav? then s.exportWav else if cmd.GetBuffer? then s.getBuffer else []
  }

  function WithWaiting(s: State, cmd: Message, waiting: seq<Request>): State {
    if cmd.ExportWav? then s.(exportWav := waiting) else if cmd.GetBuffer? then s.(getBuffer := waiting) else s
  }

  ghost predicate WellFormed(s: State) {
    && s.handled <= |s.posted|
    && (forall i :: 0 <= i < |s.replies| ==>
          s.replies[i].request < s.handled && IsRequest(s.posted[s.replies[i].request]))
  }

  predicate Enabled(s: State, step: Step) {
    match step
    case Post(_) => true
    case Work => s.handled < |s.posted|
    case Deliver => s.replies != []
  }

  function Apply(s: State, step: Step): State
    requires WellFormed(s) && Enabled(s, step)
  {
    match step
    case Post(m) => WithWaiting(s, m, Waiting(s, m) + [|s.posted|]).(posted := s.posted + [m])
    case Work =>
      var m := s.posted[s.handled];
      if IsRequest(m) then s.(handled := s.handled + 1, replies := s.replies + [Reply(s.handled, s.tape)])
      else s.(handled := s.handled + 1, tape := seq(|s.tape|, c requires 0 <= c < |s.tape| => Heard(s.tape[c], m, c)))
    case Deliver =>
      var reply, cmd := s.replies[0], s.posted[s.replies[0].request];
      var waiting := Waiting(s, cmd);
      // pop() on an empty list gives undefined, and then nothing is called
      if waiting == [] then s.(replies := s.replies[1..])
      else
        WithWaiting(s, cmd, waiting[..|waiting| - 1])
          .(replies := s.replies[1..], fired := s.fired + [Firing(reply, waiting[|waiting| - 1], |waiting|)])
  }

  // ---------- Requests on their way ----------

  function Ids(replies: seq<Reply>): (ids: seq<Request>)
    ensures |ids| == |replies| && forall i :: 0 <= i < |replies| ==> ids[i] == replies[i].request
  {
    seq(|replies|, i requires 0 <= i < |replies| => replies[i].request)
  }

  function Range(lo: nat, hi: nat): (ids: seq<Request>)
    requires lo <= hi
    ensures |ids| == hi - lo && forall i :: 0 <= i < |ids| ==> ids[i] == lo + i
  {
    seq(hi - lo, i requires 0 <= i < hi - lo => lo + i)
  }

  /** Those of the given messages that are the given command. */
  function Only(posted: seq<Message>, ids: seq<Request>, cmd: Message): seq<Request> {
    if ids == [] then []
    else
      var last := ids[|ids| - 1];
      Only(posted, ids[..|ids| - 1], cmd) + if last < |posted| && posted[last] == cmd then [last] else []
  }

  /** Requests of one command not yet answered at the page, oldest first: replies in flight, then queued messages. */
  function Outstanding(s: State, cmd: Message): seq<Request>
    requires s.handled <= |s.posted|
  {
    Only(s.posted, Ids(s.replies) + Range(s.handled, |s.posted|), cmd)
  }

  lemma OnlyOfNext(posted: seq<Message>, ids: seq<Request>, x: Request, cmd: Message)
    ensures Only(posted, ids + [x], cmd) ==
            Only(posted, ids, cmd) + if x < |posted| && posted[x] == cmd then [x] else []
  {
    assert (ids + [x])[..|ids|] == ids;
  }

  lemma {:induction false} OnlyOfConcat(posted: seq<Message>, a: seq<Request>, b: seq<Request>, cmd: Message)
    ensures Only(posted, a + b, cmd) == Only(posted, a, cmd) + Only(posted, b, cmd)
    decreases |b|
  {
    if b == [] {
      assert a + b == a;
    } else {
      var last := |b| - 1;
      assert (a + b)[..|a| + last] == a + b[..last];
      OnlyOfConcat(posted, a, b[..last], cmd);
    }
  }

  lemma {:induction false} OnlyOfLonger(posted: seq<Message>, m: Message, ids: seq<Request>, cmd: Message)
    requires forall i :: 0 <= i < |ids| ==> ids[i] < |posted|
    ensures Only(posted + [m], ids, cmd) == Only(posted, ids, cmd)
    decreases |ids|
  {
    if ids == [] {
    } else {
      OnlyOfLonger(posted, m, ids[..|ids| - 1], cmd);
    }
  }

  lemma {:induction false} OutstandingAfterPost(s: State, m: Message, cmd: Message)
    requires WellFormed(s)
    ensures Outstanding(Apply(s, Post(m)), cmd) == Outstanding(s, cmd) + if m == cmd then [|s.posted|] else []
  {
    var n := |s.posted|;
    var ids := Ids(s.replies) + Range(s.handled, n);
    var t := Apply(s, Post(m));
    assert t.replies == s.replies && t.handled == s.handled && t.posted == s.posted + [m];
    assert Range(s.handled, n + 1) == Range(s.handled, n) + [n];
    Associate(Ids(s.replies), Range(s.handled, n), [n]);
    assert forall i :: 0 <= i < |ids| ==> ids[i] < n;
    OnlyOfLonger(s.posted, m, ids, cmd);
    OnlyOfNext(s.posted + [m], ids, n, cmd);
  }

  lemma OnlyWithout(posted: seq<Message>, ids: seq<Request>, x: Request, rest: seq<Request>, cmd: Message)
    requires x < |posted| && posted[x] != cmd
    ensures Only(posted, ids + ([x] + rest), cmd) == Only(posted, ids + rest, cmd)
  {
    assert ids + ([x] + rest) == ids + [x] + rest;
    OnlyOfConcat(posted, ids + [x], rest, cmd);
    OnlyOfConcat(posted, ids, rest, cmd);
    OnlyOfNext(posted, ids, x, cmd);
  }

  lemma OutstandingAfterWork(s: State, cmd: Message)
    requires WellFormed(s) && Enabled(s, Work) && IsRequest(cmd)
    ensures Outstanding(Apply(s, Work), cmd) == Outstanding(s, cmd)
  {
    var h, n := s.handled, |s.posted|;
    var ids, rest := Ids(s.replies), Range(h + 1, n);
    assert Range(h, n) == [h] + rest;
    if IsRequest(s.posted[h]) {
      assert Ids(s.replies + [Reply(h, s.tape)]) == ids + [h];
      assert ids + ([h] + rest) == ids + [h] + rest;
    } else {
      OnlyWithout(s.posted, ids, h, rest, cmd);
    }
  }

  lemma OutstandingAfterDeliver(s: State, cmd: Message)
    requires WellFormed(s) && Enabled(s, Deliver)
    ensures var r := s.replies[0].request;
            Outstanding(s, cmd) == (if s.posted[r] == cmd then [r] else []) + Outstanding(Apply(s, Deliver), cmd)
  {
    var r, rest := s.replies[0].request, Ids(s.replies[1..]) + Range(s.handled, |s.posted|);
    assert Ids(s.replies) + Range(s.handled, |s.posted|) == [r] + rest;
    OnlyOfConcat(s.posted, [r], rest, cmd);
    OnlyOfNext(s.posted, [], r, cmd);
    assert [] + [r] == [r];
  }

  ghost predicate Ascending(ids: seq<Request>) {
    forall i, j :: 0 <= i < j < |ids| ==> ids[i] < ids[j]
  }

  lemma {:induction false} OnlyIsAscending(posted: seq<Message>, ids: seq<Request>, cmd: Message)
    requires Ascending(ids)
    ensures forall x :: x in Only(posted, ids, cmd) ==> x in ids
    ensures Ascending(Only(posted, ids, cmd))
    decreases |ids|
  {
    if ids == [] {
    } else {
      var init := Only(posted, ids[..|ids| - 1], cmd);
      OnlyIsAscending(posted, ids[..|ids| - 1], cmd);
      forall k | 0 <= k < |init|
        ensures init[k] < ids[|ids| - 1]
      {
        assert init[k] in ids[..|ids| - 1];
      }
    }
  }

  lemma OutstandingIsAscending(s: State, cmd: Message)
    requires WellFormed(s) && Increasing(s)
    ensures Ascending(Outstanding(s, cmd))
  {
    var ids := Ids(s.replies) + Range(s.handled, |s.posted|);
    assert Ascending(ids);
    OnlyIsAscending(s.posted, ids, cmd);
  }

  // ---------- Every callback fires once ----------

  /** As many callbacks wait for a command as requests of it are on their way, so pop never finds the list empty. */
  ghost predicate Matched(s: State) {
    && WellFormed(s)
    && |s.exportWav| == |Outstanding(s, ExportWav)|
    && |s.getBuffer| == |Outstanding(s, GetBuffer)|
  }

  lemma MatchedKept(s: State, step: Step)
    requires Matched(s) && Enabled(s, step)
    ensures Matched(Apply(s, step))
    ensures step.Deliver? ==> Waiting(s, s.posted[s.replies[0].request]) != []
  {
    match step
    case Post(m) =>
      OutstandingAfterPost(s, m, ExportWav);
      OutstandingAfterPost(s, m, GetBuffer);
    case Work =>
      OutstandingAfterWork(s, ExportWav);
      OutstandingAfterWork(s, GetBuffer);
    case Deliver =>
      OutstandingAfterDeliver(s, ExportWav);
      OutstandingAfterDeliver(s, GetBuffer);
  }

  function Requests(posted: seq<Message>): seq<Request> {
    if posted == [] then []
    else
      var last := |posted| - 1;
      Requests(posted[..last]) + if IsRequest(posted[last]) then [last] else []
  }

  function Called(fired: seq<Firing>): (ids: seq<Request>)
    ensures |ids| == |fired| && forall i :: 0 <= i < |fired| ==> ids[i] == fired[i].callback
  {
    seq(|fired|, i requires 0 <= i < |fired| => fired[i].callback)
  }

  lemma {:induction false} RequestsOnce(posted: seq<Message>, r: Request)
    ensures multiset(Requests(posted))[r] == if r < |posted| && IsRequest(posted[r]) then 1 else 0
  {
    if posted == [] {
    } else {
      var init, n := posted[..|posted| - 1], |posted| - 1;
      RequestsOnce(init, r);
      assert r < n ==> init[r] == posted[r];
      if IsRequest(posted[n]) {
        assert Requests(posted) == Requests(init) + [n];
        MultisetOfNext(Requests(init), n);
      } else {
        assert Requests(posted) == Requests(init);
      }
    }
  }

  lemma MultisetOfNext(ids: seq<Request>, x: Request)
    ensures multiset(ids + [x]) == multiset(ids) + multiset{x}
  {
  }

  /** The callbacks handed over are those already called together with those still waiting. */
  ghost predicate Accounted(s: State) {
    multiset(Requests(s.posted)) == multiset(Called(s.fired)) + multiset(s.exportWav) + multiset(s.getBuffer)
  }

  lemma RequestsOfNext(posted: seq<Message>, m: Message)
    ensures Requests(posted + [m]) == Requests(posted) + if IsRequest(m) then [|posted|] else []
  {
    assert (posted + [m])[..|posted|] == posted;
  }

  lemma PostIsAccounted(s: State, m: Message)
    requires WellFormed(s) && Accounted(s)
    ensures Accounted(Apply(s, Post(m)))
  {
    var n := |s.posted|;
    RequestsOfNext(s.posted, m);
    assert Apply(s, Post(m)).fired == s.fired;
    if IsRequest(m) {
      MultisetOfNext(Requests(s.posted), n);
      MultisetOfNext(Waiting(s, m), n);
    }
  }

  lemma PopMovesOne(called: seq<Request>, waiting: seq<Request>)
    requires waiting != []
    ensures multiset(called + [waiting[|waiting| - 1]]) + multiset(waiting[..|waiting| - 1])
         == multiset(called) + multiset(waiting)
  {
    assert waiting == waiting[..|waiting| - 1] + [waiting[|waiting| - 1]];
  }

  lemma Regroup(a: multiset<Request>, b: multiset<Request>, c: multiset<Request>, d: multiset<Request>,
                e: multiset<Request>)
    requires a + b == c + d
    ensures a + b + e == c + d + e && a + e + b == c + e + d
  {
    assert a + e + b == a + b + e && c + e + d == c + d + e;
  }

  lemma CalledOfNext(fired: seq<Firing>, d: Firing)
    ensures Called(fired + [d]) == Called(fired) + [d.callback]
  {
  }

  lemma DeliverIsAccounted(s: State)
    requires WellFormed(s) && Accounted(s) && Enabled(s, Deliver)
    requires Waiting(s, s.posted[s.replies[0].request]) != []
    ensures Accounted(Apply(s, Deliver))
  {
    var s', cmd := Apply(s, Deliver), s.posted[s.replies[0].request];
    var waiting := Waiting(s, cmd);
    PopMovesOne(Called(s.fired), waiting);
    CalledOfNext(s.fired, Firing(s.replies[0], waiting[|waiting| - 1], |waiting|));
    assert s'.posted == s.posted;
    var called, init := multiset(Called(s'.fired)), multiset(waiting[..|waiting| - 1]);
    if cmd.ExportWav? {
      assert s'.exportWav == waiting[..|waiting| - 1] && s'.getBuffer == s.getBuffer;
      Regroup(called, init, multiset(Called(s.fired)), multiset(waiting), multiset(s.getBuffer));
    } else {
      assert s'.getBuffer == waiting[..|waiting| - 1] && s'.exportWav == s.exportWav;
      Regroup(called, init, multiset(Called(s.fired)), multiset(waiting), multiset(s.exportWav));
    }
  }

  lemma AccountedKept(s: State, step: Step)
    requires Matched(s) && Accounted(s) && Enabled(s, step)
    ensures Accounted(Apply(s, step))
  {
    MatchedKept(s, step);
    match step
    case Post(m) => PostIsAccounted(s, m);
    case Work =>
    case Deliver => DeliverIsAccounted(s);
  }

  // ---------- What a reply says ----------

  ghost predicate Says(posted: seq<Message>, reply: Reply) {
    && reply.request <= |posted|
    && forall c :: 0 <= c < |reply.data| ==> reply.data[c] == Since(posted[..reply.request], c)
  }

  /** The worker holds what the messages it has handled recorded, and each reply what was posted before its request. */
  ghost predicate Truthful(s: State) {
    && s.handled <= |s.posted|
    && (forall c :: 0 <= c < |s.tape| ==> s.tape[c] == Since(s.posted[..s.handled], c))
    && (forall i :: 0 <= i < |s.replies| ==> |s.replies[i].data| == |s.tape| && Says(s.posted, s.replies[i]))
    && (forall i :: 0 <= i < |s.fired| ==> |s.fired[i].reply.data| == |s.tape| && Says(s.posted, s.fired[i].reply))
  }

  lemma SaysOfLonger(posted: seq<Message>, m: Message, reply: Reply)
    requires Says(posted, reply)
    ensures Says(posted + [m], reply)
  {
    assert (posted + [m])[..reply.request] == posted[..reply.request];
  }

  lemma PostKeepsTruthful(s: State, m: Message)
    requires WellFormed(s) && Truthful(s)
    ensures Truthful(Apply(s, Post(m)))
  {
    var s' := Apply(s, Post(m));
    assert s'.posted == s.posted + [m] && s'.replies == s.replies && s'.fired == s.fired && s'.tape == s.tape;
    forall reply | Says(s.posted, reply)
      ensures Says(s'.posted, reply)
    {
      SaysOfLonger(s.posted, m, reply);
    }
    assert s'.posted[..s.handled] == s.posted[..s.handled];
  }

  lemma WorkKeepsTruthful(s: State)
    requires WellFormed(s) && Truthful(s) && Enabled(s, Work)
    ensures Truthful(Apply(s, Work))
  {
    var h := s.handled;
    assert s.posted[..h + 1] == s.posted[..h] + [s.posted[h]];
    forall c: nat | c < |s.tape| {
      SinceOfNext(s.posted[..h], s.posted[h], c);
    }
  }

  lemma TruthfulKept(s: State, step: Step)
    requires WellFormed(s) && Truthful(s) && Enabled(s, step)
    ensures Truthful(Apply(s, step))
  {
    match step
    case Post(m) => PostKeepsTruthful(s, m);
    case Work => WorkKeepsTruthful(s);
    case Deliver =>
  }

  // ---------- Whose callback gets the reply ----------

  ghost predicate Increasing(s: State)
    requires s.handled <= |s.posted|
  {
    forall i, j :: 0 <= i < j < |s.replies| ==> s.replies[i].request < s.replies[j].request
  }

  ghost predicate OneAtATime(s: State) {
    forall i :: 0 <= i < |s.fired| ==> s.fired[i].waiting == 1
  }

  ghost predicate OwnReplies(s: State) {
    forall i :: 0 <= i < |s.fired| ==> s.fired[i].callback == s.fired[i].reply.request
  }

  /** While every delivery has found a single callback waiting, the lists hold the outstanding requests in order. */
  ghost predicate Routed(s: State) {
    && WellFormed(s) && Increasing(s)
    && (OneAtATime(s) <==> OwnReplies(s))
    && (OneAtATime(s) ==> s.exportWav == Outstanding(s, ExportWav) && s.getBuffer == Outstanding(s, GetBuffer))
  }

  /** In an orderly state the reply at the head answers the oldest waiting request, and pop takes the newest. */
  lemma ReplyIsForOldest(s: State)
    requires Routed(s) && Matched(s) && Enabled(s, Deliver) && OneAtATime(s)
    ensures var r := s.replies[0].request; var waiting := Waiting(s, s.posted[r]);
            && waiting != [] && waiting[0] == r
            && (waiting[|waiting| - 1] == r <==> |waiting| == 1)
  {
    var r := s.replies[0].request;
    var waiting := Waiting(s, s.posted[r]);
    OutstandingAfterDeliver(s, s.posted[r]);
    OutstandingIsAscending(s, s.posted[r]);
    assert Ascending(waiting);
  }

  lemma DeliverKeepsOrder(s: State)
    requires Routed(s) && Matched(s) && Enabled(s, Deliver) && OneAtATime(s)
    requires |Waiting(s, s.posted[s.replies[0].request])| == 1
    ensures var s' := Apply(s, Deliver);
            s'.exportWav == Outstanding(s', ExportWav) && s'.getBuffer == Outstanding(s', GetBuffer)
  {
    OutstandingAfterDeliver(s, ExportWav);
    OutstandingAfterDeliver(s, GetBuffer);
  }

  lemma DeliverKeepsRouted(s: State)
    requires Routed(s) && Matched(s) && Enabled(s, Deliver)
    ensures Routed(Apply(s, Deliver))
  {
    var s', r := Apply(s, Deliver), s.replies[0].request;
    var waiting := Waiting(s, s.posted[r]);
    MatchedKept(s, Deliver);
    var d := Firing(s.replies[0], waiting[|waiting| - 1], |waiting|);
    assert s'.fired == s.fired + [d];
    assert OneAtATime(s') <==> OneAtATime(s) && d.waiting == 1 by {
      assert s'.fired[|s.fired|] == d && s'.fired[..|s.fired|] == s.fired;
    }
    assert OwnReplies(s') <==> OwnReplies(s) && d.callback == r by {
      assert s'.fired[|s.fired|] == d && s'.fired[..|s.fired|] == s.fired;
    }
    if OneAtATime(s) {
      ReplyIsForOldest(s);
      if |waiting| == 1 {
        DeliverKeepsOrder(s);
      }
    }
  }

  lemma RoutedKept(s: State, step: Step)
    requires Routed(s) && Matched(s) && Enabled(s, step)
    ensures Routed(Apply(s, step))
  {
    match step
    case Post(m) =>
      OutstandingAfterPost(s, m, ExportWav);
      OutstandingAfterPost(s, m, GetBuffer);
    case Work =>
      OutstandingAfterWork(s, ExportWav);
      OutstandingAfterWork(s, GetBuffer);
    case Deliver =>
      DeliverKeepsRouted(s);
  }

  // ---------- Whole runs ----------

  ghost predicate Safe(s: State) {
    Matched(s) && Accounted(s) && Truthful(s) && Routed(s)
  }

  lemma SafeKept(s: State, step: Step)
    requires Safe(s) && Enabled(s, step)
    ensures Safe(Apply(s, step))
  {
    MatchedKept(s, step);
    AccountedKept(s, step);
    TruthfulKept(s, step);
    RoutedKept(s, step);
  }

  lemma WellFormedKept(s: State, step: Step)
    requires WellFormed(s) && Enabled(s, step)
    ensures WellFormed(Apply(s, step))
  {
  }

  function Exec(s: State, steps: seq<Step>): (end: Option<State>)
    requires WellFormed(s)
    ensures end.Some? ==> WellFormed(end.value)
    decreases |steps|
  {
    if steps == [] then Some(s)
    else if Enabled(s, steps[0]) then
      WellFormedKept(s, steps[0]);
      Exec(Apply(s, steps[0]), steps[1..])
    else None
  }

  lemma {:induction false} RunsAreSafe(s: State, steps: seq<Step>)
    requires Safe(s) && Exec(s, steps).Some?
    ensures Safe(Exec(s, steps).value)
    decreases |steps|
  {
    if steps == [] {
    } else {
      SafeKept(s, steps[0]);
      RunsAreSafe(Apply(s, steps[0]), steps[1..]);
    }
  }

  ghost predicate Reachable(s: State) {
    exists steps :: Exec(Start(|s.tape|), steps) == Some(s)
  }

  lemma StartIsSafe(channels: nat)
    ensures Safe(Start(channels))
  {
    var s := Start(channels);
    assert Ids(s.replies) + Range(s.handled, |s.posted|) == [];
  }

  lemma ReachableIsSafe(s: State)
    requires Reachable(s)
    ensures Safe(s)
  {
    var steps :| Exec(Start(|s.tape|), steps) == Some(s);
    StartIsSafe(|s.tape|);
    RunsAreSafe(Start(|s.tape|), steps);
  }

  /**
   Conservation: callbacks waiting for a command equal its queued requests plus
   replies in flight, so pop never comes up empty; and every callback handed
   over is either waiting or has been called, exactly once.
   */
  lemma CallbacksAreConserved(s: State, r: Request)
    requires Reachable(s)
    ensures |s.exportWav| == |Outstanding(s, ExportWav)| && |s.getBuffer| == |Outstanding(s, GetBuffer)|
    ensures Enabled(s, Deliver) ==> Waiting(s, s.posted[s.replies[0].request]) != []
    ensures multiset(Called(s.fired))[r] + multiset(s.exportWav)[r] + multiset(s.getBuffer)[r]
         == if r < |s.posted| && IsRequest(s.posted[r]) then 1 else 0
  {
    ReachableIsSafe(s);
    RequestsOnce(s.posted, r);
    if Enabled(s, Deliver) {
      MatchedKept(s, Deliver);
    }
  }

  /** Once both queues are empty every callback has been called exactly once. */
  lemma QuietMeansAllCalled(s: State, r: Request)
    requires Reachable(s) && s.handled == |s.posted| && s.replies == []
    ensures multiset(Called(s.fired))[r] == if r < |s.posted| && IsRequest(s.posted[r]) then 1 else 0
  {
    CallbacksAreConserved(s, r);
    assert Ids(s.replies) + Range(s.handled, |s.posted|) == [];
  }

  /** The page can always post; and if neither side has anything left to do, every callback has been called once. */
  lemma StandstillMeansAllCalled(s: State, r: Request, m: Message)
    requires Reachable(s)
    ensures Enabled(s, Post(m))
    ensures Enabled(s, Work) || Enabled(s, Deliver)
         || multiset(Called(s.fired))[r] == if r < |s.posted| && IsRequest(s.posted[r]) then 1 else 0
  {
    ReachableIsSafe(s);
    if !Enabled(s, Work) && !Enabled(s, Deliver) {
      QuietMeansAllCalled(s, r);
    }
  }

  /** A reply carries what was recorded by the messages posted before its request, however late it is handled. */
  lemma RepliesAreTruthful(s: State, i: nat, c: nat)
    requires Reachable(s) && i < |s.fired| && c < |s.tape|
    ensures var reply := s.fired[i].reply;
            && |reply.data| == |s.tape| && reply.request <= |s.posted|
            && reply.data[c] == Since(s.posted[..reply.request], c)
  {
    ReachableIsSafe(s);
    assert Says(s.posted, s.fired[i].reply);
  }

  // ---------- A run told by its steps ----------

  /** What the page posts in these steps. */
  function Posts(steps: seq<Step>): seq<Message> {
    if steps == [] then [] else
      (if steps[0].Post? then [steps[0].m] else []) + Posts(steps[1..])
  }

  /** How many messages the worker takes in these steps. */
  function Works(steps: seq<Step>): nat {
    if steps == [] then 0 else (if steps[0].Work? then 1 else 0) + Works(steps[1..])
  }

  /** How many replies reach the page in these steps. */
  function Deliveries(steps: seq<Step>): nat {
    if steps == [] then 0 else (if steps[0].Deliver? then 1 else 0) + Deliveries(steps[1..])
  }

  lemma StepTold(s: State, step: Step)
    requires Safe(s) && Enabled(s, step)
    ensures var t := Apply(s, step);
            && t.posted == s.posted + (if step.Post? then [step.m] else [])
            && t.handled == s.handled + (if step.Work? then 1 else 0)
            && |t.fired| == |s.fired| + (if step.Deliver? then 1 else 0)
  {
    MatchedKept(s, step);
  }

  lemma {:induction false} RunTold(s: State, steps: seq<Step>)
    requires Safe(s) && Exec(s, steps).Some?
    ensures var t := Exec(s, steps).value;
            && t.posted == s.posted + Posts(steps)
            && t.handled == s.handled + Works(steps)
            && |t.fired| == |s.fired| + Deliveries(steps)
    decreases |steps|
  {
    if steps == [] {
    } else {
      SafeKept(s, steps[0]);
      StepTold(s, steps[0]);
      RunTold(Apply(s, steps[0]), steps[1..]);
      Associate(s.posted, if steps[0].Post? then [steps[0].m] else [], Posts(steps[1..]));
    }
  }

  function Answered(fired: seq<Firing>): (ids: seq<Request>)
    ensures |ids| == |fired| && forall i :: 0 <= i < |fired| ==> ids[i] == fired[i].reply.request
  {
    seq(|fired|, i requires 0 <= i < |fired| => fired[i].reply.request)
  }

  /** The replies delivered, then those in flight, answer the requests handled so far, one each and in order. */
  ghost predicate AnswersInOrder(s: State) {
    s.handled <= |s.posted| && Answered(s.fired) + Ids(s.replies) == Requests(s.posted[..s.handled])
  }

  lemma DeliverAnswersInOrder(s: State)
    requires Matched(s) && AnswersInOrder(s) && Enabled(s, Deliver)
    ensures AnswersInOrder(Apply(s, Deliver))
  {
    MatchedKept(s, Deliver);
    var t, r := Apply(s, Deliver), s.replies[0].request;
    assert Ids(s.replies) == [r] + Ids(t.replies);
    assert Answered(t.fired) == Answered(s.fired) + [r];
    Associate(Answered(s.fired), [r], Ids(t.replies));
  }

  lemma WorkAnswersInOrder(s: State)
    requires WellFormed(s) && AnswersInOrder(s) && Enabled(s, Work)
    ensures AnswersInOrder(Apply(s, Work))
  {
    var t, h := Apply(s, Work), s.handled;
    assert s.posted[..h + 1] == s.posted[..h] + [s.posted[h]];
    RequestsOfNext(s.posted[..h], s.posted[h]);
    assert t.fired == s.fired;
    if IsRequest(s.posted[h]) {
      assert Ids(t.replies) == Ids(s.replies) + [h];
      Associate(Answered(s.fired), Ids(s.replies), [h]);
    } else {
      assert t.replies == s.replies;
    }
  }

  lemma AnswersInOrderKept(s: State, step: Step)
    requires Matched(s) && AnswersInOrder(s) && Enabled(s, step)
    ensures AnswersInOrder(Apply(s, step))
  {
    match step
    case Post(m) =>
      assert Apply(s, step).posted[..s.handled] == s.posted[..s.handled];
      assert Apply(s, step).fired == s.fired && Apply(s, step).replies == s.replies;
    case Work => WorkAnswersInOrder(s);
    case Deliver => DeliverAnswersInOrder(s);
  }

  /** The requests in a waiting list are of its command, and the older ones stand in front. */
  ghost predicate InLine(posted: seq<Message>, waiting: seq<Request>, cmd: Message) {
    Ascending(waiting) && forall i :: 0 <= i < |waiting| ==> waiting[i] < |posted| && posted[waiting[i]] == cmd
  }

  /** Whoever was called had asked with the command that the reply answers. */
  ghost predicate CalledAlike(posted: seq<Message>, d: Firing) {
    d.callback < |posted| && d.reply.request < |posted| && posted[d.callback] == posted[d.reply.request]
  }

  ghost predicate Lined(s: State) {
    && InLine(s.posted, s.exportWav, ExportWav) && InLine(s.posted, s.getBuffer, GetBuffer)
    && forall i :: 0 <= i < |s.fired| ==> CalledAlike(s.posted, s.fired[i])
  }

  lemma PostKeepsLined(s: State, m: Message)
    requires WellFormed(s) && Lined(s)
    ensures Lined(Apply(s, Post(m)))
  {
    var t := Apply(s, Post(m));
    assert t.posted == s.posted + [m] && t.fired == s.fired;
    assert InLine(t.posted, s.exportWav, ExportWav) && InLine(t.posted, s.getBuffer, GetBuffer);
    if IsRequest(m) {
      assert InLine(t.posted, Waiting(s, m) + [|s.posted|], m);
    }
    forall i | 0 <= i < |s.fired|
      ensures CalledAlike(t.posted, s.fired[i])
    {
      assert CalledAlike(s.posted, s.fired[i]);
    }
  }

  lemma DeliverKeepsLined(s: State)
    requires Matched(s) && Lined(s) && Enabled(s, Deliver)
    ensures Lined(Apply(s, Deliver))
  {
    MatchedKept(s, Deliver);
    var t, reply := Apply(s, Deliver), s.replies[0];
    var cmd := s.posted[reply.request];
    var waiting := Waiting(s, cmd);
    var last := |waiting| - 1;
    assert InLine(s.posted, waiting, cmd) && InLine(s.posted, waiting[..last], cmd);
    assert CalledAlike(s.posted, Firing(reply, waiting[last], |waiting|));
    assert t.posted == s.posted && t.fired == s.fired + [Firing(reply, waiting[last], |waiting|)];
  }

  lemma LinedKept(s: State, step: Step)
    requires Matched(s) && Lined(s) && Enabled(s, step)
    ensures Lined(Apply(s, step))
  {
    match step
    case Post(m) => PostKeepsLined(s, m);
    case Work => assert Apply(s, step).posted == s.posted && Apply(s, step).fired == s.fired;
    case Deliver => DeliverKeepsLined(s);
  }

  lemma {:induction false} RunsAreOrderly(s: State, steps: seq<Step>)
    requires Safe(s) && AnswersInOrder(s) && Lined(s) && Exec(s, steps).Some?
    ensures AnswersInOrder(Exec(s, steps).value) && Lined(Exec(s, steps).value)
    decreases |steps|
  {
    if steps == [] {
    } else {
      SafeKept(s, steps[0]);
      AnswersInOrderKept(s, steps[0]);
      LinedKept(s, steps[0]);
      RunsAreOrderly(Apply(s, steps[0]), steps[1..]);
    }
  }

  /**
   What a run leaves, told by its steps: the messages posted are those of its Post
   steps, as many are handled as it has Work steps, and each delivery answers the
   next request in the order of posting and calls a callback of the same command.
   The worker can go on exactly while a message is left, the page while a reply is.
   */
  lemma {:induction false} StateTellsTheRun(channels: nat, steps: seq<Step>, s: State)
    requires Exec(Start(channels), steps) == Some(s)
    ensures s.posted == Posts(steps) && s.handled == Works(steps) <= |s.posted| && |s.fired| == Deliveries(steps)
    ensures Answered(s.fired) + Ids(s.replies) == Requests(Posts(steps)[..Works(steps)])
    ensures forall i :: 0 <= i < |s.fired| ==> CalledAlike(Posts(steps), s.fired[i])
    ensures Enabled(s, Work) <==> Works(steps) < |Posts(steps)|
    ensures Enabled(s, Deliver) <==> Deliveries(steps) < |Requests(Posts(steps)[..Works(steps)])|
  {
    StartIsSafe(channels);
    RunTold(Start(channels), steps);
    StartIsOrderly(channels);
    RunsAreOrderly(Start(channels), steps);
    assert [] + Posts(steps) == Posts(steps);
    EachAnswered(s);
  }

  lemma EachAnswered(s: State)
    requires AnswersInOrder(s)
    ensures |s.fired| + |s.replies| == |Requests(s.posted[..s.handled])|
  {
    assert |Answered(s.fired) + Ids(s.replies)| == |s.fired| + |s.replies|;
  }

  lemma StartIsOrderly(channels: nat)
    ensures AnswersInOrder(Start(channels)) && Lined(Start(channels))
  {
    var s := Start(channels);
    assert Answered(s.fired) == [] && Ids(s.replies) == [] && s.posted[..s.handled] == [];
  }

  /** A request of the command whose callback has not been called. */
  predicate Uncalled(s: State, r: Request, cmd: Message) {
    r < |s.posted| && s.posted[r] == cmd && r !in Called(s.fired)
  }

  lemma UncalledWaits(s: State, r: Request, cmd: Message)
    requires Reachable(s) && Lined(s) && IsRequest(cmd) && Uncalled(s, r, cmd)
    ensures r in Waiting(s, cmd)
  {
    CallbacksAreConserved(s, r);
    assert r !in multiset(Called(s.fired));
    assert r in multiset(s.exportWav) || r in multiset(s.getBuffer);
    assert r in s.exportWav ==> s.posted[r] == ExportWav;
    assert r in s.getBuffer ==> s.posted[r] == GetBuffer;
  }

  /**
   However many callbacks wait, a reply calls the one handed over last among all
   those of its command that have not been called.
   */
  lemma NewestIsCalled(s: State)
    requires Reachable(s) && Enabled(s, Deliver)
    ensures var t, reply := Apply(s, Deliver), s.replies[0];
            && reply.request < |s.posted| && |t.fired| == |s.fired| + 1 && t.fired[..|s.fired|] == s.fired
            && var d, cmd := t.fired[|s.fired|], s.posted[reply.request];
               && d.reply == reply && Uncalled(s, d.callback, cmd)
               && (forall r: Request :: Uncalled(s, r, cmd) ==> r <= d.callback)
               && d.waiting == |set r: Request | r < |s.posted| && Uncalled(s, r, cmd)|
  {
    ReachableIsSafe(s);
    var reply := s.replies[0];
    DeliverPops(s);
    LastIsNewest(s, s.posted[reply.request]);
  }

  lemma DeliverPops(s: State)
    requires Matched(s) && Enabled(s, Deliver)
    ensures IsRequest(s.posted[s.replies[0].request])
    ensures var waiting := Waiting(s, s.posted[s.replies[0].request]);
            && waiting != []
            && Apply(s, Deliver).fired == s.fired + [Firing(s.replies[0], waiting[|waiting| - 1], |waiting|)]
  {
    MatchedKept(s, Deliver);
  }

  /** Of the uncalled requests of a command, as many as wait, the newest stands last. */
  lemma LastIsNewest(s: State, cmd: Message)
    requires Reachable(s) && IsRequest(cmd) && Waiting(s, cmd) != []
    ensures var waiting := Waiting(s, cmd);
            && Uncalled(s, waiting[|waiting| - 1], cmd)
            && (forall r: Request :: Uncalled(s, r, cmd) ==> r <= waiting[|waiting| - 1])
            && |set r: Request | r < |s.posted| && Uncalled(s, r, cmd)| == |waiting|
  {
    var waiting := Waiting(s, cmd);
    ReachableIsOrderly(s);
    assert InLine(s.posted, waiting, cmd);
    WaitingAreUncalled(s, cmd);
    CountDistinct(waiting);
    LastIsLargest(waiting);
    assert (set r: Request | r < |s.posted| && Uncalled(s, r, cmd)) == set r: Request | r in waiting;
  }

  lemma LastIsLargest(ids: seq<Request>)
    requires Ascending(ids) && ids != []
    ensures forall r :: r in ids ==> r <= ids[|ids| - 1]
  {
  }

  lemma ReachableIsOrderly(s: State)
    requires Reachable(s)
    ensures Lined(s)
  {
    var steps :| Exec(Start(|s.tape|), steps) == Some(s);
    StartIsSafe(|s.tape|);
    StartIsOrderly(|s.tape|);
    RunsAreOrderly(Start(|s.tape|), steps);
  }

  lemma WaitingAreUncalled(s: State, cmd: Message)
    requires Reachable(s) && Lined(s) && IsRequest(cmd)
    ensures forall r :: Uncalled(s, r, cmd) <==> r in Waiting(s, cmd)
  {
    var waiting := Waiting(s, cmd);
    forall r: Request
      ensures Uncalled(s, r, cmd) <==> r in waiting
    {
      if Uncalled(s, r, cmd) {
        UncalledWaits(s, r, cmd);
      }
      if r in waiting {
        CallbacksAreConserved(s, r);
        assert r in multiset(waiting);
        assert r in Called(s.fired) ==> r in multiset(Called(s.fired));
      }
    }
  }

  lemma {:induction false} CountDistinct(ids: seq<Request>)
    requires Ascending(ids)
    ensures |set r: Request | r in ids| == |ids|
  {
    if ids == [] {
      assert (set r: Request | r in ids) == {};
    } else {
      var init, last := ids[..|ids| - 1], ids[|ids| - 1];
      CountDistinct(init);
      var front := set r: Request | r in init;
      assert last !in front;
      assert ids == init + [last];
      assert (set r: Request | r in ids) == front + {last};
    }
  }

  /**
   Since the lists are last in first out, every reply of a run reaches the
   caller that asked for it exactly when each delivery finds only one callback
   of its command waiting.
   */
  lemma RepliesReachTheirCallers(s: State)
    requires Reachable(s)
    ensures (forall i :: 0 <= i < |s.fired| ==> s.fired[i].callback == s.fired[i].reply.request)
       <==> (forall i :: 0 <= i < |s.fired| ==> s.fired[i].waiting == 1)
  {
    ReachableIsSafe(s);
    assert OneAtATime(s) <==> OwnReplies(s);
  }

  /** Along the run, the page posts a request only while no callback of its command is waiting. */
  ghost predicate OneByOne(s: State, steps: seq<Step>)
    requires WellFormed(s)
    decreases |steps|
  {
    steps != [] && Enabled(s, steps[0]) ==>
      && (steps[0].Post? ==> Waiting(s, steps[0].m) == [])
      && WellFormed(Apply(s, steps[0])) && OneByOne(Apply(s, steps[0]), steps[1..])
  }

  ghost predicate Crowded(s: State) {
    |s.exportWav| > 1 || |s.getBuffer| > 1
  }

  lemma DeliverCrowd(s: State)
    requires Matched(s) && Enabled(s, Deliver)
    ensures !OneAtATime(s) || Crowded(s) ==> Crowded(Apply(s, Deliver)) || !OneAtATime(Apply(s, Deliver))
    ensures !Crowded(s) && OneAtATime(s) ==> !Crowded(Apply(s, Deliver)) && OneAtATime(Apply(s, Deliver))
  {
    MatchedKept(s, Deliver);
    var s' := Apply(s, Deliver);
    var waiting := Waiting(s, s.posted[s.replies[0].request]);
    var d := Firing(s.replies[0], waiting[|waiting| - 1], |waiting|);
    assert s'.fired == s.fired + [d];
    assert OneAtATime(s') <==> OneAtATime(s) && d.waiting == 1 by {
      assert s'.fired[|s.fired|] == d && s'.fired[..|s.fired|] == s.fired;
    }
  }

  lemma CrowdStep(s: State, step: Step)
    requires Matched(s) && Enabled(s, step)
    ensures !OneAtATime(s) || Crowded(s) ==> Crowded(Apply(s, step)) || !OneAtATime(Apply(s, step))
    ensures step.Post? && Waiting(s, step.m) != [] ==> Crowded(Apply(s, step))
    ensures !Crowded(s) && OneAtATime(s) && (step.Post? ==> Waiting(s, step.m) == []) ==>
              !Crowded(Apply(s, step)) && OneAtATime(Apply(s, step))
  {
    if step.Deliver? {
      DeliverCrowd(s);
    } else {
      assert Apply(s, step).fired == s.fired;
    }
  }

  lemma {:induction false} CrowdLasts(s: State, steps: seq<Step>)
    requires Safe(s) && Exec(s, steps).Some? && (Crowded(s) || !OneAtATime(s))
    ensures Crowded(Exec(s, steps).value) || !OneAtATime(Exec(s, steps).value)
    decreases |steps|
  {
    if steps == [] {
    } else {
      SafeKept(s, steps[0]);
      CrowdStep(s, steps[0]);
      CrowdLasts(Apply(s, steps[0]), steps[1..]);
    }
  }

  lemma {:induction false} OneByOneFrom(s: State, steps: seq<Step>)
    requires Safe(s) && Exec(s, steps).Some? && !Crowded(s) && OneAtATime(s)
    ensures OneByOne(s, steps) <==> !Crowded(Exec(s, steps).value) && OneAtATime(Exec(s, steps).value)
    decreases |steps|
  {
    if steps == [] {
    } else {
      SafeKept(s, steps[0]);
      CrowdStep(s, steps[0]);
      var s' := Apply(s, steps[0]);
      if steps[0].Post? && Waiting(s, steps[0].m) != [] {
        CrowdLasts(s', steps[1..]);
      } else {
        OneByOneFrom(s', steps[1..]);
      }
    }
  }

  /**
   What a page has to do to get its own replies: ask only while no callback of
   that command is waiting. Then every reply reaches its caller; and in a run
   that ends with at most one callback waiting per command, only then.
   */
  lemma RepliesReachPatientCallers(channels: nat, steps: seq<Step>, s: State)
    requires Exec(Start(channels), steps) == Some(s)
    ensures OneByOne(Start(channels), steps) <==>
            && (forall i :: 0 <= i < |s.fired| ==> s.fired[i].callback == s.fired[i].reply.request)
            && |s.exportWav| <= 1 && |s.getBuffer| <= 1
  {
    StartIsSafe(channels);
    OneByOneFrom(Start(channels), steps);
    RunsAreSafe(Start(channels), steps);
    assert OneAtATime(s) <==> OwnReplies(s);
  }

  lemma TwoCallsWaiting() returns (s: State)
    ensures Exec(Start(0), [Post(GetBuffer), Post(GetBuffer), Work]) == Some(s)
    ensures s.posted == [GetBuffer, GetBuffer] && s.replies == [Reply(0, [])] && s.getBuffer == [0, 1]
    ensures s.tape == [] && s.fired == []
  {
    var s0 := Start(0);
    var s1 := Apply(s0, Post(GetBuffer));
    var s2 := Apply(s1, Post(GetBuffer));
    s := Apply(s2, Work);
    var steps := [Post(GetBuffer), Post(GetBuffer), Work];
    assert steps[1..][1..] == [Work] && [Work][1..] == [];
    assert Exec(s2, [Work]) == Some(s);
  }

  lemma {:induction false} ExecThen(s: State, steps: seq<Step>, step: Step)
    requires WellFormed(s) && Exec(s, steps).Some? && Enabled(Exec(s, steps).value, step)
    ensures Exec(s, steps + [step]) == Some(Apply(Exec(s, steps).value, step))
    decreases |steps|
  {
    if steps == [] {
      WellFormedKept(s, step);
    } else {
      WellFormedKept(s, steps[0]);
      assert (steps + [step])[1..] == steps[1..] + [step];
      ExecThen(Apply(s, steps[0]), steps[1..], step);
    }
  }

  /** Two requests of one command waiting together: the first reply goes to the second caller. */
  lemma PopCanMisroute()
    ensures exists s :: Reachable(s) && |s.fired| == 1 && s.fired[0].reply.request == 0 && s.fired[0].callback == 1
  {
    var s := TwoCallsWaiting();
    var steps := [Post(GetBuffer), Post(GetBuffer), Work];
    ExecThen(Start(0), steps, Deliver);
    var end := Apply(s, Deliver);
    assert Exec(Start(|end.tape|), steps + [Deliver]) == Some(end);
  }
}
