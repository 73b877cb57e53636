/**
 The list of connected microphone clients as it lives on the heap: singly
 linked nodes reached from a global head (src/iad/utils/utils.h), extended by
 the input server and pruned in place by the record threads.
 */
module ClientList {
  import opened Survivors

  type Frame = nat

  class ClientNode {
    const sockfd: int // assigned once, before the cell is linked
    var next: ClientNode?

    constructor (sockfd: int, next: ClientNode?)
      ensures this.sockfd == sockfd && this.next == next
    {
      this.sockfd := sockfd;
      this.next := next;
    }
  }

  datatype Attempt = Attempt(sockfd: int, frame: Frame)

  /** The sockets: what was written, and what the k-th write of the run returns. */
  class Wire {
    const reply: nat -> int
    var log: seq<Attempt>

    constructor (reply: nat -> int)
      ensures this.reply == reply && log == []
    {
      this.reply := reply;
      log := [];
    }

    method Write(sockfd: int, frame: Frame) returns (n: int)
      modifies this
      ensures n == reply(|old(log)|)
      ensures log == old(log) + [Attempt(sockfd, frame)]
    {
      n := reply(|log|);
      log := log + [Attempt(sockfd, frame)];
    }
  }

  /** One write of the frame to each client, in list order. */
  function Attempts(nodes: seq<ClientNode>, frame: Frame): (log: seq<Attempt>)
    ensures |log| == |nodes|
  {
    if nodes == [] then []
    else Attempts(nodes[..|nodes| - 1], frame) + [Attempt(nodes[|nodes| - 1].sockfd, frame)]
  }

  /** `nodes` is the chain of cells reached from `first`, and it ends. */
  ghost predicate Chain(first: ClientNode?, nodes: seq<ClientNode>)
    reads nodes
  {
    && first == (if nodes == [] then null else nodes[0])
    && (forall i {:trigger nodes[i].next} :: 0 <= i < |nodes| - 1 ==> nodes[i].next == nodes[i + 1])
    && (nodes != [] ==> nodes[|nodes| - 1].next == null)
  }

  /** A chain that ends in null visits no cell twice, so a list walk cannot go round. */
  lemma {:induction false} ChainIsAcyclic(nodes: seq<ClientNode>, i: nat, j: nat)
    requires nodes != [] && Chain(nodes[0], nodes)
    requires i < j < |nodes|
    ensures nodes[i] != nodes[j]
    decreases |nodes| - j
  {
    if nodes[i] == nodes[j] {
      assert nodes[i].next == nodes[i + 1];
      if j < |nodes| - 1 {
        assert nodes[j].next == nodes[j + 1];
        ChainIsAcyclic(nodes, i + 1, j + 1);
      }
    }
  }

  lemma OccursOnce(nodes: seq<ClientNode>, p: nat)
    requires p < |nodes| && Chain(nodes[0], nodes)
    ensures forall i :: 0 <= i < |nodes| && i != p ==> nodes[i] != nodes[p]
  {
    forall i | 0 <= i < |nodes| && i != p
      ensures nodes[i] != nodes[p]
    {
      ChainIsAcyclic(nodes, if i < p then i else p, if i < p then p else i);
    }
  }

  lemma AllDistinct(nodes: seq<ClientNode>)
    requires nodes != [] ==> Chain(nodes[0], nodes)
    ensures forall j, k :: 0 <= j < k < |nodes| ==> nodes[j] != nodes[k]
  {
    forall j, k | 0 <= j < k < |nodes|
      ensures nodes[j] != nodes[k]
    {
      ChainIsAcyclic(nodes, j, k);
    }
  }

  ghost function Elements<T>(s: seq<T>): set<T> {
    set x | x in s
  }

  lemma ElementsWithout<T>(s: seq<T>, p: nat)
    requires p < |s|
    requires forall i :: 0 <= i < |s| && i != p ==> s[i] != s[p]
    ensures s[p] !in s[..p] + s[p + 1..]
    ensures Elements(s) == Elements(s[..p] + s[p + 1..]) + {s[p]}
  {
    var t := s[..p] + s[p + 1..];
    forall x | x in s && x != s[p]
      ensures x in t
    {
      var i :| 0 <= i < |s| && s[i] == x;
      assert t[if i < p then i else i - 1] == x;
    }
  }

  /** If nothing is allocated, the cells that left the list are the ones that were freed. */
  lemma FreedAreThoseDropped<T>(m: set<T>, was: seq<T>, f: set<T>, now: seq<T>, g: set<T>)
    requires m == Elements(was) + f && Elements(was) !! f
    requires m == Elements(now) + g && Elements(now) !! g
    requires forall x :: x in now ==> x in was
    ensures g == f + (Elements(was) - Elements(now))
  {
  }

  /** Dropping the element between two pieces of a sequence. */
  lemma DropMiddle<T>(kept: seq<T>, todo: seq<T>)
    requires todo != []
    ensures (kept + todo)[..|kept|] + (kept + todo)[|kept| + 1..] == kept + todo[1..]
    ensures kept + todo == kept + [todo[0]] + todo[1..]
  {
  }

  /**
   A pass over `was`, under way: `visited` have been written to in order from
   write number `base` on, `kept` are those still linked, `todo` are to come.
   */
  ghost predicate UnderWay(was: seq<ClientNode>, visited: seq<ClientNode>, kept: seq<ClientNode>, todo: seq<ClientNode>,
                           reply: nat -> int, frame: Frame, before: seq<Attempt>, log: seq<Attempt>)
  {
    && was == visited + todo
    && kept == Kept(visited, reply, |before|)
    && log == before + Attempts(visited, frame)
  }

  lemma UnderWayNext(was: seq<ClientNode>, visited: seq<ClientNode>, kept: seq<ClientNode>, todo: seq<ClientNode>,
                     reply: nat -> int, frame: Frame, before: seq<Attempt>, log: seq<Attempt>)
    requires UnderWay(was, visited, kept, todo, reply, frame, before, log) && todo != []
    ensures UnderWay(was, visited + [todo[0]], if Delivered(reply, |log|) then kept + [todo[0]] else kept, todo[1..],
                     reply, frame, before, log + [Attempt(todo[0].sockfd, frame)])
  {
    DropMiddle(visited, todo);
    KeptOfNext(visited, todo[0], reply, |before|, |log|);
    assert (visited + [todo[0]])[..|visited|] == visited;
  }

  /** Client number i is still there exactly when what write returned for it is not negative. */
  ghost predicate KeepsThoseWritten(was: seq<ClientNode>, now: seq<ClientNode>, reply: nat -> int, base: nat) {
    forall i :: 0 <= i < |was| ==> (was[i] in now <==> reply(base + i) >= 0)
  }

  /** Write number i of the pass went to client number i. */
  ghost predicate WritesToEach(was: seq<ClientNode>, frame: Frame, before: seq<Attempt>, log: seq<Attempt>) {
    && |log| == |before| + |was|
    && (forall i :: 0 <= i < |before| ==> log[i] == before[i])
    && (forall i :: 0 <= i < |was| ==> log[|before| + i] == Attempt(was[i].sockfd, frame))
  }

  lemma {:induction false} PassInPlainTerms(nodes: seq<ClientNode>, reply: nat -> int,
                                             before: seq<Attempt>, frame: Frame)
    requires forall j, k :: 0 <= j < k < |nodes| ==> nodes[j] != nodes[k]
    ensures KeepsThoseWritten(nodes, Kept(nodes, reply, |before|), reply, |before|)
    ensures WritesToEach(nodes, frame, before, before + Attempts(nodes, frame))
  {
    forall i | 0 <= i < |nodes|
      ensures nodes[i] in Kept(nodes, reply, |before|) <==> reply(|before| + i) >= 0
    {
      KeptIfWritten(nodes, reply, |before|, i);
    }
    AttemptsBySocket(nodes, frame);
  }

  // ---------- The list without a heap ----------

  /** A client connects, and malloc or pthread_create may fail; or a record thread has captured a frame. */
  datatype Event = Connect(sockfd: int, mallocOk: bool, spawnOk: bool) | Captured(frame: Frame)

  /** No thread that was needed failed to be created. */
  predicate Fine(e: Event) {
    e.Captured? || !e.mallocOk || e.spawnOk
  }

  predicate AllFine(events: seq<Event>) {
    forall i :: 0 <= i < |events| ==> Fine(events[i])
  }

  lemma OneMore(events: seq<Event>, i: nat, reply: nat -> int)
    requires i < |events| && AllFine(events[..i])
    ensures AllFine(events[..i + 1]) <==> Fine(events[i])
    ensures AllFine(events) ==> Fine(events[i])
    ensures After(events[..i + 1], reply) == Follow(After(events[..i], reply), events[i], reply)
  {
    assert events[..i + 1][..i] == events[..i];
    assert forall j :: 0 <= j < i ==> events[..i + 1][j] == events[..i][j];
  }

  /** The sockets to serve, in list order, and all writes so far. */
  datatype Roster = Roster(sockfds: seq<int>, log: seq<Attempt>)

  function Follow(r: Roster, e: Event, reply: nat -> int): Roster {
    if e.Captured? then Roster(Kept(r.sockfds, reply, |r.log|), r.log + AttemptsTo(r.sockfds, e.frame))
    else if e.mallocOk then r.(sockfds := [e.sockfd] + r.sockfds)
    else r
  }

  function After(events: seq<Event>, reply: nat -> int): Roster {
    if events == [] then Roster([], [])
    else Follow(After(events[..|events| - 1], reply), events[|events| - 1], reply)
  }

  function AttemptsTo(sockfds: seq<int>, frame: Frame): seq<Attempt> {
    seq(|sockfds|, i requires 0 <= i < |sockfds| => Attempt(sockfds[i], frame))
  }

  function Sockfds(nodes: seq<ClientNode>): (fds: seq<int>)
    ensures |fds| == |nodes|
  {
    seq(|nodes|, i requires 0 <= i < |nodes| => nodes[i].sockfd)
  }

  lemma {:induction false} AttemptsBySocket(nodes: seq<ClientNode>, frame: Frame)
    ensures Attempts(nodes, frame) == AttemptsTo(Sockfds(nodes), frame)
  {
    if nodes == [] {
    } else {
      AttemptsBySocket(nodes[..|nodes| - 1], frame);
    }
  }

  lemma {:induction false} KeptBySocket(nodes: seq<ClientNode>, reply: nat -> int, base: nat)
    ensures Sockfds(Kept(nodes, reply, base)) == Kept(Sockfds(nodes), reply, base)
  {
    if nodes == [] {
    } else {
      var last := |nodes| - 1;
      KeptBySocket(nodes[..last], reply, base);
      assert Sockfds(nodes)[..last] == Sockfds(nodes[..last]);
    }
  }

  class Clients {
    var head: ClientNode?
    ghost var spine: seq<ClientNode>     // the cells linked from head, in list order
    ghost var malloced: set<ClientNode> // every cell malloc has returned
    ghost var freed: set<ClientNode>     // every cell passed to free

    /** The malloced cells are exactly the linked ones plus those freed; no cell is both. */
    ghost predicate Valid()
      reads this, malloced
    {
      && malloced == Elements(spine) + freed
      && Elements(spine) !! freed
      && (forall i :: 0 <= i < |spine| ==> spine[i] in malloced)
      && Chain(head, spine)
    }

    ghost predicate Live(n: ClientNode)
      reads this
    {
      n in malloced && n !in freed
    }

    constructor ()
      ensures Valid() && spine == [] && malloced == {} && freed == {}
    {
      head := null;
      spine, malloced, freed := [], {}, {};
    }

    // Every access to a cell goes through the four members below, so that
    // touching a freed cell is a failed precondition.

    function Next(n: ClientNode): ClientNode?
      requires Live(n)
      reads this, n
    {
      n.next
    }

    function Sockfd(n: ClientNode): int
      requires Live(n)
      reads this
    {
      n.sockfd
    }

    method SetNext(n: ClientNode, next: ClientNode?)
      requires Live(n)
      modifies n`next
      ensures n.next == next
    {
      n.next := next;
    }

    method Free(n: ClientNode)
      requires Live(n)
      modifies this`freed
      ensures freed == old(freed) + {n}
    {
      freed := freed + {n};
    }

    /** Links one client under the lock, unless malloc fails. */
    method Link(sockfd: int, mallocOk: bool) returns (node: ClientNode?)
      requires Valid()
      modifies this`head, this`spine, this`malloced
      ensures Valid()
      ensures node == null <==> !mallocOk
      ensures !mallocOk ==> head == old(head) && spine == old(spine) && malloced == old(malloced)
      ensures mallocOk ==> fresh(node) && node.sockfd == sockfd && spine == [node] + old(spine)
      ensures mallocOk ==> malloced == old(malloced) + {node}
    {
      if !mallocOk {
        return null;
      }
      node := new ClientNode(sockfd, head);
      head := node;
      spine := [node] + spine;
      malloced := malloced + {node};
      assert node in Elements(spine);
    }

    /**
     What follows a failed pthread_create, without the lock: the cell is freed
     where it stands. Either it is still linked and the list now leads to a freed
     cell, or a pass has freed it already and this is the second time.
     */
    method Abort(node: ClientNode) returns (ghost again: bool)
      requires Valid() && node in malloced
      modifies this`freed
      ensures again <==> node !in spine
      ensures freed == old(freed) + {node}
      ensures Valid() <==> again
    {
      again := node in freed;
      freed := freed + {node};
    }

    /**
     The predecessor of `current`, found by walking from the head. The walk
     neither runs off the end nor reads a freed cell.
     */
    method FindPredecessor(current: ClientNode, ghost p: nat) returns (temp: ClientNode)
      requires Valid()
      requires 0 < p < |spine| && spine[p] == current
      ensures temp == spine[p - 1]
    {
      OccursOnce(spine, p);
      temp := head;
      ghost var j := 0;
      while Next(temp) != current
        invariant 0 <= j < p && temp == spine[j]
        invariant Live(temp) && Next(temp) == spine[j + 1]
        decreases p - j
      {
        temp := Next(temp);
        j := j + 1;
        assert spine[j] in Elements(spine);
      }
    }

    /** Unlinks and frees the first cell. */
    method RemoveHead()
      requires Valid() && head != null
      modifies this`head, this`spine, this`freed
      ensures Valid()
      ensures spine == old(spine)[1..] && freed == old(freed) + {old(spine)[0]}
    {
      OccursOnce(spine, 0);
      var current := head;
      assert current in Elements(spine);
      head := Next(current);
      Free(current);
      assert Elements(spine) == Elements(spine[1..]) + {current};
      spine := spine[1..];
    }

    /** Links the cell before position p to the one after it. */
    method Bypass(temp: ClientNode, current: ClientNode, ghost p: nat)
      requires Valid()
      requires 0 < p < |spine| && spine[p - 1] == temp && spine[p] == current
      modifies temp`next
      ensures Chain(head, spine[..p] + spine[p + 1..])
    {
      OccursOnce(spine, p - 1);
      assert spine[p - 1] in Elements(spine) && spine[p] in Elements(spine);
      SetNext(temp, Next(current));
      ghost var now := spine[..p] + spine[p + 1..];
      assert forall i :: 0 <= i < p ==> now[i] == spine[i];
      assert forall i :: p <= i < |now| ==> now[i] == spine[i + 1];
      assert forall i {:trigger old(spine[i].next)} :: 0 <= i < |spine| - 1 ==> old(spine[i].next) == spine[i + 1];
      forall i {:trigger now[i].next} | 0 <= i < |now| - 1
        ensures now[i].next == now[i + 1]
      {
        ghost var was := if i < p - 1 then i else i + 1;
        assert old(spine[was].next) == spine[was + 1] == now[i + 1];
      }
    }

    /** Unlinks and frees the cell at position p, given the cell before it. */
    method RemoveAfter(temp: ClientNode, current: ClientNode, ghost p: nat)
      requires Valid()
      requires 0 < p < |spine| && spine[p - 1] == temp && spine[p] == current
      modifies this`spine, this`freed, temp`next
      ensures Valid()
      ensures spine == old(spine)[..p] + old(spine)[p + 1..] && freed == old(freed) + {current}
    {
      OccursOnce(spine, p);
      ElementsWithout(spine, p);
      assert current in Elements(spine);
      Bypass(temp, current, p);
      Free(current);
      spine := spine[..p] + spine[p + 1..];
    }

    /** Unlinks and frees the cell at position p and returns its successor. */
    method Remove(current: ClientNode, ghost p: nat) returns (after: ClientNode?)
      requires Valid()
      requires p < |spine| && spine[p] == current
      modifies this`head, this`spine, this`freed, malloced`next
      ensures Valid()
      ensures spine == old(spine)[..p] + old(spine)[p + 1..] && freed == old(freed) + {current}
      ensures after == if p < |spine| then spine[p] else null
    {
      OccursOnce(spine, p);
      if current == head {
        RemoveHead();
        after := head;
      } else {
        var temp := FindPredecessor(current, p);
        RemoveAfter(temp, current, p);
        assert spine[p - 1] in Elements(spine);
        after := Next(temp);
      }
    }

    /**
     The body of the pass: writes to one client, and unlinks it if the write
     failed. `kept` are the survivors so far, `todo` the clients still to visit.
     */
    method Visit(wire: Wire, frame: Frame, current: ClientNode,
                 ghost kept: seq<ClientNode>, ghost todo: seq<ClientNode>)
      returns (after: ClientNode?, ghost left: seq<ClientNode>)
      requires Valid() && todo != []
      requires spine == kept + todo && current == todo[0]
      modifies this`head, this`spine, this`freed, malloced`next, wire
      ensures Valid()
      ensures wire.log == old(wire.log) + [Attempt(current.sockfd, frame)]
      ensures left == if wire.reply(|old(wire.log)|) >= 0 then kept + [current] else kept
      ensures spine == left + todo[1..]
      ensures freed == old(freed) + if wire.reply(|old(wire.log)|) >= 0 then {} else {current}
      ensures after == if |todo| > 1 then todo[1] else null
    {
      assert spine[|kept|] == current;
      assert current in Elements(spine);
      DropMiddle(kept, todo);
      assert |todo| > 1 ==> spine[|kept| + 1] == todo[1];
      var sent := wire.Write(Sockfd(current), frame);
      if sent < 0 {
        after := Remove(current, |kept|);
        left := kept;
      } else {
        after, left := Next(current), kept + [current];
      }
    }

    /** The loop of a pass, against the list without cells. */
    method WriteToAll(wire: Wire, frame: Frame)
      requires Valid()
      modifies this`head, this`spine, this`freed, malloced`next, wire
      ensures Valid()
      ensures spine == Kept(old(spine), wire.reply, |old(wire.log)|)
      ensures wire.log == old(wire.log) + Attempts(old(spine), frame)
      ensures freed == old(freed) + (Elements(old(spine)) - Elements(spine))
    {
      ghost var was, visited, kept, todo := spine, [], [], spine;
      var current := head;
      while current != null
        invariant Valid() && spine == kept + todo
        invariant UnderWay(was, visited, kept, todo, wire.reply, frame, old(wire.log), wire.log)
        invariant current == if todo == [] then null else todo[0]
        decreases |todo|
      {
        UnderWayNext(was, visited, kept, todo, wire.reply, frame, old(wire.log), wire.log);
        visited := visited + [todo[0]];
        current, kept := Visit(wire, frame, current, kept, todo);
        todo := todo[1..];
      }
      assert was == visited && spine == kept;
      KeptIsSubset(was, wire.reply, |old(wire.log)|);
      FreedAreThoseDropped(malloced, was, old(freed), spine, freed);
    }

    /**
     One pass of a record thread over the list under the lock. It ends, writes
     the frame once to every client present at entry in list order, and keeps
     exactly the clients whose write returned zero or more, in order; the others
     are freed once.
     */
    method Broadcast(wire: Wire, frame: Frame)
      requires Valid()
      modifies this`head, this`spine, this`freed, malloced`next, wire
      ensures Valid()
      ensures spine == Kept(old(spine), wire.reply, |old(wire.log)|)
      ensures wire.log == old(wire.log) + Attempts(old(spine), frame)
      ensures freed == old(freed) + (Elements(old(spine)) - Elements(spine))
      ensures KeepsThoseWritten(old(spine), spine, wire.reply, |old(wire.log)|)
      ensures WritesToEach(old(spine), frame, old(wire.log), wire.log)
    {
      AllDistinct(spine);
      PassInPlainTerms(spine, wire.reply, wire.log, frame);
      WriteToAll(wire, frame);
    }

    /** The first visits of a pass, as far as it has come when another thread acts. */
    method BeginPass(wire: Wire, frame: Frame, visits: nat)
      requires Valid()
      modifies this`head, this`spine, this`freed, malloced`next, wire
      ensures Valid()
      ensures visits == 0 ==> spine == old(spine) && wire.log == old(wire.log)
    {
      ghost var kept, todo := [], spine;
      var current, count := head, 0;
      while current != null && count < visits
        invariant Valid() && spine == kept + todo && count <= visits
        invariant current == if todo == [] then null else todo[0]
        invariant count == 0 ==> spine == old(spine) && wire.log == old(wire.log)
        decreases |todo|
      {
        current, kept := Visit(wire, frame, current, kept, todo);
        todo := todo[1..];
        count := count + 1;
      }
    }

    /**
     Accepts one client. Before its thread is created or has failed to be, other
     threads broadcast the frames of `between` and come `visits` clients far with
     another. All is well exactly if the cell was not allocated or its thread was
     created; otherwise the cell is freed while it is linked, or freed twice.
     */
    method HandleClient(sockfd: int, mallocOk: bool, spawnOk: bool, wire: Wire, between: seq<Frame>,
                        underWay: Frame, visits: nat)
      returns (node: ClientNode?, ghost again: bool)
      requires Valid()
      modifies this, malloced`next, wire
      ensures node == null <==> !mallocOk
      ensures node != null ==> fresh(node) && malloced == old(malloced) + {node}
      ensures node == null ==> malloced == old(malloced)
      ensures mallocOk && between == [] && visits == 0 ==> spine == [node] + old(spine) && node.sockfd == sockfd
      ensures !mallocOk ==> spine == old(spine)
      ensures !mallocOk || (between == [] && visits == 0) ==> wire.log == old(wire.log) && !again
      ensures Valid() && !again <==> !mallocOk || spawnOk
    {
      again := false;
      node := Link(sockfd, mallocOk);
      if !mallocOk {
        return;
      }
      var i := 0;
      while i < |between|
        invariant 0 <= i <= |between| && Valid()
        invariant malloced == old(malloced) + {node}
        invariant i == 0 ==> spine == [node] + old(spine) && wire.log == old(wire.log)
      {
        Broadcast(wire, between[i]);
        i := i + 1;
      }
      BeginPass(wire, underWay, visits);
      if !spawnOk {
        assert between == [] && visits == 0 ==> spine[0] == node;
        again := Abort(node);
      }
    }

    method Happen(wire: Wire, e: Event)
      requires Valid()
      modifies this, malloced`next, wire
      ensures Valid() <==> Fine(e)
      ensures Fine(e) ==>
                Roster(Sockfds(spine), wire.log) == Follow(Roster(Sockfds(old(spine)), old(wire.log)), e, wire.reply)
      ensures fresh(malloced - old(malloced))
    {
      match e {
        case Connect(sockfd, mallocOk, spawnOk) =>
          var node, again := HandleClient(sockfd, mallocOk, spawnOk, wire, [], 0, 0);
        case Captured(frame) =>
          AttemptsBySocket(spine, frame);
          KeptBySocket(spine, wire.reply, |wire.log|);
          Broadcast(wire, frame);
      }
    }

    /**
     Any history of arrivals and passes, up to the first thread that could not
     be created: until then the heap list serves the sockets that the list
     without a heap serves, with the same writes, and every cell ever allocated
     is linked or was freed; from then on the list is broken.
     */
    method Serve(wire: Wire, events: seq<Event>)
      requires Valid() && spine == [] && malloced == {} && wire.log == []
      modifies this, wire
      ensures Valid() <==> AllFine(events)
      ensures AllFine(events) ==> Roster(Sockfds(spine), wire.log) == After(events, wire.reply)
    {
      var i := 0;
      while i < |events|
        invariant 0 <= i <= |events| && AllFine(events[..i])
        invariant Valid() && fresh(malloced)
        invariant Roster(Sockfds(spine), wire.log) == After(events[..i], wire.reply)
      {
        OneMore(events, i, wire.reply);
        Happen(wire, events[i]);
        if !Fine(events[i]) {
          return;
        }
        i := i + 1;
      }
      assert events[..i] == events;
    }
  }
}
