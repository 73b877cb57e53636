/**
 What one broadcast pass should leave behind, said without any list cell:
 client number i of the pass stays exactly when its write did not fail.
 Both the heap model and the thread model are measured against this module.
 */
module Survivors {

  /** The k-th write of the program returns reply(k); negative is an error, as write(2) reports it. */
  predicate Delivered(reply: nat -> int, k: nat) {
    reply(k) >= 0
  }

  /** The clients kept by a pass whose first write is write number `base`. */
  function Kept<T>(nodes: seq<T>, reply: nat -> int, base: nat): (kept: seq<T>)
    ensures |kept| <= |nodes|
  {
    if nodes == [] then []
    else
      var last := |nodes| - 1;
      Kept(nodes[..last], reply, base) + if Delivered(reply, base + last) then [nodes[last]] else []
  }

  /** Positions of the clients whose write did not fail. */
  function KeptIndices(n: nat, reply: nat -> int, base: nat): (idx: seq<nat>)
    ensures forall k :: 0 <= k < |idx| ==> idx[k] < n
  {
    if n == 0 then []
    else KeptIndices(n - 1, reply, base) + if Delivered(reply, base + n - 1) then [n - 1] else []
  }

  /** KeptIndices lists exactly the successful positions, once each and in increasing order. */
  lemma {:induction false} KeptIndicesExact(n: nat, reply: nat -> int, base: nat)
    ensures forall k, l :: 0 <= k < l < |KeptIndices(n, reply, base)| ==>
              KeptIndices(n, reply, base)[k] < KeptIndices(n, reply, base)[l]
    ensures forall i: nat :: i in KeptIndices(n, reply, base) <==> i < n && reply(base + i) >= 0
  {
    if n > 0 {
      KeptIndicesExact(n - 1, reply, base);
    }
  }

  /**
   A pass keeps the successful clients and no others, in their original order:
   the k-th survivor is the client at the k-th successful position.
   */
  lemma {:induction false} KeptIsOrderedFilter<T>(nodes: seq<T>, reply: nat -> int, base: nat)
    ensures |Kept(nodes, reply, base)| == |KeptIndices(|nodes|, reply, base)|
    ensures forall k :: 0 <= k < |Kept(nodes, reply, base)| ==>
              Kept(nodes, reply, base)[k] == nodes[KeptIndices(|nodes|, reply, base)[k]]
  {
    if nodes == [] {
    } else {
      KeptIsOrderedFilter(nodes[..|nodes| - 1], reply, base);
    }
  }

  /** Client number i of a pass, where no client occurs twice, is kept exactly when its write returned zero or more. */
  lemma {:induction false} KeptIfWritten<T>(nodes: seq<T>, reply: nat -> int, base: nat, i: nat)
    requires i < |nodes| && forall j, k :: 0 <= j < k < |nodes| ==> nodes[j] != nodes[k]
    ensures nodes[i] in Kept(nodes, reply, base) <==> reply(base + i) >= 0
  {
    var idx, kept := KeptIndices(|nodes|, reply, base), Kept(nodes, reply, base);
    KeptIndicesExact(|nodes|, reply, base);
    KeptIsOrderedFilter(nodes, reply, base);
    if i in idx {
      var k :| 0 <= k < |idx| && idx[k] == i;
      assert kept[k] == nodes[i];
    }
    if nodes[i] in kept {
      var k :| 0 <= k < |kept| && kept[k] == nodes[i];
      assert idx[k] == i;
    }
  }

  /** One more client visited by a pass, with write number k. */
  lemma KeptOfNext<T>(nodes: seq<T>, x: T, reply: nat -> int, base: nat, k: nat)
    requires k == base + |nodes|
    ensures Kept(nodes + [x], reply, base)
         == if Delivered(reply, k) then Kept(nodes, reply, base) + [x] else Kept(nodes, reply, base)
  {
    assert (nodes + [x])[..|nodes|] == nodes;
  }

  /** A pass invents no client. */
  lemma {:induction false} KeptIsSubset<T>(nodes: seq<T>, reply: nat -> int, base: nat)
    ensures forall n :: n in Kept(nodes, reply, base) ==> n in nodes
  {
    if nodes == [] {
    } else {
      KeptIsSubset(nodes[..|nodes| - 1], reply, base);
    }
  }

  /** A pass over a + b is a pass over a followed by a pass over b. */
  lemma {:induction false} KeptOfConcat<T>(a: seq<T>, b: seq<T>, reply: nat -> int, base: nat)
    ensures Kept(a + b, reply, base) == Kept(a, reply, base) + Kept(b, reply, base + |a|)
  {
    if b == [] {
      assert a + b == a;
    } else {
      var last := |b| - 1;
      assert (a + b)[..|a| + last] == a + b[..last];
      KeptOfConcat(a, b[..last], reply, base);
    }
  }
}
