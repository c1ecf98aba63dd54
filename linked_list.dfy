/**
 * The page's singly linked list (resources/LinkedList.mjs): nodes linked by `next`
 * from `head`, with `tail` on the last node and a private `#length` read through a
 * getter. The public view is the ghost sequence `Contents` of the values in order; the
 * nodes in order are the ghost sequence `Nodes`.
 */
module LinkedLists {
  import opened Wrappers

  /** `s` without its element at `index`. */
  function Skip<X>(s: seq<X>, index: nat): (r: seq<X>)
    requires index < |s|
    ensures |r| == |s| - 1 && forall j :: 0 <= j < |r| ==> r[j] == if j < index then s[j] else s[j + 1]
  {
    s[..index] + s[index + 1..]
  }

  /** Each node links to the next one, and the last to nothing. */
  ghost predicate Linked<T>(nodes: seq<Node<T>>)
    reads nodes
  {
    forall i :: 0 <= i < |nodes| ==> nodes[i].next == if i + 1 < |nodes| then nodes[i + 1] else null
  }

  /** A list node: its value, set once, and its link to the next node. */
  class Node<T> {
    const value: T
    var next: Node?<T>

    constructor (value: T)
      ensures this.value == value && next == null
    {
      this.value := value;
      next := null;
    }
  }

  /** The calls `forEach` makes: every value with its index, in order. */
  function Visits<T>(s: seq<T>): (calls: seq<(T, nat)>)
    ensures |calls| == |s| && forall i :: 0 <= i < |s| ==> calls[i] == (s[i], i)
  {
    seq(|s|, i requires 0 <= i < |s| => (s[i], i))
  }

  /** The index `find` stops at: the first from `i` on whose call answers true. */
  function MatchFrom<T>(s: seq<T>, callback: (T, nat) -> bool, i: nat): (k: Option<nat>)
    ensures k.Some? ==>
      i <= k.value < |s| && callback(s[k.value], k.value) && forall j :: i <= j < k.value ==> !callback(s[j], j)
    ensures k.None? ==> forall j :: i <= j < |s| ==> !callback(s[j], j)
    decreases |s| - i
  {
    if i >= |s| then None
    else if callback(s[i], i) then Some(i)
    else MatchFrom(s, callback, i + 1)
  }

  /**
   * The indices below `n` whose call answers true, in increasing order: every one of
   * them matches and every matching index below `n` is one of them.
   */
  function Kept<T>(s: seq<T>, callback: (T, nat) -> bool, n: nat): (idx: seq<nat>)
    requires n <= |s|
    ensures forall k :: 0 <= k < |idx| ==> idx[k] < n && callback(s[idx[k]], idx[k])
    ensures forall k, l :: 0 <= k < l < |idx| ==> idx[k] < idx[l]
    ensures forall i :: 0 <= i < n && callback(s[i], i) ==> i in idx
  {
    if n == 0 then []
    else Kept(s, callback, n - 1) + (if callback(s[n - 1], n - 1) then [n - 1] else [])
  }

  /** The values of `s` at the indices `idx`, in that order. */
  function Pick<T>(s: seq<T>, idx: seq<nat>): (r: seq<T>)
    requires forall k :: 0 <= k < |idx| ==> idx[k] < |s|
  {
    seq(|idx|, k requires 0 <= k < |idx| => s[idx[k]])
  }

  /** Appending one index appends its value. */
  lemma PickAppend<T>(s: seq<T>, idx: seq<nat>, i: nat)
    requires (forall k :: 0 <= k < |idx| ==> idx[k] < |s|) && i < |s|
    ensures Pick(s, idx + [i]) == Pick(s, idx) + [s[i]]
  {
    assert forall k :: 0 <= k < |idx| ==> (idx + [i])[k] == idx[k];
  }

  /** The values `filter` keeps from the first `n`: those whose call answers true, in order. */
  function MatchingBelow<T>(s: seq<T>, callback: (T, nat) -> bool, n: nat): seq<T>
    requires n <= |s|
  {
    if n == 0 then []
    else MatchingBelow(s, callback, n - 1) + (if callback(s[n - 1], n - 1) then [s[n - 1]] else [])
  }

  /** The values `filter` keeps. */
  function Matching<T>(s: seq<T>, callback: (T, nat) -> bool): seq<T> {
    MatchingBelow(s, callback, |s|)
  }

  /**
   * `filter` keeps exactly the values at the kept indices: the matching ones, each
   * once, in their order.
   */
  lemma {:induction false} MatchingPicksKept<T>(s: seq<T>, callback: (T, nat) -> bool, n: nat)
    requires n <= |s|
    ensures MatchingBelow(s, callback, n) == Pick(s, Kept(s, callback, n))
  {
    if n > 0 {
      MatchingPicksKept(s, callback, n - 1);
      if callback(s[n - 1], n - 1) {
        PickAppend(s, Kept(s, callback, n - 1), n - 1);
      }
    }
  }

  /** A callback that answers true everywhere keeps every index. */
  lemma {:induction false} KeptAll<T>(s: seq<T>, callback: (T, nat) -> bool, n: nat)
    requires n <= |s| && forall i :: 0 <= i < |s| ==> callback(s[i], i)
    ensures Kept(s, callback, n) == seq(n, i => i)
  {
    if n > 0 {
      KeptAll(s, callback, n - 1);
      assert seq(n, i => i) == seq(n - 1, i => i) + [n - 1];
    }
  }

  /** A callback that answers false everywhere keeps nothing. */
  lemma {:induction false} KeptNone<T>(s: seq<T>, callback: (T, nat) -> bool, n: nat)
    requires n <= |s| && forall i :: 0 <= i < |s| ==> !callback(s[i], i)
    ensures Kept(s, callback, n) == []
  {
    if n > 0 {
      KeptNone(s, callback, n - 1);
    }
  }

  /** So `filter` with an always-true callback copies the list. */
  lemma MatchingAll<T>(s: seq<T>, callback: (T, nat) -> bool)
    requires forall i :: 0 <= i < |s| ==> callback(s[i], i)
    ensures Matching(s, callback) == s
  {
    MatchingPicksKept(s, callback, |s|);
    KeptAll(s, callback, |s|);
  }

  /** The list itself. */
  class LinkedList<T> {
    var head: Node?<T>
    var tail: Node?<T>
    /** `#length`, read through the `length` getter. */
    var length: nat

    ghost var Contents: seq<T>
    ghost var Nodes: seq<Node<T>>
    ghost var Repr: set<object>

    /**
     * The nodes are distinct, hold the values in order and are linked in order; `head`
     * is the first node, `tail` the last, and `#length` counts them.
     */
    ghost predicate Valid()
      reads this, Repr
    {
      Chained() && tail == (if Nodes == [] then null else Nodes[|Nodes| - 1])
    }

    /** Everything `Valid` asks except where `tail` is. */
    ghost predicate Chained()
      reads this, Repr
    {
      this in Repr && (forall i :: 0 <= i < |Nodes| ==> Nodes[i] in Repr) &&
      |Nodes| == |Contents| == length &&
      (forall i, j :: 0 <= i < j < |Nodes| ==> Nodes[i] != Nodes[j]) &&
      (forall i :: 0 <= i < |Nodes| ==> Nodes[i].value == Contents[i]) &&
      Linked(Nodes) && head == (if Nodes == [] then null else Nodes[0])
    }

    constructor ()
      ensures Valid() && fresh(Repr) && Contents == []
    {
      head, tail, length := null, null, 0;
      Contents, Nodes, Repr := [], [], {this};
    }

    /** The `length` getter. */
    function Length(): (n: nat)
      requires Valid()
      reads this, Repr
      ensures n == |Contents|
    {
      length
    }

    /** Each node links to the next one, the last to nothing. */
    lemma NextOf(i: nat)
      requires Valid() && i < |Nodes|
      ensures Nodes[i].next == if i + 1 < |Nodes| then Nodes[i + 1] else null
    {
    }

    /**
     * Without the node at `index`, the nodes are still distinct and each one but the
     * node before `index` still links to its successor.
     */
    lemma SkipLinks(index: nat) returns (nodes: seq<Node<T>>)
      requires Valid() && index < |Nodes|
      ensures nodes == Skip(Nodes, index)
      ensures forall j, k :: 0 <= j < k < |nodes| ==> nodes[j] != nodes[k]
      ensures forall j :: 0 <= j < |nodes| && j + 1 != index ==>
        (index > 0 ==> nodes[j] != Nodes[index - 1]) &&
        nodes[j].next == if j + 1 < |nodes| then nodes[j + 1] else null
      ensures index == 0 ==> Linked(nodes)
    {
      nodes := Skip(Nodes, index);
      forall j | 0 <= j < |nodes| && j + 1 != index
        ensures (index > 0 ==> nodes[j] != Nodes[index - 1])
        ensures nodes[j].next == if j + 1 < |nodes| then nodes[j + 1] else null
      {
        if j < index {
          NextOf(j);
        } else {
          NextOf(j + 1);
        }
      }
    }

    /** `add(value)`: link a new node after the tail; the value is now the last one. */
    method Add(value: T)
      requires Valid()
      modifies Repr
      ensures Valid() && fresh(Repr - old(Repr))
      ensures Contents == old(Contents) + [value]
    {
      var node := new Node(value);
      if head == null {
        head := node;
      }
      if tail != null {
        tail.next := node;
      }
      tail := node;
      length := length + 1;
      Contents, Nodes, Repr := Contents + [value], Nodes + [node], Repr + {node};
    }

    /** The walk from the head that `get` and `remove` make: `steps` links along. */
    method Walk(steps: nat) returns (pointer: Node<T>)
      requires Valid() && steps < |Nodes|
      ensures pointer == Nodes[steps]
    {
      pointer := head;
      var i := 0;
      while i < steps
        invariant 0 <= i <= steps && pointer == Nodes[i]
      {
        NextOf(i);
        pointer := pointer.next;
        i := i + 1;
      }
    }

    /** `get(index)`: walk `index` links from the head; out of range throws. */
    method Get(index: int) returns (r: Result<T>)
      requires Valid()
      ensures 0 <= index < |Contents| ==> r == Ok(Contents[index])
      ensures !(0 <= index < |Contents|) ==> r == Throws("OutOfBoundsException")
    {
      if index >= length || index < 0 {
        return Throws("OutOfBoundsException");
      }
      var pointer := Walk(index);
      r := Ok(pointer.value);
    }

    /**
     * `remove(index)` as written: in range, its first statement assigns to `length`,
     * which has a getter only; module code is strict, so the assignment throws a
     * TypeError before any node is unlinked. Every call fails and nothing changes.
     */
    method RemoveAsWritten(index: int) returns (r: Result<()>)
      requires Valid()
      ensures !(0 <= index < |Contents|) ==> r == Throws("OutOfBoundsException")
      ensures 0 <= index < |Contents| ==>
        r == Throws("TypeError: Cannot set property length of #<LinkedList> which has only a getter")
    {
      if index >= length || index < 0 {
        return Throws("OutOfBoundsException");
      }
      return Throws("TypeError: Cannot set property length of #<LinkedList> which has only a getter");
    }

    /**
     * The unlinking in `remove`, with `#length` decremented: the head moves on, or the
     * node before `index` links past it. `tail` is not touched; `previous` is the node
     * before `index`, if any.
     */
    method Bypass(index: nat) returns (previous: Node?<T>)
      requires Valid() && index < |Nodes|
      modifies this, if index > 0 then {Nodes[index - 1]} else {}
      ensures Chained() && Repr == old(Repr) && tail == old(tail)
      ensures Contents == Skip(old(Contents), index) && Nodes == Skip(old(Nodes), index)
      ensures previous == if index == 0 then null else old(Nodes[index - 1])
    {
      if index == 0 {
        BypassHead();
        previous := null;
      } else {
        previous := Walk(index - 1);
        BypassAfter(previous, index);
      }
    }

    /** The `index == 0` branch of `remove`: the head moves on to the second node. */
    method BypassHead()
      requires Valid() && Nodes != []
      modifies this
      ensures Chained() && Repr == old(Repr) && tail == old(tail)
      ensures Contents == Skip(old(Contents), 0) && Nodes == Skip(old(Nodes), 0)
    {
      NextOf(0);
      ghost var nodes := SkipLinks(0);
      head := head.next;
      length := length - 1;
      Contents, Nodes := Skip(Contents, 0), nodes;
    }

    /** The other branch: the node before `index` links past the node at `index`. */
    method BypassAfter(previous: Node<T>, index: nat)
      requires Valid() && 0 < index < |Nodes| && previous == Nodes[index - 1]
      modifies this, previous
      ensures Chained() && Repr == old(Repr) && tail == old(tail)
      ensures Contents == Skip(old(Contents), index) && Nodes == Skip(old(Nodes), index)
    {
      NextOf(index - 1);
      NextOf(index);
      ghost var nodes := SkipLinks(index);
      length := length - 1;
      Contents, Nodes := Skip(Contents, index), nodes;
      label Before:
      previous.next := previous.next.next;
      forall j | 0 <= j < |nodes|
        ensures nodes[j].next == if j + 1 < |nodes| then nodes[j + 1] else null
      {
        if j + 1 == index {
          assert nodes[j] == previous;
        } else {
          assert nodes[j].next == old@Before(nodes[j].next);
        }
      }
      assert Linked(nodes);
    }

    /**
     * The `remove` the code amounts to once the `length` assignment is repaired: it
     * never moves `tail`. Removing the last node leaves `tail` on a node the list no
     * longer holds, so the next `add` links its node after a node the list does not
     * reach.
     */
    method UnlinkKeepingTail(index: int) returns (r: Result<()>)
      requires Valid()
      modifies Repr
      ensures !(0 <= index < |old(Contents)|) ==> r == Throws("OutOfBoundsException") && unchanged(this)
      ensures 0 <= index < |old(Contents)| ==>
        r.Ok? && Contents == old(Contents)[..index] + old(Contents)[index + 1..] && tail == old(tail)
      ensures index == |old(Contents)| - 1 && index >= 0 ==> tail != null && tail !in Nodes
    {
      if index >= length || index < 0 {
        return Throws("OutOfBoundsException");
      }
      var _ := Bypass(index);
      r := Ok(());
    }

    /**
     * `remove(index)` as intended: out of range throws and changes nothing; otherwise
     * the value at `index` is gone, the others keep their order, and `tail` is moved to
     * the node before it when it was the last.
     */
    method Remove(index: int) returns (r: Result<()>)
      requires Valid()
      modifies Repr
      ensures Valid() && Repr == old(Repr)
      ensures !(0 <= index < |old(Contents)|) ==> r == Throws("OutOfBoundsException") && Contents == old(Contents)
      ensures 0 <= index < |old(Contents)| ==> r.Ok? && Contents == old(Contents)[..index] + old(Contents)[index + 1..]
    {
      if index >= length || index < 0 {
        return Throws("OutOfBoundsException");
      }
      var previous := Bypass(index);
      if index == length {
        tail := previous;
      } else {
        assert tail == Nodes[|Nodes| - 1];
      }
      r := Ok(());
    }

    /** `forEach(callback)`: the calls it makes, each value with its index, in order. */
    method ForEach() returns (calls: seq<(T, nat)>)
      requires Valid()
      ensures calls == Visits(Contents)
    {
      calls := [];
      var pointer := head;
      var i := 0;
      while i < length
        invariant 0 <= i <= length && calls == Visits(Contents[..i])
        invariant pointer == if i < length then Nodes[i] else null
      {
        calls := calls + [(pointer.value, i)];
        NextOf(i);
        pointer := pointer.next;
        i := i + 1;
      }
      assert Contents[..length] == Contents;
    }

    /** `find(callback)`: the first value whose call answers true, or undefined. */
    method Find(callback: (T, nat) -> bool) returns (r: Option<T>)
      requires Valid()
      ensures var k := MatchFrom(Contents, callback, 0);
        r == if k.Some? then Some(Contents[k.value]) else None
    {
      var pointer := head;
      r := None;
      var i := 0;
      while i < length
        invariant 0 <= i <= length && MatchFrom(Contents, callback, 0) == MatchFrom(Contents, callback, i)
        invariant pointer == if i < length then Nodes[i] else null
      {
        if callback(pointer.value, i) {
          r := Some(pointer.value);
          break;
        }
        NextOf(i);
        pointer := pointer.next;
        i := i + 1;
      }
    }

    /**
     * `filter(callback)`: a new list of the values whose call answers true, in their
     * order; the receiver is left as it is.
     */
    method Filter(callback: (T, nat) -> bool) returns (response: LinkedList<T>)
      requires Valid()
      ensures response.Valid() && fresh(response.Repr)
      ensures response.Contents == Matching(Contents, callback)
    {
      var pointer := head;
      response := new LinkedList();
      ghost var s, nodes := Contents, Nodes;
      var i := 0;
      while i < length
        invariant 0 <= i <= |s| == length && s == Contents && nodes == Nodes && this !in response.Repr
        invariant pointer == if i < |s| then nodes[i] else null
        invariant response.Valid() && fresh(response.Repr) && Repr !! response.Repr
        invariant response.Contents == MatchingBelow(s, callback, i)
      {
        NextOf(i);
        var v := pointer.value;
        if callback(v, i) {
          response.Add(v);
        }
        pointer := pointer.next;
        i := i + 1;
      }
    }
  }
}
