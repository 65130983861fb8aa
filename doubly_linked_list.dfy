/**
 * The doubly linked list of C strings from the intro challenges: nodes own a
 * char buffer and point to their neighbours; a list knows its head and tail.
 * The ghost sequence `nodes` is the list read from head to tail, and every
 * operation is specified by what it does to that sequence.
 */
module DoublyLinkedList {

  // ---------------------------------------------------------------------------
  // C strings

  /**
   * strlen: the characters before the first NUL. A buffer with no NUL is
   * taken to end where the sequence ends.
   */
  function CStrLen(s: seq<char>): (n: nat)
    ensures n <= |s| && (n < |s| ==> s[n] == '\0')
    ensures forall i :: 0 <= i < n ==> s[i] != '\0'
    decreases |s|
  {
    if s == [] || s[0] == '\0' then 0 else 1 + CStrLen(s[1..])
  }

  /** The string a char buffer holds: its characters up to the first NUL. */
  function CString(s: seq<char>): (t: seq<char>)
    ensures |t| <= |s| && t == s[..|t|] && '\0' !in t
  {
    s[..CStrLen(s)]
  }

  /**
   * strncpy into a buffer of size chars: the string and then NULs when it is
   * shorter than size; otherwise its first size characters and no NUL.
   */
  function StrNCopy(input: seq<char>, size: nat): (r: seq<char>)
    ensures |r| == size
    ensures CStrLen(input) < size ==> CString(r) == CString(input) && r[|CString(input)|..] == seq(size - |CString(input)|, _ => '\0')
    ensures CStrLen(input) >= size ==> r == input[..size]
  {
    var n := CStrLen(input);
    var r := seq(size, i requires 0 <= i < size => if i < n then input[i] else '\0');
    if n < size then
      CStrLenAt(r, n);
      r
    else
      r
  }

  /** A buffer whose first NUL is at n has length n as a C string. */
  lemma CStrLenAt(s: seq<char>, n: nat)
    requires n < |s| && s[n] == '\0' && forall i :: 0 <= i < n ==> s[i] != '\0'
    ensures CStrLen(s) == n
  {
  }

  /** strcmp(a, b) == 0: the two buffers hold the same string. */
  predicate SameString(a: seq<char>, b: seq<char>)
  {
    CString(a) == CString(b)
  }

  /**
   * A buffer copied from input with room for its terminator holds the same
   * string as input, so strcmp finds it equal; one too small holds only a
   * prefix, which strcmp tells apart from a longer input.
   */
  lemma CopyHoldsString(input: seq<char>, size: nat)
    ensures SameString(StrNCopy(input, size), input) <==> CStrLen(input) <= size
  {
    var r := StrNCopy(input, size);
    var n := CStrLen(input);
    if n > size {
      assert r == input[..size];
      assert CString(r) == r by {
        CStrLenAll(r);
      }
      assert |CString(input)| == n;
    } else if n == size {
      assert r == input[..size];
      CStrLenAll(r);
    }
  }

  /** A buffer with no NUL is a C string of its full length. */
  lemma {:induction false} CStrLenAll(s: seq<char>)
    requires '\0' !in s
    ensures CStrLen(s) == |s|
    decreases |s|
  {
    if s != [] {
      assert '\0' !in s[1..];
      CStrLenAll(s[1..]);
    }
  }

  // ---------------------------------------------------------------------------
  // Nodes and lists

  class Node {
    var prev: Node?
    var next: Node?
    /** The node's char buffer, of datac characters. */
    const data: seq<char>
    const datac: nat

    /** create_node: a fresh node with a copy of size characters of input and no neighbours. */
    constructor(input: seq<char>, size: nat)
      ensures data == StrNCopy(input, size) && datac == size && |data| == datac
      ensures prev == null && next == null
    {
      data := StrNCopy(input, size);
      datac := size;
      prev := null;
      next := null;
    }
  }

  /** No node appears twice. */
  ghost predicate Distinct(ns: seq<Node>)
  {
    forall i, j :: 0 <= i < j < |ns| ==> ns[i] != ns[j]
  }

  /**
   * The links of ns read as a list: each node's prev is the node before it
   * (null for the first) and its next the node after it (null for the last).
   */
  ghost predicate Chain(ns: seq<Node>)
    reads ns
  {
    forall k {:trigger Before(ns, k)} {:trigger After(ns, k)} :: 0 <= k < |ns| ==> ns[k].prev == Before(ns, k) && ns[k].next == After(ns, k)
  }

  /** The node before position k, or null at the head. */
  function Before(ns: seq<Node>, k: nat): Node?
    requires k < |ns|
  {
    if k == 0 then null else ns[k - 1]
  }

  /** The node after position k, or null at the tail. */
  function After(ns: seq<Node>, k: nat): Node?
    requires k < |ns|
  {
    if k == |ns| - 1 then null else ns[k + 1]
  }

  /**
   * Linking n in at position k of the chain before, with only the links of
   * its two new neighbours pointing to it instead, gives the chain with n
   * inserted.
   */
  lemma ChainInsert(before: seq<Node>, k: nat, n: Node)
    requires k <= |before|
    requires forall j :: 0 <= j < |before| ==>
      before[j].prev == (if j == k then n else Before(before, j)) &&
      before[j].next == (if j == k - 1 then n else After(before, j))
    requires n.prev == (if k == 0 then null else before[k - 1])
    requires n.next == (if k == |before| then null else before[k])
    ensures Chain(before[..k] + [n] + before[k..])
  {
    var ns := before[..k] + [n] + before[k..];
    forall m | 0 <= m < |ns|
      ensures ns[m].prev == Before(ns, m) && ns[m].next == After(ns, m)
    {
      if m < k {
        assert ns[m] == before[m] && ns[m + 1] == if m + 1 == k then n else before[m + 1];
        assert m > 0 ==> ns[m - 1] == before[m - 1];
      } else if m > k {
        assert ns[m] == before[m - 1] && ns[m - 1] == if m - 1 == k then n else before[m - 2];
        assert m < |ns| - 1 ==> ns[m + 1] == before[m];
      } else {
        assert m > 0 ==> ns[m - 1] == before[m - 1];
        assert m < |ns| - 1 ==> ns[m + 1] == before[m];
      }
    }
  }

  /**
   * Joining the neighbours of the node at position k of the chain before to
   * each other, with no other link changed, gives the chain without it.
   */
  lemma ChainRemove(before: seq<Node>, k: nat)
    requires k < |before|
    requires forall j :: 0 <= j < |before| && j != k ==>
      before[j].prev == (if j == k + 1 then Before(before, k) else Before(before, j)) &&
      before[j].next == (if j == k - 1 then After(before, k) else After(before, j))
    ensures Chain(before[..k] + before[k + 1..])
  {
    var ns := before[..k] + before[k + 1..];
    forall m | 0 <= m < |ns|
      ensures ns[m].prev == Before(ns, m) && ns[m].next == After(ns, m)
    {
      if m < k {
        assert ns[m] == before[m] && (m > 0 ==> ns[m - 1] == before[m - 1]);
        assert m < |ns| - 1 ==> ns[m + 1] == if m + 1 == k then before[m + 2] else before[m + 1];
      } else {
        assert ns[m] == before[m + 1] && (m < |ns| - 1 ==> ns[m + 1] == before[m + 2]);
        assert m > 0 ==> ns[m - 1] == if m == k then before[m - 1] else before[m];
      }
    }
  }

  /** ChainInsert at the position after i, stated in terms of i. */
  lemma ChainInsertAfter(before: seq<Node>, i: nat, n: Node)
    requires i < |before|
    requires forall j :: 0 <= j < |before| ==>
      before[j].prev == (if j == i + 1 then n else Before(before, j)) &&
      before[j].next == (if j == i then n else After(before, j))
    requires n.prev == before[i] && n.next == After(before, i)
    ensures Chain(before[..i + 1] + [n] + before[i + 1..])
  {
    ChainInsert(before, i + 1, n);
  }

  /** Inserting a node not in a list of distinct nodes keeps them distinct, and puts it first or last at the ends. */
  lemma DistinctInsert(before: seq<Node>, k: nat, n: Node)
    requires Distinct(before) && n !in before && k <= |before|
    ensures var ns := before[..k] + [n] + before[k..];
      Distinct(ns) && |ns| == |before| + 1 &&
      ns[0] == (if k == 0 then n else before[0]) &&
      ns[|ns| - 1] == (if k == |before| then n else before[|before| - 1])
  {
    var ns := before[..k] + [n] + before[k..];
    forall a, b | 0 <= a < b < |ns|
      ensures ns[a] != ns[b]
    {
      assert ns[a] == if a < k then before[a] else if a == k then n else before[a - 1];
      assert ns[b] == if b < k then before[b] else if b == k then n else before[b - 1];
    }
  }

  /** Dropping the node at position k keeps the rest distinct, and its neighbours become the ends when it was one. */
  lemma DistinctRemove(before: seq<Node>, k: nat)
    requires Distinct(before) && k < |before|
    ensures var ns := before[..k] + before[k + 1..];
      Distinct(ns) && |ns| == |before| - 1 && before[k] !in ns &&
      (ns != [] ==> ns[0] == (if k == 0 then before[1] else before[0])) &&
      (ns != [] ==> ns[|ns| - 1] == (if k == |before| - 1 then before[k - 1] else before[|before| - 1]))
  {
    var ns := before[..k] + before[k + 1..];
    forall a | 0 <= a < |ns|
      ensures ns[a] == if a < k then before[a] else before[a + 1]
    {
    }
  }

  /** In a list of distinct nodes a node's position is where it is. */
  lemma IndexOfDistinct(ns: seq<Node>, k: nat)
    requires Distinct(ns) && k < |ns|
    ensures IndexOf(ns, ns[k]) == k
  {
  }

  /**
   * Removing a node that was just inserted, wherever it went, gives back the
   * list it was inserted into.
   */
  lemma InsertThenRemove(before: seq<Node>, k: nat, n: Node)
    requires Distinct(before) && n !in before && k <= |before|
    ensures var ns := before[..k] + [n] + before[k..];
      IndexOf(ns, n) == k && ns[..k] + ns[k + 1..] == before
  {
    var ns := before[..k] + [n] + before[k..];
    DistinctInsert(before, k, n);
    IndexOfDistinct(ns, k);
    assert ns[..k] == before[..k] && ns[k + 1..] == before[k..];
  }

  /** The position of a node in a list. */
  ghost function IndexOf(ns: seq<Node>, n: Node): (i: nat)
    requires n in ns
    ensures i < |ns| && ns[i] == n
    decreases |ns|
  {
    if ns[0] == n then 0 else 1 + IndexOf(ns[1..], n)
  }

  /** The position of the first node from the head whose string is key, or |ns| when there is none. */
  function FirstMatch(ns: seq<Node>, key: seq<char>): (i: nat)
    ensures i <= |ns|
    ensures i < |ns| ==> SameString(ns[i].data, key)
    ensures forall j :: 0 <= j < i ==> !SameString(ns[j].data, key)
    decreases |ns|
  {
    if ns == [] then 0
    else if SameString(ns[0].data, key) then 0
    else 1 + FirstMatch(ns[1..], key)
  }

  /**
   * The pointer writes of insert_after on the chain before: newNode is linked
   * in after node, at position i, and the old successor, if any, points back to it. The
   * old successor is returned, null when node was the last one.
   */
  method LinkAfter(ghost before: seq<Node>, ghost i: nat, node: Node, newNode: Node) returns (afterBoth: Node?)
    requires Distinct(before) && Chain(before) && i < |before| && before[i] == node && newNode !in before
    modifies before, newNode
    ensures afterBoth == After(before, i)
    ensures Chain(before[..i + 1] + [newNode] + before[i + 1..])
  {
    afterBoth := node.next;
    assert afterBoth == After(before, i);
    newNode.next := afterBoth;
    newNode.prev := node;
    node.next := newNode;
    if afterBoth != null {
      afterBoth.prev := newNode;
    }
    forall j | 0 <= j < |before|
      ensures before[j].prev == (if j == i + 1 then newNode else Before(before, j))
      ensures before[j].next == (if j == i then newNode else After(before, j))
    {
      assert old(before[j].prev) == Before(before, j) && old(before[j].next) == After(before, j);
      assert before[j] != newNode;
      assert j != i ==> before[j] != node;
      assert j != i + 1 ==> before[j] != afterBoth;
    }
    ChainInsertAfter(before, i, newNode);
  }

  /**
   * The pointer writes of insert_before on the chain before: newNode is
   * linked in before node, at position i, and the old predecessor, if any, points on to
   * it. The old predecessor is returned, null when node was the first one.
   */
  method LinkBefore(ghost before: seq<Node>, ghost i: nat, node: Node, newNode: Node) returns (beforeBoth: Node?)
    requires Distinct(before) && Chain(before) && i < |before| && before[i] == node && newNode !in before
    modifies before, newNode
    ensures beforeBoth == Before(before, i)
    ensures Chain(before[..i] + [newNode] + before[i..])
  {
    beforeBoth := node.prev;
    assert beforeBoth == Before(before, i);
    newNode.next := node;
    newNode.prev := beforeBoth;
    node.prev := newNode;
    if beforeBoth != null {
      beforeBoth.next := newNode;
    }
    forall j | 0 <= j < |before|
      ensures before[j].prev == (if j == i then newNode else Before(before, j))
      ensures before[j].next == (if j + 1 == i then newNode else After(before, j))
    {
      assert old(before[j].prev) == Before(before, j) && old(before[j].next) == After(before, j);
      assert before[j] != newNode;
      assert j != i ==> before[j] != node;
      assert j + 1 != i ==> before[j] != beforeBoth;
    }
    ChainInsert(before, i, newNode);
  }

  class List {
    var head: Node?
    var tail: Node?
    /** The nodes from head to tail. */
    ghost var nodes: seq<Node>

    ghost predicate Valid()
      reads this, nodes
    {
      Distinct(nodes) && Chain(nodes) &&
      head == (if nodes == [] then null else nodes[0]) &&
      tail == (if nodes == [] then null else nodes[|nodes| - 1])
    }

    /**
     * create_list: first is head and tail. An unlinked node (or none) makes a
     * well-formed list of that one node (or of none).
     */
    constructor(first: Node?)
      ensures head == first && tail == first
      ensures first == null ==> Valid() && nodes == []
      ensures first != null && first.prev == null && first.next == null ==> Valid() && nodes == [first]
    {
      head := first;
      tail := first;
      nodes := if first == null then [] else [first];
    }

    /**
     * insert_after: newNode goes directly after node; it becomes the tail
     * exactly when node was the tail.
     */
    method InsertAfter(node: Node, newNode: Node)
      requires Valid() && node in nodes && newNode !in nodes
      modifies this, nodes, newNode
      ensures Valid()
      ensures var i := IndexOf(old(nodes), node);
        nodes == old(nodes)[..i + 1] + [newNode] + old(nodes)[i + 1..]
      ensures head == old(head) && (tail == newNode <==> old(tail) == node)
    {
      ghost var before := nodes;
      ghost var i := IndexOf(nodes, node);
      DistinctInsert(before, i + 1, newNode);
      var afterBoth := LinkAfter(before, i, node, newNode);
      if afterBoth == null {
        tail := newNode;
      }
      nodes := before[..i + 1] + [newNode] + before[i + 1..];
    }

    /**
     * insert_before: newNode goes directly before node; it becomes the head
     * exactly when node was the head.
     */
    method InsertBefore(node: Node, newNode: Node)
      requires Valid() && node in nodes && newNode !in nodes
      modifies this, nodes, newNode
      ensures Valid()
      ensures var i := IndexOf(old(nodes), node);
        nodes == old(nodes)[..i] + [newNode] + old(nodes)[i..]
      ensures tail == old(tail) && (head == newNode <==> old(head) == node)
    {
      ghost var before := nodes;
      ghost var i := IndexOf(nodes, node);
      DistinctInsert(before, i, newNode);
      var beforeBoth := LinkBefore(before, i, node, newNode);
      if beforeBoth == null {
        head := newNode;
      }
      nodes := before[..i] + [newNode] + before[i..];
    }

    /** insert_head: insert_before the head, which must exist. */
    method InsertHead(node: Node)
      requires Valid() && nodes != [] && node !in nodes
      modifies this, nodes, node
      ensures Valid() && nodes == [node] + old(nodes) && head == node && tail == old(tail)
    {
      InsertBefore(head, node);
    }

    /** insert_tail: insert_after the tail, which must exist. */
    method InsertTail(node: Node)
      requires Valid() && nodes != [] && node !in nodes
      modifies this, nodes, node
      ensures Valid() && nodes == old(nodes) + [node] && tail == node && head == old(head)
    {
      InsertAfter(tail, node);
    }

    /** insert_str_head: a new node from size characters of input, put at the head. */
    method InsertStrHead(input: seq<char>, size: nat) returns (node: Node)
      requires Valid() && nodes != []
      modifies this, nodes
      ensures fresh(node) && node.data == StrNCopy(input, size) && node.datac == size
      ensures Valid() && nodes == [node] + old(nodes) && head == node
    {
      node := new Node(input, size);
      InsertHead(node);
    }

    /** insert_str_tail: a new node from size characters of input, put at the tail. */
    method InsertStrTail(input: seq<char>, size: nat) returns (node: Node)
      requires Valid() && nodes != []
      modifies this, nodes
      ensures fresh(node) && node.data == StrNCopy(input, size) && node.datac == size
      ensures Valid() && nodes == old(nodes) + [node] && tail == node
    {
      node := new Node(input, size);
      InsertTail(node);
    }

    /** find: walk from the head to the first node whose string is key; null when none is. */
    method Find(key: seq<char>) returns (found: Node?)
      requires Valid()
      ensures var i := FirstMatch(nodes, key);
        found == if i < |nodes| then nodes[i] else null
    {
      var curr := head;
      ghost var k := 0;
      while curr != null
        invariant 0 <= k <= |nodes| && curr == (if k < |nodes| then nodes[k] else null)
        invariant FirstMatch(nodes, key) == k + FirstMatch(nodes[k..], key)
        decreases |nodes| - k
      {
        if SameString(curr.data, key) {
          return curr;
        }
        assert nodes[k..][1..] == nodes[k + 1..];
        assert curr.next == After(nodes, k);
        curr := curr.next;
        k := k + 1;
      }
      return null;
    }

    /**
     * remove_node_from_list: its neighbours are joined, head and tail move
     * past it when it was either, and its own links are cleared.
     */
    method RemoveNodeFromList(node: Node) returns (removed: Node)
      requires Valid() && node in nodes
      modifies this, nodes
      ensures Valid()
      ensures var i := IndexOf(old(nodes), node);
        nodes == old(nodes)[..i] + old(nodes)[i + 1..]
      ensures removed == node && node.prev == null && node.next == null
    {
      ghost var before := nodes;
      ghost var i := IndexOf(nodes, node);
      DistinctRemove(before, i);
      assert node.prev == Before(before, i) && node.next == After(before, i);
      if node == head {
        head := node.next;
      } else {
        node.prev.next := node.next;
      }
      if node == tail {
        tail := node.prev;
      } else {
        node.next.prev := node.prev;
      }
      assert Chain(before[..i] + before[i + 1..]) by {
        forall j | 0 <= j < |before| && j != i
          ensures before[j].prev == (if j == i + 1 then Before(before, i) else Before(before, j))
          ensures before[j].next == (if j + 1 == i then After(before, i) else After(before, j))
        {
          assert old(before[j].prev) == Before(before, j) && old(before[j].next) == After(before, j);
          assert before[j] != node;
          assert j + 1 != i ==> before[j] != Before(before, i);
          assert j != i + 1 ==> before[j] != After(before, i);
        }
        ChainRemove(before, i);
      }
      node.prev := null;
      node.next := null;
      nodes := before[..i] + before[i + 1..];
      removed := node;
    }

    /**
     * remove_node_with_data: remove and return the first node whose string is
     * key; with no such node nothing changes and the result is null.
     */
    method RemoveNodeWithData(key: seq<char>) returns (removed: Node?)
      requires Valid()
      modifies this, nodes
      ensures Valid()
      ensures var i := FirstMatch(old(nodes), key);
        (i == |old(nodes)| ==> removed == null && nodes == old(nodes) && head == old(head) && tail == old(tail)) &&
        (i < |old(nodes)| ==>
          removed == old(nodes)[i] && nodes == old(nodes)[..i] + old(nodes)[i + 1..] &&
          removed.prev == null && removed.next == null)
    {
      var found := Find(key);
      if found == null {
        return found;
      }
      removed := RemoveNodeFromList(found);
    }
  }
}
