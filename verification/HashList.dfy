/** The list with a single-pointer head: each linked node knows the slot that points to it. */
module HashList {
  /** What a node's `next` holds: nothing, the poison that deletion leaves, or a node. */
  datatype Link = Null | Poison | To(node: Node)

  /** What a node's `pprev` holds: nothing, the poison, or the address of a pointer, which is a
      head's `first` or another node's `next`. */
  datatype Slot = NoSlot | PoisonSlot | FirstOf(head: Head) | NextOf(node: Node)

  class Head {
    var first: Link

    constructor ()
      ensures Chain(this, [])
    {
      first := Null;
    }
  }

  class Node {
    var next: Link
    var pprev: Slot

    constructor ()
      ensures next == Null && pprev == NoSlot
    {
      next, pprev := Null, NoSlot;
    }
  }

  function LinkAt(s: seq<Node>, i: nat): Link { if i < |s| then To(s[i]) else Null }

  function SlotAt(h: Head, s: seq<Node>, i: nat): Slot
    requires i <= |s|
  {
    if i == 0 then FirstOf(h) else NextOf(s[i - 1])
  }

  ghost predicate Distinct(s: seq<Node>) {
    forall i, j :: 0 <= i < j < |s| ==> s[i] != s[j]
  }

  /** From the head the pointers lead through `s`, and the slot of every node points to that node. */
  ghost predicate Chain(h: Head, s: seq<Node>)
    reads h, s
  {
    && Distinct(s)
    && h.first == LinkAt(s, 0)
    && forall i :: 0 <= i < |s| ==> s[i].next == LinkAt(s, i + 1) && s[i].pprev == SlotAt(h, s, i)
  }

  /** What the pointer at a slot holds. */
  ghost function Held(p: Slot): Link
    requires p.FirstOf? || p.NextOf?
    reads if p.FirstOf? then {p.head} else if p.NextOf? then {p.node} else {}
  {
    if p.FirstOf? then p.head.first else p.node.next
  }

  lemma SlotHoldsNode(h: Head, s: seq<Node>, i: nat)
    requires Chain(h, s) && i < |s|
    ensures (s[i].pprev.FirstOf? || s[i].pprev.NextOf?) && Held(s[i].pprev) == To(s[i])
  {
    if i > 0 {
      assert s[i - 1].next == LinkAt(s, i);
    }
  }

  lemma Around(h: Head, s: seq<Node>, i: nat)
    requires Chain(h, s) && i < |s|
    ensures s[i].pprev == if i == 0 then FirstOf(h) else NextOf(s[i - 1])
    ensures s[i].next == if i + 1 < |s| then To(s[i + 1]) else Null
    ensures LinkAt(s, i) == To(s[i])
  {
  }

  method InitNode(n: Node)
    modifies n
    ensures n.next == Null && n.pprev == NoSlot
  {
    n.next := Null;
    n.pprev := NoSlot;
  }

  method Unhashed(n: Node) returns (r: bool)
    ensures r <==> n.pprev == NoSlot
  {
    r := n.pprev == NoSlot;
  }

  method Empty(h: Head, ghost s: seq<Node>) returns (r: bool)
    requires Chain(h, s)
    ensures r <==> s == []
  {
    r := h.first == Null;
  }

  // ------------------------------------------------------------------------- insertion

  method AddHead(n: Node, h: Head, ghost s: seq<Node>)
    requires Chain(h, s) && n !in s
    modifies n, h, s
    ensures Chain(h, [n] + s)
  {
    var first := h.first;
    n.next := first;
    if first.To? { first.node.pprev := NextOf(n); }
    h.first := To(n);
    n.pprev := FirstOf(h);
    Inserted(h, s, 0, n);
    assert Insert(s, 0, n) == [n] + s;
  }

  function Insert(s: seq<Node>, i: nat, x: Node): seq<Node>
    requires i <= |s|
  {
    s[..i] + [x] + s[i..]
  }

  /** The four pointers around a new node are right and all others are as before. */
  lemma Inserted(h: Head, s: seq<Node>, i: nat, x: Node)
    requires Distinct(s)
    requires i <= |s| && x !in s
    requires h.first == if i == 0 then To(x) else LinkAt(s, 0)
    requires forall j :: 0 <= j < |s| ==> s[j].next == if j + 1 == i then To(x) else LinkAt(s, j + 1)
    requires forall j :: 0 <= j < |s| ==> s[j].pprev == if j == i then NextOf(x) else SlotAt(h, s, j)
    requires x.next == LinkAt(s, i) && x.pprev == SlotAt(h, s, i)
    ensures Chain(h, Insert(s, i, x))
  {
    var r := Insert(s, i, x);
    InsertDistinct(s, i, x);
    InsertAt(h, s, i, x, 0);
    hide LinkAt, SlotAt, Distinct;
    forall j | 0 <= j < |r| ensures r[j].next == LinkAt(r, j + 1) && r[j].pprev == SlotAt(h, r, j) {
      InsertAt(h, s, i, x, j);
      InsertAt(h, s, i, x, j + 1);
    }
  }

  lemma InsertDistinct(s: seq<Node>, i: nat, x: Node)
    requires Distinct(s) && i <= |s| && x !in s
    ensures Distinct(Insert(s, i, x))
  {
    var r := Insert(s, i, x);
    forall j | 0 <= j < |r| ensures j == i || (r[j] == s[if j < i then j else j - 1] && r[j] != x) {
    }
  }

  lemma InsertAt(h: Head, s: seq<Node>, i: nat, x: Node, j: nat)
    requires i <= |s|
    ensures var r := Insert(s, i, x);
            && LinkAt(r, j) == (if j < i then LinkAt(s, j) else if j == i then To(x) else LinkAt(s, j - 1))
            && (j <= |r| ==> SlotAt(h, r, j) ==
                             if j <= i then SlotAt(h, s, j) else if j == i + 1 then NextOf(x) else SlotAt(h, s, j - 1))
            && (j < |r| ==> r[j] == if j < i then s[j] else if j == i then x else s[j - 1])
  {
  }

  method AddBefore(n: Node, next: Node, ghost h: Head, ghost s: seq<Node>, ghost i: nat)
    requires Chain(h, s) && i < |s| && next == s[i] && n !in s
    modifies n, h, s
    ensures Chain(h, Insert(s, i, n))
  {
    Around(h, s, i);
    hide LinkAt, SlotAt, Insert;
    n.pprev := next.pprev;
    n.next := To(next);
    next.pprev := NextOf(n);
    if n.pprev.FirstOf? { n.pprev.head.first := To(n); } else { n.pprev.node.next := To(n); }
    Inserted(h, s, i, n);
  }

  method AddAfter(n: Node, next: Node, ghost h: Head, ghost s: seq<Node>, ghost i: nat)
    requires Chain(h, s) && i < |s| && n == s[i] && next !in s
    modifies next, s
    ensures Chain(h, Insert(s, i + 1, next))
  {
    next.next := n.next;
    n.next := To(next);
    next.pprev := NextOf(n);
    if next.next.To? { next.next.node.pprev := NextOf(next); }
    Inserted(h, s, i + 1, next);
  }

  // -------------------------------------------------------------------------- deletion

  function Remove(s: seq<Node>, i: nat): seq<Node>
    requires i < |s|
  {
    s[..i] + s[i + 1..]
  }

  /** The node keeps its own pointers; its neighbours pass it over. */
  method Unlink(n: Node, ghost h: Head, ghost s: seq<Node>, ghost i: nat)
    requires Chain(h, s) && i < |s| && n == s[i]
    modifies h, s
    ensures Chain(h, Remove(s, i)) && n.next == old(n.next) && n.pprev == old(n.pprev)
  {
    Around(h, s, i);
    hide LinkAt, SlotAt;
    var next := n.next;
    var pprev := n.pprev;
    if pprev.FirstOf? { pprev.head.first := next; } else { pprev.node.next := next; }
    if next.To? { next.node.pprev := pprev; }
    Removed(h, s, i);
  }

  lemma Removed(h: Head, s: seq<Node>, i: nat)
    requires Distinct(s)
    requires i < |s|
    requires h.first == (if i == 0 then LinkAt(s, 1) else LinkAt(s, 0))
    requires forall j :: 0 <= j < |s| && j != i ==>
               s[j].next == if j + 1 == i then LinkAt(s, i + 1) else LinkAt(s, j + 1)
    requires forall j :: 0 <= j < |s| && j != i ==>
               s[j].pprev == if j == i + 1 then SlotAt(h, s, i) else SlotAt(h, s, j)
    ensures Chain(h, Remove(s, i))
  {
    var r := Remove(s, i);
    RemoveDistinct(s, i);
    RemoveAt(h, s, i, 0);
    hide LinkAt, SlotAt, Distinct;
    forall j | 0 <= j < |r| ensures r[j].next == LinkAt(r, j + 1) && r[j].pprev == SlotAt(h, r, j) {
      RemoveAt(h, s, i, j);
      RemoveAt(h, s, i, j + 1);
    }
  }

  lemma RemoveDistinct(s: seq<Node>, i: nat)
    requires Distinct(s) && i < |s|
    ensures Distinct(Remove(s, i))
  {
  }

  lemma RemoveAt(h: Head, s: seq<Node>, i: nat, j: nat)
    requires i < |s|
    ensures var r := Remove(s, i);
            && LinkAt(r, j) == LinkAt(s, if j < i then j else j + 1)
            && (j <= |r| ==> SlotAt(h, r, j) == SlotAt(h, s, if j <= i then j else j + 1))
            && (j < |r| ==> r[j] == s[if j < i then j else j + 1])
  {
  }

  method Del(n: Node, ghost h: Head, ghost s: seq<Node>, ghost i: nat)
    requires Chain(h, s) && i < |s| && n == s[i]
    modifies h, s
    ensures Chain(h, Remove(s, i)) && n.next == Poison && n.pprev == PoisonSlot
  {
    Unlink(n, h, s, i);
    n.next := Poison;
    n.pprev := PoisonSlot;
  }

  /** Safe on a node that is on no list: then nothing changes. */
  method DelInit(n: Node, ghost h: Head, ghost s: seq<Node>, ghost i: nat)
    requires Chain(h, s) && i <= |s| && (if i < |s| then n == s[i] else n !in s && n.pprev == NoSlot)
    modifies h, s
    ensures i < |s| ==> Chain(h, Remove(s, i)) && n.next == Null && n.pprev == NoSlot
    ensures i == |s| ==> Chain(h, s)
  {
    var unhashed := Unhashed(n);
    if !unhashed {
      Unlink(n, h, s, i);
      InitNode(n);
    }
  }

  /** Following the pointers from the head meets the nodes in order, each once. */
  method ForEach(h: Head, ghost s: seq<Node>) returns (met: seq<Node>)
    requires Chain(h, s)
    ensures met == s
  {
    met := [];
    var pos := h.first;
    while pos.To?
      invariant |met| <= |s| && met == s[..|met|] && pos == LinkAt(s, |met|)
      decreases |s| - |met|
    {
      met := met + [pos.node];
      pos := pos.node.next;
    }
  }
}
