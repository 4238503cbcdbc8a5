/** The circular doubly linked list: every operation is an operation on a sequence of nodes. */
module LinkedList {
  /** A null pointer stands for the poison that `Del` leaves behind. */
  class Node {
    var next: Node?
    var prev: Node?

    constructor ()
      ensures next == this && prev == this
    {
      next, prev := this, this;
    }
  }

  function After(i: nat, n: nat): nat
    requires i < n
  {
    if i + 1 == n then 0 else i + 1
  }

  ghost predicate Distinct(s: seq<Node>) {
    forall i, j :: 0 <= i < j < |s| ==> s[i] != s[j]
  }

  ghost predicate Apart(s: seq<Node>, t: seq<Node>) {
    forall i, j :: 0 <= i < |s| && 0 <= j < |t| ==> s[i] != t[j]
  }

  /** The nodes of `s` form a circle, and following `prev` undoes following `next`. Seen from its
      first node, the list holds the others in order. */
  ghost predicate Circle(s: seq<Node>)
    reads s
  {
    && |s| > 0 && Distinct(s)
    && forall i :: 0 <= i < |s| ==> s[i].next == s[After(i, |s|)] && s[After(i, |s|)].prev == s[i]
  }

  function Insert(s: seq<Node>, i: nat, x: Node): seq<Node>
    requires i <= |s|
  {
    s[..i] + [x] + s[i..]
  }

  function Remove(s: seq<Node>, i: nat): seq<Node>
    requires i < |s|
  {
    s[..i] + s[i + 1..]
  }

  /** A circle can be entered at any of its nodes: each may serve as the head. */
  lemma Rotate(s: seq<Node>, k: nat)
    requires Circle(s) && k < |s|
    ensures Circle(s[k..] + s[..k])
  {
    var r := s[k..] + s[..k];
    forall i | 0 <= i < |r|
      ensures r[i].next == r[After(i, |r|)] && r[After(i, |r|)].prev == r[i]
    {
      var j := if i < |s| - k then i + k else i - (|s| - k);
      assert r[i] == s[j] && r[After(i, |r|)] == s[After(j, |s|)];
    }
  }

  /** The pointers determine the list: two circles from one head are the same. */
  lemma {:induction false} OneCircle(s: seq<Node>, t: seq<Node>, i: nat)
    requires Circle(s) && Circle(t) && s[0] == t[0] && i < |s|
    ensures i < |t| && s[i] == t[i]
  {
    if i > 0 {
      OneCircle(s, t, i - 1);
      assert s[i - 1].next == s[i] && t[i - 1].next == t[After(i - 1, |t|)];
    }
  }

  lemma CircleUnique(s: seq<Node>, t: seq<Node>)
    requires Circle(s) && Circle(t) && s[0] == t[0]
    ensures s == t
  {
    OneCircle(s, t, |s| - 1);
    OneCircle(t, s, |t| - 1);
    forall i | 0 <= i < |s| ensures s[i] == t[i] { OneCircle(s, t, i); }
  }

  // ------------------------------------------------------------------------- insertion

  method InitListHead(list: Node)
    modifies list
    ensures Circle([list])
  {
    list.next := list;
    list.prev := list;
  }

  /** Between two neighbours, of which the second may be the first again. */
  method AddBetween(x: Node, prev: Node, next: Node, ghost s: seq<Node>, ghost i: nat)
    requires Circle(s) && i < |s| && prev == s[i] && next == s[After(i, |s|)] && x !in s
    modifies x, prev`next, next`prev
    ensures Circle(Insert(s, i + 1, x))
  {
    next.prev := x;
    x.next := next;
    x.prev := prev;
    prev.next := x;
    Inserted(s, i, x);
  }

  lemma InsertDistinct(s: seq<Node>, i: nat, x: Node)
    requires Distinct(s) && i <= |s| && x !in s
    ensures Distinct(Insert(s, i, x))
  {
    var r := Insert(s, i, x);
    forall j | 0 <= j < |r| ensures j == i || (r[j] == s[if j < i then j else j - 1] && r[j] != x) {
    }
  }

  lemma Inserted(s: seq<Node>, i: nat, x: Node)
    requires Distinct(s) && i < |s| && x !in s
    requires forall j :: 0 <= j < |s| && j != i ==> s[j].next == s[After(j, |s|)] && s[After(j, |s|)].prev == s[j]
    requires s[i].next == x && x.next == s[After(i, |s|)]
    requires s[After(i, |s|)].prev == x && x.prev == s[i]
    ensures Circle(Insert(s, i + 1, x))
  {
    var r := Insert(s, i + 1, x);
    InsertDistinct(s, i + 1, x);
    hide Distinct;
    forall j | 0 <= j < |r|
      ensures r[j].next == r[After(j, |r|)] && r[After(j, |r|)].prev == r[j]
    {
      if j < i {
        assert r[j] == s[j] && r[j + 1] == s[j + 1] && s[After(j, |s|)] == s[j + 1];
      } else if j > i + 1 {
        var k := j - 1;
        assert r[j] == s[k] && r[After(j, |r|)] == s[After(k, |s|)];
      }
    }
  }

  /** In front of the list, as on a stack. */
  method Add(x: Node, head: Node, ghost s: seq<Node>)
    requires Circle(s) && s[0] == head && x !in s
    modifies x, s
    ensures Circle([head, x] + s[1..])
  {
    AddBetween(x, head, head.next, s, 0);
    assert Insert(s, 1, x) == [head, x] + s[1..];
  }

  /** At the end of the list, as in a queue. */
  method AddTail(x: Node, head: Node, ghost s: seq<Node>)
    requires Circle(s) && s[0] == head && x !in s
    modifies x, s
    ensures Circle(s + [x])
  {
    assert s[After(|s| - 1, |s|)].prev == s[|s| - 1];
    AddBetween(x, head.prev, head, s, |s| - 1);
    assert Insert(s, |s|, x) == s + [x];
  }

  // -------------------------------------------------------------------------- deletion

  /** The entry at `i` is passed over; a node alone on its circle stays as it is. */
  method Unlink(prev: Node, next: Node, ghost s: seq<Node>, ghost i: nat)
    requires Circle(s) && i < |s| && prev == s[i].prev && next == s[i].next
    modifies prev`next, next`prev
    ensures |s| > 1 ==> Circle(Remove(s, i))
    ensures |s| > 1 ==> s[i].next == old(s[i].next) && s[i].prev == old(s[i].prev)
    ensures |s| == 1 ==> Circle(s)
  {
    Neighbours(s, i);
    next.prev := prev;
    prev.next := next;
    if |s| > 1 { Removed(s, i); }
  }

  function Before(i: nat, n: nat): nat
    requires i < n
  {
    if i == 0 then n - 1 else i - 1
  }

  lemma Removed(s: seq<Node>, i: nat)
    requires Distinct(s) && i < |s| && |s| > 1
    requires forall j :: 0 <= j < |s| && j != i && j != Before(i, |s|) ==>
               s[j].next == s[After(j, |s|)] && s[After(j, |s|)].prev == s[j]
    requires s[Before(i, |s|)].next == s[After(i, |s|)] && s[After(i, |s|)].prev == s[Before(i, |s|)]
    ensures Circle(Remove(s, i))
  {
    var r := Remove(s, i);
    RemoveDistinct(s, i);
    forall j | 0 <= j < |r|
      ensures r[j].next == r[After(j, |r|)] && r[After(j, |r|)].prev == r[j]
    {
      RemoveAt(s, i, j);
      RemoveAt(s, i, After(j, |r|));
      hide Remove, Distinct;
      var k := if j < i then j else j + 1;
      if k != Before(i, |s|) {
        assert s[k].next == s[After(k, |s|)] && s[After(k, |s|)].prev == s[k];
      }
    }
  }

  lemma RemoveAt(s: seq<Node>, i: nat, j: nat)
    requires i < |s| && j < |s| - 1
    ensures Remove(s, i)[j] == s[if j < i then j else j + 1]
  {
  }

  lemma RemoveDistinct(s: seq<Node>, i: nat)
    requires Distinct(s) && i < |s|
    ensures Distinct(Remove(s, i))
  {
  }

  lemma Neighbours(s: seq<Node>, i: nat)
    requires Circle(s) && i < |s|
    ensures s[i].next == s[After(i, |s|)] && s[i].prev == s[Before(i, |s|)]
  {
    assert After(Before(i, |s|), |s|) == i;
  }

  method Del(entry: Node, ghost s: seq<Node>, ghost i: nat)
    requires Circle(s) && i < |s| && entry == s[i]
    modifies s
    ensures |s| > 1 ==> Circle(Remove(s, i))
    ensures entry.next == null && entry.prev == null
  {
    Neighbours(s, i);
    Unlink(entry.prev, entry.next, s, i);
    entry.next := null;
    entry.prev := null;
  }

  method DelInit(entry: Node, ghost s: seq<Node>, ghost i: nat)
    requires Circle(s) && i < |s| && entry == s[i]
    modifies s
    ensures |s| > 1 ==> Circle(Remove(s, i))
    ensures Circle([entry])
  {
    Neighbours(s, i);
    Unlink(entry.prev, entry.next, s, i);
    InitListHead(entry);
  }

  // ----------------------------------------------------------------------- replacement

  /** The new node takes the place of the old one, even where that is a head alone on its circle. */
  method Replace(was: Node, x: Node, ghost s: seq<Node>, ghost i: nat)
    requires Circle(s) && i < |s| && was == s[i] && x !in s
    modifies x, s
    ensures Circle(s[i := x])
    ensures |s| > 1 ==> was.next == old(was.next) && was.prev == old(was.prev)
  {
    Neighbours(s, i);
    x.next := was.next;
    x.next.prev := x;
    x.prev := was.prev;
    x.prev.next := x;
    if |s| > 1 { Replaced(s, i, x); }
  }

  lemma Replaced(s: seq<Node>, i: nat, x: Node)
    requires Distinct(s) && i < |s| && |s| > 1 && x !in s
    requires forall j :: 0 <= j < |s| && j != i && j != Before(i, |s|) ==>
               s[j].next == s[After(j, |s|)] && s[After(j, |s|)].prev == s[j]
    requires x.next == s[After(i, |s|)] && s[After(i, |s|)].prev == x
    requires x.prev == s[Before(i, |s|)] && s[Before(i, |s|)].next == x
    ensures Circle(s[i := x])
  {
    var r := s[i := x];
    forall j | 0 <= j < |r|
      ensures r[j].next == r[After(j, |r|)] && r[After(j, |r|)].prev == r[j]
    {
      if j != i && j != Before(i, |s|) {
        assert r[j] == s[j] && r[After(j, |r|)] == s[After(j, |s|)];
      }
    }
  }

  method ReplaceInit(was: Node, x: Node, ghost s: seq<Node>, ghost i: nat)
    requires Circle(s) && i < |s| && was == s[i] && x !in s
    modifies x, s
    ensures Circle(s[i := x]) && Circle([was])
  {
    Replace(was, x, s, i);
    InitListHead(was);
  }

  // ---------------------------------------------------------------------------- moving

  /** Within one list: wherever the node was, first or last included. */
  method Move(node: Node, head: Node, ghost s: seq<Node>, ghost i: nat)
    requires Circle(s) && s[0] == head && 0 < i < |s| && node == s[i]
    modifies s
    ensures Circle([head, node] + Remove(s, i)[1..])
  {
    Neighbours(s, i);
    Unlink(node.prev, node.next, s, i);
    Add(node, head, Remove(s, i));
  }

  method MoveTail(node: Node, head: Node, ghost s: seq<Node>, ghost i: nat)
    requires Circle(s) && s[0] == head && 0 < i < |s| && node == s[i]
    modifies s
    ensures Circle(Remove(s, i) + [node])
  {
    Neighbours(s, i);
    Unlink(node.prev, node.next, s, i);
    AddTail(node, head, Remove(s, i));
  }

  /** From one list to another; the node may be alone on its circle. */
  method MoveAcross(node: Node, head: Node, ghost s: seq<Node>, ghost i: nat, ghost t: seq<Node>)
    requires Circle(s) && i < |s| && node == s[i] && Circle(t) && t[0] == head
    requires Apart(s, t)
    modifies s, t
    ensures Circle([head, node] + t[1..])
    ensures |s| > 1 ==> Circle(Remove(s, i))
  {
    Neighbours(s, i);
    assert node.prev !in t && node.next !in t && node !in t;
    Unlink(node.prev, node.next, s, i);
    Add(node, head, t);
  }

  method MoveTailAcross(node: Node, head: Node, ghost s: seq<Node>, ghost i: nat, ghost t: seq<Node>)
    requires Circle(s) && i < |s| && node == s[i] && Circle(t) && t[0] == head
    requires Apart(s, t)
    modifies s, t
    ensures Circle(t + [node])
    ensures |s| > 1 ==> Circle(Remove(s, i))
  {
    Neighbours(s, i);
    assert node.prev !in t && node.next !in t && node !in t;
    Unlink(node.prev, node.next, s, i);
    AddTail(node, head, t);
  }

  // ----------------------------------------------------------------------------- tests

  method IsLast(node: Node, head: Node, ghost s: seq<Node>, ghost i: nat) returns (last: bool)
    requires Circle(s) && s[0] == head && i < |s| && node == s[i]
    ensures last <==> i == |s| - 1
  {
    last := node.next == head;
  }

  method Empty(head: Node, ghost s: seq<Node>) returns (empty: bool)
    requires Circle(s) && s[0] == head
    ensures empty <==> s[1..] == []
  {
    empty := head.next == head;
    assert s[0].next == s[After(0, |s|)];
  }

  method EmptyCareful(head: Node, ghost s: seq<Node>) returns (empty: bool)
    requires Circle(s) && s[0] == head
    ensures empty <==> s[1..] == []
  {
    var next := head.next;
    empty := next == head && next == head.prev;
    Neighbours(s, 0);
  }

  /** The loop of `list_for_each`: it meets the entries in order, each once. */
  method ForEach(head: Node, ghost s: seq<Node>) returns (met: seq<Node>)
    requires Circle(s) && s[0] == head
    ensures met == s[1..]
  {
    met := [];
    var pos: Node := head.next;
    while pos != head
      invariant |met| < |s| && met == s[1..1 + |met|] && pos == s[After(|met|, |s|)]
      decreases |s| - |met|
    {
      assert pos == s[|met| + 1];
      met := met + [pos];
      assert s[|met|].next == s[After(|met|, |s|)];
      pos := pos.next;
    }
  }

  // --------------------------------------------------------------------------- joining

  /** Two circles become one: the entries of the first in front of those of the second. */
  method SpliceIn(list: Node, head: Node, ghost s: seq<Node>, ghost t: seq<Node>)
    requires Circle(s) && s[0] == list && |s| > 1 && Circle(t) && t[0] == head
    requires Apart(s, t)
    modifies s[1..], t
    ensures Circle([head] + s[1..] + t[1..])
  {
    Neighbours(s, 0);
    Neighbours(t, 0);
    var first: Node := list.next;
    var last: Node := list.prev;
    var at: Node := head.next;
    assert first == s[1] && last == s[|s| - 1] && at == t[After(0, |t|)];
    first.prev := head;
    head.next := first;
    last.next := at;
    at.prev := last;
    Joined(s, t);
  }

  lemma Joined(s: seq<Node>, t: seq<Node>)
    requires Distinct(s) && |s| > 1 && Distinct(t) && |t| > 0
    requires Apart(s, t)
    requires s[1].prev == t[0] && t[0].next == s[1]
    requires s[|s| - 1].next == t[After(0, |t|)] && t[After(0, |t|)].prev == s[|s| - 1]
    requires forall j :: 1 <= j < |s| - 1 ==> s[j].next == s[After(j, |s|)] && s[After(j, |s|)].prev == s[j]
    requires forall j :: 1 <= j < |t| ==> t[j].next == t[After(j, |t|)] && t[After(j, |t|)].prev == t[j]
    ensures Circle([t[0]] + s[1..] + t[1..])
  {
    var r := [t[0]] + s[1..] + t[1..];
    JoinedDistinct(s, t);
    forall j | 0 <= j < |r|
      ensures r[j].next == r[After(j, |r|)] && r[After(j, |r|)].prev == r[j]
    {
      if 0 < j < |s| - 1 {
        assert r[j] == s[j] && r[j + 1] == s[After(j, |s|)];
      } else if j == |s| - 1 {
        assert r[j] == s[j] && r[After(j, |r|)] == t[After(0, |t|)];
      } else if j > |s| - 1 {
        var k := j - |s| + 1;
        assert r[j] == t[k] && r[After(j, |r|)] == t[After(k, |t|)];
      }
    }
  }

  lemma JoinedDistinct(s: seq<Node>, t: seq<Node>)
    requires Distinct(s) && Distinct(t) && |s| > 1 && |t| > 0 && Apart(s, t)
    ensures Distinct([t[0]] + s[1..] + t[1..])
  {
    var r := [t[0]] + s[1..] + t[1..];
    forall i, j | 0 <= i < j < |r| ensures r[i] != r[j] {
      assert i == 0 || (i < |s| && r[i] == s[i]) || r[i] == t[i - |s| + 1];
      assert (j < |s| && r[j] == s[j]) || r[j] == t[j - |s| + 1];
    }
  }

  method Splice(list: Node, head: Node, ghost s: seq<Node>, ghost t: seq<Node>)
    requires Circle(s) && s[0] == list && Circle(t) && t[0] == head
    requires Apart(s, t)
    modifies s[1..], t
    ensures Circle([head] + s[1..] + t[1..])
  {
    var empty := Empty(list, s);
    if !empty {
      SpliceIn(list, head, s, t);
    } else {
      assert [head] + s[1..] + t[1..] == t;
    }
  }

  /** Afterwards the first list is empty and the second holds its entries, then its own. */
  method SpliceInit(list: Node, head: Node, ghost s: seq<Node>, ghost t: seq<Node>)
    requires Circle(s) && s[0] == list && Circle(t) && t[0] == head
    requires Apart(s, t)
    modifies s, t
    ensures Circle([head] + s[1..] + t[1..])
    ensures Circle([list])
  {
    var empty := Empty(list, s);
    if !empty {
      SpliceIn(list, head, s, t);
      InitListHead(list);
    } else {
      assert [head] + s[1..] + t[1..] == t && s == [list];
    }
  }
}
