/** The intrusive queues of queue.h. A `**` link is the address of a next field,
    and in a TAILQ the head and the elements have the same layout, so one class
    of cells serves for both: `next` is first/next and `back` is last/prev.
    A queue is described by its head followed by its elements; the four kinds
    differ in which back links they keep. */
module LinkedQueues {

  class Cell {
    var next: Cell?
    var back: Cell

    constructor ()
    {
      next, back := null, this;
    }
  }

  // ----- Representation: q[0] is the head, q[1..] are the elements -----

  ghost predicate Distinct(q: seq<Cell>) {
    forall i, j :: 0 <= i < j < |q| ==> q[i] != q[j]
  }

  /** The next chain runs through the cells and ends. This is an SLIST. */
  ghost predicate Slist(q: seq<Cell>)
    reads q
  {
    && q != [] && Distinct(q)
    && (forall i, j :: 0 <= i < j < |q| && j == i + 1 ==> q[i].next == q[j])
    && q[|q| - 1].next == null
  }

  /** The head also knows the last next field. This is a STAILQ. */
  ghost predicate Stailq(q: seq<Cell>)
    reads q
  {
    Slist(q) && q[0].back == q[|q| - 1]
  }

  /** Every element knows the next field that leads to it. This is a LIST. */
  ghost predicate List(q: seq<Cell>)
    reads q
  {
    Slist(q) && forall i, j :: 0 <= i < j < |q| && j == i + 1 ==> q[j].back == q[i]
  }

  /** Both: the back links form a cycle through the head. This is a TAILQ. */
  ghost predicate Tailq(q: seq<Cell>)
    reads q
  {
    List(q) && q[0].back == q[|q| - 1]
  }

  /** `e` placed at position `i`, and position `i` taken out. */
  ghost function Insert(q: seq<Cell>, i: nat, e: Cell): (r: seq<Cell>)
    requires 1 <= i <= |q|
    ensures |r| == |q| + 1
    ensures forall k :: 0 <= k < |r| ==> r[k] == if k < i then q[k] else if k == i then e else q[k - 1]
  {
    q[..i] + [e] + q[i..]
  }

  ghost function Delete(q: seq<Cell>, i: nat): (r: seq<Cell>)
    requires 1 <= i < |q|
    ensures |r| == |q| - 1
    ensures forall k :: 0 <= k < |r| ==> r[k] == if k < i then q[k] else q[k + 1]
  {
    q[..i] + q[i + 1..]
  }

  /** The elements of `r` after those of `q`, and the elements of `q` under another head. */
  ghost function Join(q: seq<Cell>, r: seq<Cell>): (s: seq<Cell>)
    requires q != [] && r != []
    ensures |s| == |q| + |r| - 1
    ensures forall k :: 0 <= k < |s| ==> s[k] == if k < |q| then q[k] else r[k - |q| + 1]
  {
    q + r[1..]
  }

  ghost predicate Apart(q: seq<Cell>, r: seq<Cell>) {
    forall i, j :: 0 <= i < |q| && 0 <= j < |r| ==> q[i] != r[j]
  }

  lemma InsertDelete(q: seq<Cell>, i: nat, e: Cell)
    requires 1 <= i <= |q|
    ensures Delete(Insert(q, i, e), i) == q
  {
  }

  lemma NextOf(q: seq<Cell>, i: nat)
    requires Slist(q) && i < |q|
    ensures q[i].next == if i + 1 < |q| then q[i + 1] else null
  {
  }

  /** Where an insert puts its element. */
  datatype Place = AtHead | AtTail | After(at: Cell) | Before(at: Cell)

  ghost predicate IsAt(place: Place, q: seq<Cell>, i: nat) {
    match place
    case AtHead => q != [] && i == 1
    case AtTail => q != [] && i == |q|
    case After(at) => 2 <= i <= |q| && q[i - 1] == at
    case Before(at) => 1 <= i < |q| && q[i] == at
  }

  /** A chain spells one sequence only. */
  lemma SlistUnique(q: seq<Cell>, r: seq<Cell>)
    requires Slist(q) && Slist(r) && q[0] == r[0]
    ensures q == r
  {
    var i := 1;
    while i < |q| && i < |r|
      invariant 1 <= i <= |q| && i <= |r|
      invariant forall k :: 0 <= k < i ==> q[k] == r[k]
    {
      assert q[i - 1].next == q[i] && r[i - 1].next == r[i];
      i := i + 1;
    }
    NextOf(q, i - 1);
    NextOf(r, i - 1);
  }

  /** A well-formed LIST or TAILQ leaves no freedom: the same cells in the same
      order have the same links, so undoing an operation restores every link. */
  twostate lemma LinksDetermined(q: seq<Cell>)
    requires old(List(q)) && List(q)
    ensures forall i :: 0 <= i < |q| ==> q[i].next == old(q[i].next)
    ensures forall i :: 1 <= i < |q| ==> q[i].back == old(q[i].back)
    ensures old(Tailq(q)) && Tailq(q) ==> q[0].back == old(q[0].back)
  {
    forall i | 0 <= i < |q|
      ensures q[i].next == old(q[i].next) && (i > 0 ==> q[i].back == old(q[i].back))
    {
      if i + 1 < |q| {
        assert q[i].next == q[i + 1];
      }
      if i > 0 {
        assert q[i].back == q[i - 1];
      }
    }
  }

  // ----- TAILQ -----

  method TailqInit(head: Cell)
    modifies head
    ensures Tailq([head])
  {
    head.next := null;
    head.back := head;
  }

  method TailqInsertHead(head: Cell, elm: Cell, ghost q: seq<Cell>)
    requires Tailq(q) && q[0] == head && elm !in q
    modifies q, elm
    ensures Tailq(Insert(q, 1, elm))
  {
    assert |q| > 1 ==> head.next == q[1];
    elm.next := head.next;
    if elm.next != null {
      head.next.back := elm;
    } else {
      head.back := elm;
    }
    head.next := elm;
    elm.back := head;
  }

  method TailqInsertTail(head: Cell, elm: Cell, ghost q: seq<Cell>)
    requires Tailq(q) && q[0] == head && elm !in q
    modifies q, elm
    ensures Tailq(Insert(q, |q|, elm))
  {
    elm.next := null;
    elm.back := head.back;
    head.back.next := elm;
    head.back := elm;
  }

  method TailqInsertAfter(head: Cell, listelm: Cell, elm: Cell, ghost q: seq<Cell>, ghost i: nat)
    requires Tailq(q) && q[0] == head && elm !in q && 1 <= i < |q| && q[i] == listelm
    modifies q, elm
    ensures Tailq(Insert(q, i + 1, elm))
  {
    assert i + 1 < |q| ==> listelm.next == q[i + 1];
    elm.next := listelm.next;
    if elm.next != null {
      elm.next.back := elm;
    } else {
      head.back := elm;
    }
    listelm.next := elm;
    elm.back := listelm;
  }

  method TailqInsertBefore(listelm: Cell, elm: Cell, ghost q: seq<Cell>, ghost i: nat)
    requires Tailq(q) && elm !in q && 1 <= i < |q| && q[i] == listelm
    modifies q, elm
    ensures Tailq(Insert(q, i, elm))
  {
    assert listelm.back == q[i - 1];
    elm.back := listelm.back;
    elm.next := listelm;
    listelm.back.next := elm;
    listelm.back := elm;
  }

  method TailqRemove(head: Cell, elm: Cell, ghost q: seq<Cell>, ghost i: nat)
    requires Tailq(q) && q[0] == head && 1 <= i < |q| && q[i] == elm
    modifies q
    ensures Tailq(Delete(q, i))
    ensures elm.next == old(elm.next) && elm.back == old(elm.back)
  {
    assert elm.back == q[i - 1] && (i + 1 < |q| ==> elm.next == q[i + 1]);
    if elm.next != null {
      elm.next.back := elm.back;
    } else {
      head.back := elm.back;
    }
    elm.back.next := elm.next;
  }

  method TailqConcat(head1: Cell, head2: Cell, ghost q: seq<Cell>, ghost r: seq<Cell>)
    requires Tailq(q) && q[0] == head1 && Tailq(r) && r[0] == head2 && Apart(q, r)
    modifies q, r
    ensures Tailq(Join(q, r)) && Tailq([head2])
  {
    assert |r| > 1 ==> head2.next == r[1];
    if head2.next != null {
      head1.back.next := head2.next;
      head2.next.back := head1.back;
      head1.back := head2.back;
      TailqInit(head2);
    }
  }

  method TailqSwap(head1: Cell, head2: Cell, ghost q: seq<Cell>, ghost r: seq<Cell>)
    requires Tailq(q) && q[0] == head1 && Tailq(r) && r[0] == head2 && Apart(q, r)
    modifies q, r
    ensures Tailq(Join([head1], r)) && Tailq(Join([head2], q))
  {
    assert (|q| > 1 ==> head1.next == q[1]) && (|r| > 1 ==> head2.next == r[1]);
    var first, last := head1.next, head1.back;
    head1.next, head1.back := head2.next, head2.back;
    head2.next, head2.back := first, last;
    first := head1.next;
    if first != null {
      first.back := head1;
    } else {
      head1.back := head1;
    }
    first := head2.next;
    if first != null {
      first.back := head2;
    } else {
      head2.back := head2;
    }
  }

  /** The cast reads a cell as if it were a head: the owner of the last next
      field has a back link, and the next field it names leads to the last element. */
  method TailqLast(head: Cell, ghost q: seq<Cell>) returns (r: Cell?)
    requires Tailq(q) && q[0] == head
    ensures r == if |q| == 1 then null else q[|q| - 1]
  {
    assert |q| > 1 ==> head.back.back == q[|q| - 2];
    r := head.back.back.next;
  }

  method TailqPrev(elm: Cell, ghost q: seq<Cell>, ghost i: nat) returns (r: Cell?)
    requires Tailq(q) && 1 <= i < |q| && q[i] == elm
    ensures r == if i == 1 then null else q[i - 1]
  {
    assert elm.back == q[i - 1] && (i > 1 ==> q[i - 1].back == q[i - 2]);
    r := elm.back.back.next;
  }

  /** TAILQ_FOREACH, and the FOREACH of every other kind. */
  method Foreach(head: Cell, ghost q: seq<Cell>) returns (visited: seq<Cell>)
    requires Slist(q) && q[0] == head
    ensures visited == q[1..]
  {
    assert |q| > 1 ==> head.next == q[1];
    visited := [];
    var elm := head.next;
    while elm != null
      invariant |visited| < |q| && visited == q[1..|visited| + 1]
      invariant elm == if |visited| + 1 < |q| then q[|visited| + 1] else null
      decreases |q| - |visited|
    {
      assert |visited| + 2 < |q| ==> elm.next == q[|visited| + 2];
      visited := visited + [elm];
      elm := elm.next;
    }
  }

  ghost function Reversed(s: seq<Cell>): (r: seq<Cell>)
    ensures |r| == |s| && forall i :: 0 <= i < |s| ==> r[i] == s[|s| - 1 - i]
  {
    seq(|s|, i requires 0 <= i < |s| => s[|s| - 1 - i])
  }

  method ForeachReverse(head: Cell, ghost q: seq<Cell>) returns (visited: seq<Cell>)
    requires Tailq(q) && q[0] == head
    ensures visited == Reversed(q[1..])
  {
    visited := [];
    var elm := TailqLast(head, q);
    while elm != null
      invariant |visited| < |q| && visited == Reversed(q[1..])[..|visited|]
      invariant elm == if |visited| + 1 == |q| then null else q[|q| - 1 - |visited|]
      decreases |q| - |visited|
    {
      visited := visited + [elm];
      elm := TailqPrev(elm, q, |q| - |visited|);
    }
  }

  method TailqInsert(head: Cell, place: Place, elm: Cell, ghost q: seq<Cell>, ghost i: nat)
    requires Tailq(q) && q[0] == head && elm !in q && IsAt(place, q, i)
    modifies q, elm
    ensures Tailq(Insert(q, i, elm))
  {
    match place {
      case AtHead => TailqInsertHead(head, elm, q);
      case AtTail => TailqInsertTail(head, elm, q);
      case After(at) => TailqInsertAfter(head, at, elm, q, i - 1);
      case Before(at) => TailqInsertBefore(at, elm, q, i);
    }
  }

  /** An element inserted anywhere, by any of the four inserts, and removed again
      leaves every link of the queue as it was. */
  method TailqInsertThenRemove(head: Cell, place: Place, elm: Cell, ghost q: seq<Cell>, ghost i: nat)
    requires Tailq(q) && q[0] == head && elm !in q && IsAt(place, q, i)
    modifies q, elm
    ensures Tailq(q)
    ensures forall k :: 0 <= k < |q| ==> q[k].next == old(q[k].next) && q[k].back == old(q[k].back)
  {
    TailqInsert(head, place, elm, q, i);
    TailqRemove(head, elm, Insert(q, i, elm), i);
    InsertDelete(q, i, elm);
    LinksDetermined(q);
  }

  // ----- SLIST -----

  method SlistInit(head: Cell)
    modifies head`next
    ensures Slist([head])
  {
    head.next := null;
  }

  method SlistInsertHead(head: Cell, elm: Cell, ghost q: seq<Cell>)
    requires Slist(q) && q[0] == head && elm !in q
    modifies head`next, elm`next
    ensures Slist(Insert(q, 1, elm))
  {
    assert |q| > 1 ==> head.next == q[1];
    elm.next := head.next;
    head.next := elm;
  }

  method SlistInsertAfter(slistelm: Cell, elm: Cell, ghost q: seq<Cell>, ghost i: nat)
    requires Slist(q) && elm !in q && 1 <= i < |q| && q[i] == slistelm
    modifies slistelm`next, elm`next
    ensures Slist(Insert(q, i + 1, elm))
  {
    assert i + 1 < |q| ==> slistelm.next == q[i + 1];
    elm.next := slistelm.next;
    slistelm.next := elm;
  }

  method SlistRemoveHead(head: Cell, ghost q: seq<Cell>)
    requires Slist(q) && q[0] == head && |q| > 1
    modifies head`next
    ensures Slist(Delete(q, 1))
  {
    assert head.next == q[1] && (|q| > 2 ==> q[1].next == q[2]);
    head.next := head.next.next;
  }

  method SlistRemoveAfter(elm: Cell, ghost q: seq<Cell>, ghost i: nat)
    requires Slist(q) && i + 1 < |q| && q[i] == elm
    modifies elm`next
    ensures Slist(Delete(q, i + 1))
  {
    assert elm.next == q[i + 1] && (i + 2 < |q| ==> q[i + 1].next == q[i + 2]);
    elm.next := elm.next.next;
  }

  /** The search SLIST_REMOVE, STAILQ_REMOVE and the CONCATs share: the cell
      whose next is `target`, starting from the first element. */
  method FindBefore(head: Cell, target: Cell?, ghost q: seq<Cell>, ghost i: nat) returns (curelm: Cell)
    requires Slist(q) && q[0] == head && 1 <= i < |q|
    requires target == if i + 1 < |q| then q[i + 1] else null
    ensures curelm == q[i]
  {
    assert head.next == q[1];
    curelm := head.next;
    ghost var k := 1;
    while curelm.next != target
      invariant 1 <= k <= i && curelm == q[k]
      invariant curelm.next == if k + 1 < |q| then q[k + 1] else null
      decreases i - k
    {
      curelm := curelm.next;
      k := k + 1;
      assert k + 1 < |q| ==> q[k].next == q[k + 1];
    }
  }

  method SlistRemove(head: Cell, elm: Cell, ghost q: seq<Cell>, ghost i: nat)
    requires Slist(q) && q[0] == head && 1 <= i < |q| && q[i] == elm
    modifies q
    ensures Slist(Delete(q, i))
    ensures elm.next == old(elm.next)
  {
    if head.next == elm {
      assert head.next == q[1];
      SlistRemoveHead(head, q);
    } else {
      assert head.next == q[1];
      var curelm := FindBefore(head, elm, q, i - 1);
      SlistRemoveAfter(curelm, q, i - 1);
    }
  }

  method SlistConcat(head1: Cell, head2: Cell, ghost q: seq<Cell>, ghost r: seq<Cell>)
    requires Slist(q) && q[0] == head1 && Slist(r) && r[0] == head2 && Apart(q, r)
    modifies q, head2
    ensures Slist(Join(q, r)) && Slist([head2])
  {
    assert (|q| > 1 ==> head1.next == q[1]) && (|r| > 1 ==> head2.next == r[1]);
    var curelm := head1.next;
    if curelm == null {
      head1.next := head2.next;
      if head1.next != null {
        SlistInit(head2);
      }
    } else if head2.next != null {
      curelm := FindBefore(head1, null, q, |q| - 1);
      curelm.next := head2.next;
      SlistInit(head2);
    }
  }

  method SlistSwap(head1: Cell, head2: Cell, ghost q: seq<Cell>, ghost r: seq<Cell>)
    requires Slist(q) && q[0] == head1 && Slist(r) && r[0] == head2 && Apart(q, r)
    modifies head1`next, head2`next
    ensures Slist(Join([head1], r)) && Slist(Join([head2], q))
  {
    assert (|q| > 1 ==> head1.next == q[1]) && (|r| > 1 ==> head2.next == r[1]);
    var first := head1.next;
    head1.next := head2.next;
    head2.next := first;
  }

  // ----- STAILQ -----

  method StailqInit(head: Cell)
    modifies head
    ensures Stailq([head])
  {
    head.next := null;
    head.back := head;
  }

  method StailqInsertHead(head: Cell, elm: Cell, ghost q: seq<Cell>)
    requires Stailq(q) && q[0] == head && elm !in q
    modifies head, elm`next
    ensures Stailq(Insert(q, 1, elm))
  {
    assert |q| > 1 ==> head.next == q[1];
    elm.next := head.next;
    if elm.next == null {
      head.back := elm;
    }
    head.next := elm;
  }

  method StailqInsertAfter(head: Cell, tqelm: Cell, elm: Cell, ghost q: seq<Cell>, ghost i: nat)
    requires Stailq(q) && q[0] == head && elm !in q && 1 <= i < |q| && q[i] == tqelm
    modifies head`back, tqelm`next, elm`next
    ensures Stailq(Insert(q, i + 1, elm))
  {
    assert i + 1 < |q| ==> tqelm.next == q[i + 1];
    elm.next := tqelm.next;
    if elm.next == null {
      head.back := elm;
    }
    tqelm.next := elm;
  }

  method StailqInsertTail(head: Cell, elm: Cell, ghost q: seq<Cell>)
    requires Stailq(q) && q[0] == head && elm !in q
    modifies head, q, elm
    ensures Stailq(Insert(q, |q|, elm))
  {
    elm.next := null;
    head.back.next := elm;
    head.back := elm;
  }

  /** The owner of the last next field is the last element. */
  method StailqLast(head: Cell, ghost q: seq<Cell>) returns (r: Cell?)
    requires Stailq(q) && q[0] == head
    ensures r == if |q| == 1 then null else q[|q| - 1]
  {
    assert |q| > 1 ==> head.next == q[1];
    r := if head.next == null then null else head.back;
  }

  method StailqRemoveHead(head: Cell, ghost q: seq<Cell>)
    requires Stailq(q) && q[0] == head && |q| > 1
    modifies head
    ensures Stailq(Delete(q, 1))
  {
    SlistRemoveHead(head, q);
    ghost var d := Delete(q, 1);
    assert |d| > 1 ==> d[0].next == d[1];
    if head.next == null {
      head.back := head;
    }
  }

  method StailqRemoveAfter(head: Cell, elm: Cell, ghost q: seq<Cell>, ghost i: nat)
    requires Stailq(q) && q[0] == head && i + 1 < |q| && q[i] == elm
    modifies head`back, elm`next
    ensures Stailq(Delete(q, i + 1))
  {
    SlistRemoveAfter(elm, q, i);
    ghost var d := Delete(q, i + 1);
    assert i + 1 < |d| ==> d[i].next == d[i + 1];
    if elm.next == null {
      head.back := elm;
    }
  }

  method StailqRemove(head: Cell, elm: Cell, ghost q: seq<Cell>, ghost i: nat)
    requires Stailq(q) && q[0] == head && 1 <= i < |q| && q[i] == elm
    modifies head, q
    ensures Stailq(Delete(q, i))
    ensures elm.next == old(elm.next)
  {
    assert head.next == q[1];
    if head.next == elm {
      StailqRemoveHead(head, q);
    } else {
      var curelm := FindBefore(head, elm, q, i - 1);
      StailqRemoveAfter(head, curelm, q, i - 1);
    }
  }

  method StailqConcat(head1: Cell, head2: Cell, ghost q: seq<Cell>, ghost r: seq<Cell>)
    requires Stailq(q) && q[0] == head1 && Stailq(r) && r[0] == head2 && Apart(q, r)
    modifies q, head2
    ensures Stailq(Join(q, r)) && Stailq([head2])
  {
    assert |r| > 1 ==> head2.next == r[1];
    if head2.next != null {
      head1.back.next := head2.next;
      head1.back := head2.back;
      StailqInit(head2);
    }
  }

  /** An exchanged empty queue must aim its tail pointer at its own head. */
  method StailqSwap(head1: Cell, head2: Cell, ghost q: seq<Cell>, ghost r: seq<Cell>)
    requires Stailq(q) && q[0] == head1 && Stailq(r) && r[0] == head2 && Apart(q, r)
    modifies head1, head2
    ensures Stailq(Join([head1], r)) && Stailq(Join([head2], q))
  {
    assert (|q| > 1 ==> head1.next == q[1]) && (|r| > 1 ==> head2.next == r[1]);
    var first, last := head1.next, head1.back;
    head1.next, head1.back := head2.next, head2.back;
    head2.next, head2.back := first, last;
    if head1.next == null {
      head1.back := head1;
    }
    if head2.next == null {
      head2.back := head2;
    }
  }

  // ----- LIST -----

  method ListInsertHead(head: Cell, elm: Cell, ghost q: seq<Cell>)
    requires List(q) && q[0] == head && elm !in q
    modifies q, elm
    ensures List(Insert(q, 1, elm))
  {
    assert |q| > 1 ==> head.next == q[1];
    elm.next := head.next;
    if elm.next != null {
      head.next.back := elm;
    }
    head.next := elm;
    elm.back := head;
  }

  method ListInsertAfter(listelm: Cell, elm: Cell, ghost q: seq<Cell>, ghost i: nat)
    requires List(q) && elm !in q && 1 <= i < |q| && q[i] == listelm
    modifies q, elm
    ensures List(Insert(q, i + 1, elm))
  {
    assert i + 1 < |q| ==> listelm.next == q[i + 1];
    elm.next := listelm.next;
    if elm.next != null {
      listelm.next.back := elm;
    }
    listelm.next := elm;
    elm.back := listelm;
  }

  method ListInsertBefore(listelm: Cell, elm: Cell, ghost q: seq<Cell>, ghost i: nat)
    requires List(q) && elm !in q && 1 <= i < |q| && q[i] == listelm
    modifies q, elm
    ensures List(Insert(q, i, elm))
  {
    assert listelm.back == q[i - 1];
    elm.back := listelm.back;
    elm.next := listelm;
    listelm.back.next := elm;
    listelm.back := elm;
  }

  method ListPrev(elm: Cell, head: Cell, ghost q: seq<Cell>, ghost i: nat) returns (r: Cell?)
    requires List(q) && q[0] == head && 1 <= i < |q| && q[i] == elm
    ensures r == if i == 1 then null else q[i - 1]
  {
    assert elm.back == q[i - 1];
    r := if elm.back == head then null else elm.back;
  }

  method ListRemove(elm: Cell, ghost q: seq<Cell>, ghost i: nat)
    requires List(q) && 1 <= i < |q| && q[i] == elm
    modifies q
    ensures List(Delete(q, i))
  {
    assert elm.back == q[i - 1] && (i + 1 < |q| ==> elm.next == q[i + 1]);
    if elm.next != null {
      elm.next.back := elm.back;
    }
    elm.back.next := elm.next;
  }

  method ListConcat(head1: Cell, head2: Cell, ghost q: seq<Cell>, ghost r: seq<Cell>)
    requires List(q) && q[0] == head1 && List(r) && r[0] == head2 && Apart(q, r)
    modifies q, r
    ensures List(Join(q, r)) && List([head2])
  {
    assert (|q| > 1 ==> head1.next == q[1]) && (|r| > 1 ==> head2.next == r[1]);
    var curelm := head1.next;
    if curelm == null {
      head1.next := head2.next;
      if head1.next != null {
        head2.next.back := head1;
        SlistInit(head2);
      }
    } else if head2.next != null {
      curelm := FindBefore(head1, null, q, |q| - 1);
      curelm.next := head2.next;
      head2.next.back := curelm;
      SlistInit(head2);
    }
  }

  method ListSwap(head1: Cell, head2: Cell, ghost q: seq<Cell>, ghost r: seq<Cell>)
    requires List(q) && q[0] == head1 && List(r) && r[0] == head2 && Apart(q, r)
    modifies q, r
    ensures List(Join([head1], r)) && List(Join([head2], q))
  {
    assert (|q| > 1 ==> head1.next == q[1]) && (|r| > 1 ==> head2.next == r[1]);
    var tmp := head1.next;
    head1.next := head2.next;
    head2.next := tmp;
    tmp := head1.next;
    if tmp != null {
      tmp.back := head1;
    }
    tmp := head2.next;
    if tmp != null {
      tmp.back := head2;
    }
  }

  method ListInsert(head: Cell, place: Place, elm: Cell, ghost q: seq<Cell>, ghost i: nat)
    requires List(q) && q[0] == head && elm !in q && IsAt(place, q, i) && place != AtTail
    modifies q, elm
    ensures List(Insert(q, i, elm))
  {
    match place {
      case AtHead => ListInsertHead(head, elm, q);
      case After(at) => ListInsertAfter(at, elm, q, i - 1);
      case Before(at) => ListInsertBefore(at, elm, q, i);
    }
  }

  /** The same for a LIST, which has every insert but the one at the tail. */
  method ListInsertThenRemove(head: Cell, place: Place, elm: Cell, ghost q: seq<Cell>, ghost i: nat)
    requires List(q) && q[0] == head && elm !in q && IsAt(place, q, i) && place != AtTail
    modifies q, elm
    ensures List(q) && q[0].next == old(q[0].next)
    ensures forall k :: 1 <= k < |q| ==> q[k].next == old(q[k].next) && q[k].back == old(q[k].back)
  {
    ListInsert(head, place, elm, q, i);
    ListRemove(elm, Insert(q, i, elm), i);
    InsertDelete(q, i, elm);
    LinksDetermined(q);
  }
}
