// The queue of terms whose intervals changed: a list linked through the terms themselves.
module TermLists {

  // The part of a term that the list uses.
  class LinkedTerm {
    var next: LinkedTerm?
    var prev: LinkedTerm?

    constructor ()
      ensures next == null && prev == null
    {
      next := null;
      prev := null;
    }
  }

  class TermList {
    var first: LinkedTerm?
    var last: LinkedTerm?
    // The terms in the queue, first to last, out of all the terms there are.
    ghost var elements: seq<LinkedTerm>
    ghost const terms: set<LinkedTerm>

    ghost predicate Valid()
      reads this, terms
    {
      && (forall i :: 0 <= i < |elements| ==> elements[i] in terms)
      && (forall i, j :: 0 <= i < j < |elements| ==> elements[i] != elements[j])
      && (if elements == [] then first == null && last == null else Linked(elements))
      && (forall t :: t in terms && t !in elements ==> t.next == null && t.prev == null)
    }

    // Neighbours point at each other, and nothing else is linked.
    ghost predicate Linked(elements: seq<LinkedTerm>)
      requires elements != []
      reads this, elements
    {
      && first == elements[0] && first.prev == null
      && last == elements[|elements| - 1] && last.next == null
      && forall i, j :: 0 <= i < |elements| && 0 <= j < |elements| && j == i + 1 ==>
        elements[i].next == elements[j] && elements[j].prev == elements[i]
    }

    constructor (ghost terms: set<LinkedTerm>)
      requires forall t :: t in terms ==> t.next == null && t.prev == null
      ensures Valid() && elements == [] && this.terms == terms
    {
      first := null;
      last := null;
      elements := [];
      this.terms := terms;
    }

    // Membership shows in the links of the term, or it is the only element.
    method Contains(t: LinkedTerm) returns (found: bool)
      requires Valid() && t in terms
      ensures found <==> t in elements
    {
      if t.next != null || t.prev != null {
        return true;
      }
      forall i | 0 < i < |elements| ensures elements[i].prev != null {
        assert elements[i - 1].next == elements[i];
      }
      return t == first;
    }

    // The caller checks first that t is not in the queue.
    method Enqueue(t: LinkedTerm)
      requires Valid() && t in terms && t !in elements
      modifies this, terms
      ensures Valid() && elements == old(elements) + [t]
    {
      if first == null {
        first := t;
        last := t;
      } else {
        last.next := t;
        t.prev := last;
        last := t;
      }
      elements := elements + [t];
    }

    method Dequeue() returns (t: LinkedTerm?)
      requires Valid()
      modifies this, terms
      ensures Valid()
      ensures old(elements) == [] ==> t == null && elements == []
      ensures old(elements) != [] ==>
        t == old(elements)[0] && elements == old(elements)[1..] && t.next == null && t.prev == null
    {
      t := first;
      if t == null {
        return;
      }
      assert |elements| > 1 ==> t.next == elements[1];
      first := t.next;
      if first != null {
        first.prev := null;
      }
      t.next := null;
      t.prev := null;
      if t == last {
        last := null;
        first := null;
      }
      elements := elements[1..];
    }

    method Clear()
      requires Valid()
      modifies this, terms
      ensures Valid() && elements == []
      ensures forall t :: t in terms ==> t.next == null && t.prev == null
    {
      var cur := first;
      ghost var i := 0;
      while cur != null
        invariant 0 <= i <= |elements| && elements == old(elements)
        invariant cur == if i < |elements| then elements[i] else null
        invariant forall j :: 0 <= j < |elements| ==> elements[j] in terms
        invariant forall j, k :: 0 <= j < k < |elements| ==> elements[j] != elements[k]
        invariant forall j :: 0 <= j < i ==> elements[j].next == null && elements[j].prev == null
        invariant forall j, k :: i <= j < |elements| && 0 <= k < |elements| && k == j + 1 ==> elements[j].next == elements[k]
        invariant i < |elements| ==> elements[|elements| - 1].next == null
        invariant forall t :: t in terms && t !in elements ==> t.next == null && t.prev == null
        decreases |elements| - i
      {
        cur.prev := null;
        var next := cur.next;
        cur.next := null;
        cur := next;
        i := i + 1;
      }
      first := null;
      last := null;
      ghost var was := elements;
      elements := [];
      assert forall t :: t in was ==> t.next == null && t.prev == null;
    }

    // Queues t unless it is queued already.
    method AddChanged(t: LinkedTerm)
      requires Valid() && t in terms
      modifies this, terms
      ensures Valid() && elements == if t in old(elements) then old(elements) else old(elements) + [t]
    {
      var found := Contains(t);
      if !found {
        Enqueue(t);
      }
    }
  }
}
