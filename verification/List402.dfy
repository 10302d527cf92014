/**
 The circular doubly linked list of my402list.c: elements on the heap, linked
 through an anchor that belongs to the list.  An empty list puts no condition
 on the anchor's links: My402ListInit clears them, unlinking the last element
 leaves them pointing at the anchor itself.
 */
module List402 {
  class Elem<T> {
    var obj: T
    var next: Elem?<T>
    var prev: Elem?<T>

    constructor (obj: T)
      ensures this.obj == obj
    {
      this.obj := obj;
      next, prev := null, null;
    }
  }

  // Each element of r points to its neighbours in r
  ghost predicate Linked<T>(r: seq<Elem<T>>)
    reads r
  {
    forall i {:trigger r[i].next} {:trigger r[i + 1].prev} | 0 <= i < |r| - 1 ::
      r[i].next == r[i + 1] && r[i + 1].prev == r[i]
  }

  ghost predicate Distinct<T>(r: seq<Elem<T>>) {
    forall i, j | 0 <= i < j < |r| :: r[i] != r[j]
  }

  // Linked everywhere but from position k to k + 1, up to position m
  ghost predicate LinkedBut<T>(r: seq<Elem<T>>, k: nat, m: nat)
    reads r
  {
    forall i {:trigger r[i].next} {:trigger r[i + 1].prev} | 0 <= i < |r| - 1 && !(k <= i <= m) ::
      r[i].next == r[i + 1] && r[i + 1].prev == r[i]
  }

  // Linking e in between positions k and k + 1 of a ring
  lemma LinkedIn<T>(r: seq<Elem<T>>, k: nat, e: Elem<T>)
    requires k < |r| - 1 && LinkedBut(r, k, k)
    requires r[k].next == e && r[k + 1].prev == e && e.next == r[k + 1] && e.prev == r[k]
    ensures Linked(r[..k + 1] + [e] + r[k + 1..])
  {
    var s := r[..k + 1] + [e] + r[k + 1..];
    forall i | 0 <= i < |s| - 1
      ensures s[i].next == s[i + 1] && s[i + 1].prev == s[i]
    {
      if i < k {
        assert r[i].next == r[i + 1] && r[i + 1].prev == r[i];
      } else if i > k + 1 {
        assert r[i - 1].next == r[i] && r[i].prev == r[i - 1];
      }
    }
  }

  // Unlinking the element at position k of a ring
  lemma LinkedOut<T>(r: seq<Elem<T>>, k: nat)
    requires 0 < k < |r| - 1 && LinkedBut(r, k - 1, k)
    requires r[k - 1].next == r[k + 1] && r[k + 1].prev == r[k - 1]
    ensures Linked(r[..k] + r[k + 1..])
  {
    var s := r[..k] + r[k + 1..];
    forall i | 0 <= i < |s| - 1
      ensures s[i].next == s[i + 1] && s[i + 1].prev == s[i]
    {
      if i < k - 1 {
        assert r[i].next == r[i + 1] && r[i + 1].prev == r[i];
      } else if i >= k {
        assert r[i + 1].next == r[i + 2] && r[i + 2].prev == r[i + 1];
      }
    }
  }

  ghost function Objects<T>(nodes: seq<Elem<T>>): (s: seq<T>)
    reads nodes`obj
    ensures |s| == |nodes| && forall i | 0 <= i < |s| :: s[i] == nodes[i].obj
  {
    if nodes == [] then [] else [nodes[0].obj] + Objects(nodes[1..])
  }

  lemma ObjectsConcat<T>(a: seq<Elem<T>>, b: seq<Elem<T>>)
    ensures Objects(a + b) == Objects(a) + Objects(b)
  {
    hide Objects;
  }

  lemma ObjectsInsert<T>(a: seq<Elem<T>>, k: nat, e: Elem<T>)
    requires k <= |a|
    ensures Objects(a[..k] + [e] + a[k..]) == Objects(a)[..k] + [e.obj] + Objects(a)[k..]
  {
    assert a == a[..k] + a[k..];
    ObjectsConcat(a[..k], a[k..]);
    ObjectsConcat(a[..k] + [e], a[k..]);
    ObjectsConcat(a[..k], [e]);
    assert Objects([e]) == [e.obj];
    hide Objects;
  }

  lemma ObjectsRemove<T>(a: seq<Elem<T>>, k: nat)
    requires k < |a|
    ensures Objects(a[..k] + a[k + 1..]) == Objects(a)[..k] + Objects(a)[k + 1..]
  {
    assert a == a[..k] + a[k..] && a == a[..k + 1] + a[k + 1..];
    ObjectsConcat(a[..k], a[k..]);
    ObjectsConcat(a[..k + 1], a[k + 1..]);
    ObjectsConcat(a[..k], a[k + 1..]);
    hide Objects;
  }

  class List<T(0,==)> {
    var numMembers: int
    const anchor: Elem<T>
    ghost var nodes: seq<Elem<T>>

    // The way round: from the anchor through the elements back to the anchor
    ghost function Ring(): seq<Elem<T>>
      reads this
    {
      [anchor] + nodes + [anchor]
    }

    ghost predicate Valid()
      reads this, anchor, nodes
    {
      && numMembers == |nodes| && anchor !in nodes && Distinct(nodes)
      && (nodes != [] ==> Linked(Ring()))
    }

    ghost function Contents(): seq<T>
      reads this, nodes`obj
    {
      Objects(nodes)
    }

    constructor ()
      ensures Valid() && nodes == [] && fresh(anchor)
    {
      numMembers := 0;
      nodes := [];
      var o: T := *;
      anchor := new Elem(o);
    }

    method Init()
      modifies this, anchor
      ensures Valid() && nodes == []
    {
      numMembers := 0;
      anchor.prev := null;
      anchor.next := null;
      nodes := [];
    }

    method Length() returns (n: int)
      requires Valid()
      ensures n == |nodes|
    {
      n := numMembers;
    }

    method Empty() returns (b: bool)
      requires Valid()
      ensures b <==> nodes == []
    {
      b := numMembers == 0;
    }

    method First() returns (e: Elem?<T>)
      requires Valid()
      ensures e == if nodes == [] then null else nodes[0]
    {
      var empty := Empty();
      if empty {
        return null;
      }
      assert Ring()[0].next == Ring()[1];
      e := anchor.next;
    }

    method Last() returns (e: Elem?<T>)
      requires Valid()
      ensures e == if nodes == [] then null else nodes[|nodes| - 1]
    {
      var empty := Empty();
      if empty {
        return null;
      }
      assert Ring()[|nodes| + 1].prev == Ring()[|nodes|];
      e := anchor.prev;
    }

    // The successor of the element at position k, or of no element in an
    // empty list
    method Next(cur: Elem?<T>, ghost k: int) returns (e: Elem?<T>)
      requires Valid()
      requires (cur == null && nodes == []) || (0 <= k < |nodes| && nodes[k] == cur)
      ensures e == if nodes == [] || k == |nodes| - 1 then null else nodes[k + 1]
    {
      var last := Last();
      if last == cur {
        return null;
      }
      assert Ring()[k + 1].next == Ring()[k + 2];
      e := cur.next;
    }

    method Prev(cur: Elem?<T>, ghost k: int) returns (e: Elem?<T>)
      requires Valid()
      requires (cur == null && nodes == []) || (0 <= k < |nodes| && nodes[k] == cur)
      ensures e == if nodes == [] || k == 0 then null else nodes[k - 1]
    {
      var first := First();
      if first == cur {
        return null;
      }
      assert Ring()[k + 1].prev == Ring()[k];
      e := cur.prev;
    }

    // Links e in between neighbours p and n, at position k
    method LinkBetween(p: Elem<T>, e: Elem<T>, n: Elem<T>, ghost k: nat)
      requires Valid() && k <= |nodes| && p == Ring()[k] && n == Ring()[k + 1] && e !in nodes && e != anchor
      modifies this`numMembers, this`nodes, anchor`next, anchor`prev, nodes`next, nodes`prev, e`next, e`prev
      ensures Valid() && nodes == old(nodes)[..k] + [e] + old(nodes)[k..]
    {
      ghost var r := Ring();
      numMembers := numMembers + 1;
      e.prev := p;
      e.next := n;
      p.next := e;
      n.prev := e;
      assert LinkedBut(r, k, k);
      LinkedIn(r, k, e);
      nodes := nodes[..k] + [e] + nodes[k..];
      assert Ring() == r[..k + 1] + [e] + r[k + 1..];
    }

    // The links of the element at position k
    lemma Neighbours(k: nat)
      requires Valid() && k < |nodes|
      ensures nodes[k].next == Ring()[k + 2] && nodes[k].prev == Ring()[k]
    {
      assert Ring()[k].next == Ring()[k + 1] && Ring()[k + 1].next == Ring()[k + 2];
    }

    // Takes out and frees the element at position k
    method Unlink(elem: Elem<T>, ghost k: nat)
      requires Valid() && k < |nodes| && nodes[k] == elem
      modifies this`numMembers, this`nodes, anchor`next, anchor`prev, nodes`next, nodes`prev
      ensures Valid() && nodes == old(nodes)[..k] + old(nodes)[k + 1..]
      ensures Contents() == old(Contents())[..k] + old(Contents())[k + 1..]
    {
      hide Objects;
      ObjectsRemove(nodes, k);
      Neighbours(k);
      var prev := elem.prev;
      var next := elem.next;
      Bypass(prev, elem, next, k);
      elem.prev := null;
      elem.next := null;
      numMembers := numMembers - 1;
    }

    method Bypass(prev: Elem<T>, elem: Elem<T>, next: Elem<T>, ghost k: nat)
      requires Valid() && k < |nodes| && nodes[k] == elem && prev == Ring()[k] && next == Ring()[k + 2]
      modifies this`nodes, anchor`next, anchor`prev, nodes`next, nodes`prev
      ensures nodes == old(nodes)[..k] + old(nodes)[k + 1..] && elem !in nodes && anchor !in nodes && Distinct(nodes)
              && Linked(Ring())
    {
      ghost var r := Ring();
      prev.next := next;
      next.prev := prev;
      assert LinkedBut(r, k, k + 1);
      LinkedOut(r, k + 1);
      nodes := nodes[..k] + nodes[k + 1..];
      assert Ring() == r[..k + 1] + r[k + 2..];
    }

    method Append(obj: T) returns (ok: bool, ghost e: Elem<T>)
      requires Valid()
      modifies this`numMembers, this`nodes, anchor`next, anchor`prev, nodes`next, nodes`prev
      ensures Valid() && ok && nodes == old(nodes) + [e] && fresh(e)
      ensures Contents() == old(Contents()) + [obj]
    {
      hide Objects, Linked, Distinct;
      var newElem := new Elem(obj);
      e := newElem;
      ObjectsInsert(nodes, |nodes|, e);
      var empty := Empty();
      if empty {
        LinkBetween(anchor, newElem, anchor, 0);
        return true, e;
      }
      var last := Last();
      LinkBetween(last, newElem, anchor, |nodes|);
      ok := true;
    }

    method Prepend(obj: T) returns (ok: bool, ghost e: Elem<T>)
      requires Valid()
      modifies this`numMembers, this`nodes, anchor`next, anchor`prev, nodes`next, nodes`prev
      ensures Valid() && ok && nodes == [e] + old(nodes) && fresh(e)
      ensures Contents() == [obj] + old(Contents())
    {
      hide Objects, Linked, Distinct;
      var newElem := new Elem(obj);
      e := newElem;
      ObjectsInsert(nodes, 0, e);
      var empty := Empty();
      if empty {
        LinkBetween(anchor, newElem, anchor, 0);
        return true, e;
      }
      var first := First();
      LinkBetween(anchor, newElem, first, 0);
      ok := true;
    }

    method InsertAfter(obj: T, elem: Elem?<T>, ghost k: int) returns (ok: bool, ghost e: Elem<T>)
      requires Valid() && (elem != null ==> 0 <= k < |nodes| && nodes[k] == elem)
      modifies this`numMembers, this`nodes, anchor`next, anchor`prev, nodes`next, nodes`prev
      ensures Valid() && ok && fresh(e)
      ensures nodes == if elem == null then old(nodes) + [e] else old(nodes)[..k + 1] + [e] + old(nodes)[k + 1..]
      ensures Contents() == if elem == null then old(Contents()) + [obj]
              else old(Contents())[..k + 1] + [obj] + old(Contents())[k + 1..]
    {
      hide Objects, Linked, Distinct;
      if elem == null {
        ok, e := Append(obj);
        return;
      }
      var newElem := new Elem(obj);
      e := newElem;
      Neighbours(k);
      ObjectsInsert(nodes, k + 1, e);
      LinkBetween(elem, newElem, elem.next, k + 1);
      ok := true;
    }

    method InsertBefore(obj: T, elem: Elem?<T>, ghost k: int) returns (ok: bool, ghost e: Elem<T>)
      requires Valid() && (elem != null ==> 0 <= k < |nodes| && nodes[k] == elem)
      modifies this`numMembers, this`nodes, anchor`next, anchor`prev, nodes`next, nodes`prev
      ensures Valid() && ok && fresh(e)
      ensures nodes == if elem == null then [e] + old(nodes) else old(nodes)[..k] + [e] + old(nodes)[k..]
      ensures Contents() == if elem == null then [obj] + old(Contents())
              else old(Contents())[..k] + [obj] + old(Contents())[k..]
    {
      hide Objects, Linked, Distinct;
      if elem == null {
        ok, e := Prepend(obj);
        return;
      }
      var newElem := new Elem(obj);
      e := newElem;
      Neighbours(k);
      ObjectsInsert(nodes, k, e);
      LinkBetween(elem.prev, newElem, elem, k);
      ok := true;
    }

    method UnlinkAll()
      requires Valid()
      modifies this, anchor, nodes
      ensures Valid() && nodes == []
    {
      hide Objects, Linked, Distinct;
      var cur := First();
      var curNext := Next(cur, 0);
      while cur != null
        invariant Valid() && |nodes| <= |old(nodes)| && nodes == old(nodes)[|old(nodes)| - |nodes|..]
        invariant cur == if nodes == [] then null else nodes[0]
        invariant curNext == if |nodes| <= 1 then null else nodes[1]
        decreases |nodes|
      {
        Unlink(cur, 0);
        cur := curNext;
        curNext := Next(curNext, 0);
      }
      Init();
    }

    // The first element that holds obj
    method Find(obj: T) returns (e: Elem?<T>)
      requires Valid()
      ensures e == null <==> obj !in Contents()
      ensures e != null ==> exists k ::
              0 <= k < |nodes| && nodes[k] == e && Contents()[k] == obj && obj !in Contents()[..k]
    {
      ghost var k := 0;
      var cur := First();
      while cur != null
        invariant 0 <= k <= |nodes| && obj !in Contents()[..k]
        invariant cur == if k == |nodes| then null else nodes[k]
        decreases |nodes| - k
      {
        if cur.obj == obj {
          return cur;
        }
        cur := Next(cur, k);
        k := k + 1;
      }
      e := null;
    }
  }
}
