/**
 The list sort of warmup1: an adjacent swap that frees both elements and makes
 new ones, and a bubble sort that stops at the first pass without a swap and
 fails on equal timestamps.
 */
module BubbleSort {
  import opened List402

  datatype Entry = Entry(timestamp: int, line: int, amount: int)

  datatype Outcome = Sorted | WrongLength | Identical(line1: int, line2: int)

  // ---- sequences ----

  // Every entry from position m on is later than all entries before it
  ghost predicate Settled(s: seq<Entry>, m: int) {
    forall x, y | 0 <= x < y < |s| && m <= y :: s[x].timestamp < s[y].timestamp
  }

  ghost predicate Ascending(s: seq<Entry>) {
    Settled(s, 0)
  }

  ghost predicate AllDiffer(s: seq<Entry>) {
    forall x, y | 0 <= x < y < |s| :: s[x].timestamp != s[y].timestamp
  }

  // Position j holds the latest entry of the first j + 1
  ghost predicate Latest(s: seq<Entry>, j: nat)
    requires j < |s|
  {
    forall x | 0 <= x < j :: s[x].timestamp < s[j].timestamp
  }

  ghost predicate AscendingTo(s: seq<Entry>, j: nat)
    requires j < |s|
  {
    forall x, y | 0 <= x < y <= j :: s[x].timestamp < s[y].timestamp
  }

  function Swapped(s: seq<Entry>, j: nat): seq<Entry>
    requires j + 1 < |s|
  {
    s[j := s[j + 1]][j + 1 := s[j]]
  }

  // One comparison of a pass
  lemma TurnKeeps(s: seq<Entry>, j: nat, m: nat)
    requires j + 1 < m <= |s| && Settled(s, m) && Latest(s, j) && s[j].timestamp != s[j + 1].timestamp
    ensures var r := if s[j].timestamp > s[j + 1].timestamp then Swapped(s, j) else s;
            Settled(r, m) && Latest(r, j + 1) && multiset(r) == multiset(s)
  {
  }

  // Two entries, from the given lines, have the same timestamp
  ghost predicate Clash(s: seq<Entry>, line1: int, line2: int) {
    exists x, y ::
      0 <= x < |s| && 0 <= y < |s| && x != y && s[x].timestamp == s[y].timestamp && s[x].line == line1
        && s[y].line == line2
  }

  // Equal timestamps survive any reordering
  lemma ClashReordered(s: seq<Entry>, r: seq<Entry>, line1: int, line2: int)
    requires multiset(s) == multiset(r) && Clash(r, line1, line2)
    ensures Clash(s, line1, line2)
  {
    var x, y :| 0 <= x < |r| && 0 <= y < |r| && x != y && r[x].timestamp == r[y].timestamp && r[x].line == line1
      && r[y].line == line2;
    if r[x] == r[y] {
      TwiceIn(r, x, y);
      var u, v := TwoPlaces(s, r[x]);
    } else {
      assert r[x] in multiset(s) && r[y] in multiset(s);
      var u :| 0 <= u < |s| && s[u] == r[x];
      var v :| 0 <= v < |s| && s[v] == r[y];
      assert u != v;
    }
  }

  lemma TwiceIn(r: seq<Entry>, x: nat, y: nat)
    requires x < |r| && y < |r| && x != y && r[x] == r[y]
    ensures multiset(r)[r[x]] >= 2
  {
    var a, b := if x < y then x else y, if x < y then y else x;
    assert r == r[..b] + [r[b]] + r[b + 1..];
    assert r[a] in r[..b];
  }

  lemma AscendingDiffer(s: seq<Entry>, r: seq<Entry>)
    requires multiset(s) == multiset(r) && Ascending(r)
    ensures AllDiffer(s)
  {
    forall x, y | 0 <= x < y < |s|
      ensures s[x].timestamp != s[y].timestamp
    {
      if s[x].timestamp == s[y].timestamp {
        assert Clash(s, s[x].line, s[y].line);
        ClashReordered(r, s, s[x].line, s[y].line);
        assert false;
      }
    }
  }

  lemma {:induction false} TwoPlaces(s: seq<Entry>, e: Entry) returns (u: nat, v: nat)
    requires multiset(s)[e] >= 2
    ensures u < v < |s| && s[u] == e && s[v] == e
  {
    assert s == [s[0]] + s[1..];
    if s[0] == e {
      assert e in multiset(s[1..]);
      v :| 1 <= v < |s| && s[v] == e;
      u := 0;
    } else {
      u, v := TwoPlaces(s[1..], e);
      u, v := u + 1, v + 1;
    }
  }

  // ---- the list ----

  function Without<X>(s: seq<X>, j: nat): seq<X>
    requires j < |s|
  {
    s[..j] + s[j + 1..]
  }

  function With<X>(s: seq<X>, j: nat, x: X): seq<X>
    requires j <= |s|
  {
    s[..j] + [x] + s[j..]
  }

  lemma OutAndIn<X>(s: seq<X>, j: nat, x: X, y: X)
    requires j + 1 < |s|
    ensures With(With(Without(Without(s, j), j), j, x), j + 1, y) == s[j := x][j + 1 := y]
  {
    assert Without(Without(s, j), j) == s[..j] + s[j + 2..];
  }

  // Links obj in after prev, or first, and returns its element
  method PutAfter(list: List<Entry>, obj: Entry, prev: Elem?<Entry>, ghost j: nat) returns (e: Elem<Entry>)
    requires list.Valid() && j <= |list.nodes| && (if prev == null then j == 0 else j > 0 && list.nodes[j - 1] == prev)
    modifies list`numMembers, list`nodes, list.anchor`next, list.anchor`prev, list.nodes`next, list.nodes`prev
    ensures list.Valid() && fresh(e) && list.nodes == With(old(list.nodes), j, e)
    ensures list.Contents() == With(old(list.Contents()), j, obj)
  {
    hide Linked, Objects, Distinct;
    var r: Elem?<Entry>;
    if prev == null {
      var _, _ := list.Prepend(obj);
      r := list.First();
    } else {
      var _, _ := list.InsertAfter(obj, prev, j - 1);
      r := list.Next(prev, j - 1);
    }
    e := r;
  }

  // Links obj in before next, or last
  method PutBefore(list: List<Entry>, obj: Entry, next: Elem?<Entry>, ghost j: nat) returns (e: Elem<Entry>)
    requires list.Valid() && j <= |list.nodes|
             && (if next == null then j == |list.nodes| else j < |list.nodes| && list.nodes[j] == next)
    modifies list`numMembers, list`nodes, list.anchor`next, list.anchor`prev, list.nodes`next, list.nodes`prev
    ensures list.Valid() && fresh(e) && list.nodes == With(old(list.nodes), j, e)
    ensures list.Contents() == With(old(list.Contents()), j, obj)
  {
    hide Linked, Objects, Distinct;
    var r: Elem?<Entry>;
    if next == null {
      var _, _ := list.Append(obj);
      r := list.Last();
    } else {
      var _, _ := list.InsertBefore(obj, next, j);
      r := list.Prev(next, j + 1);
    }
    e := r;
  }

  // Swaps the entries at positions j and j + 1 by unlinking both elements
  // and linking new ones in their places
  method BubbleForward(list: List<Entry>, elem1: Elem<Entry>, elem2: Elem<Entry>, ghost j: nat)
    returns (new1: Elem<Entry>, new2: Elem<Entry>)
    requires list.Valid() && j + 1 < |list.nodes| && list.nodes[j] == elem1 && list.nodes[j + 1] == elem2
    modifies list`numMembers, list`nodes, list.anchor`next, list.anchor`prev, list.nodes`next, list.nodes`prev
    ensures list.Valid() && fresh(new1) && fresh(new2) && list.nodes == old(list.nodes)[j := new1][j + 1 := new2]
    ensures list.Contents() == Swapped(old(list.Contents()), j)
  {
    hide Linked, Objects, Distinct, With, Without;
    var obj1, obj2 := elem1.obj, elem2.obj;
    var elem1prev := list.Prev(elem1, j);
    var elem2next := list.Next(elem2, j + 1);
    ghost var n, c := list.nodes, list.Contents();
    TakeOut(list, elem1, elem2, j);
    assert forall i | 0 <= i < |list.nodes| :: list.nodes[i] in n;
    new1, new2 := PutBoth(list, obj1, obj2, elem1prev, elem2next, j);
    OutAndIn(n, j, new1, new2);
    OutAndIn(c, j, obj2, obj1);
  }

  method PutBoth(list: List<Entry>, obj1: Entry, obj2: Entry, prev: Elem?<Entry>, next: Elem?<Entry>, ghost j: nat)
    returns (new1: Elem<Entry>, new2: Elem<Entry>)
    requires list.Valid() && j <= |list.nodes| && (if prev == null then j == 0 else j > 0 && list.nodes[j - 1] == prev)
    requires if next == null then j == |list.nodes| else j < |list.nodes| && list.nodes[j] == next
    modifies list`numMembers, list`nodes, list.anchor`next, list.anchor`prev, list.nodes`next, list.nodes`prev
    ensures list.Valid() && fresh(new1) && fresh(new2) && |With(old(list.nodes), j, new1)| == |old(list.nodes)| + 1
    ensures |old(list.Contents())| == |old(list.nodes)|
            && |With(old(list.Contents()), j, obj2)| == |old(list.nodes)| + 1
    ensures list.nodes == With(With(old(list.nodes), j, new1), j + 1, new2)
    ensures list.Contents() == With(With(old(list.Contents()), j, obj2), j + 1, obj1)
  {
    hide Linked, Objects, Distinct, With;
    ghost var n := list.nodes;
    new1 := PutAfter(list, obj2, prev, j);
    WithAt(n, j, new1);
    WithAt(old(list.Contents()), j, obj2);
    assert forall i | 0 <= i < |list.nodes| :: list.nodes[i] in n || fresh(list.nodes[i]);
    new2 := PutBefore(list, obj1, next, j + 1);
  }

  lemma WithAt<X>(s: seq<X>, j: nat, x: X)
    requires j <= |s|
    ensures |With(s, j, x)| == |s| + 1 && (j < |s| ==> With(s, j, x)[j + 1] == s[j])
    ensures forall i | 0 <= i < |With(s, j, x)| :: With(s, j, x)[i] == x || With(s, j, x)[i] in s
  {
  }

  method TakeOut(list: List<Entry>, elem1: Elem<Entry>, elem2: Elem<Entry>, ghost j: nat)
    requires list.Valid() && j + 1 < |list.nodes| && list.nodes[j] == elem1 && list.nodes[j + 1] == elem2
    modifies list`numMembers, list`nodes, list.anchor`next, list.anchor`prev, list.nodes`next, list.nodes`prev
    ensures list.Valid() && list.nodes == Without(Without(old(list.nodes), j), j)
    ensures |list.nodes| == |old(list.nodes)| - 2
    ensures forall i | 0 <= i < |list.nodes| :: list.nodes[i] == old(list.nodes)[if i < j then i else i + 2]
    ensures list.Contents() == Without(Without(old(list.Contents()), j), j)
  {
    hide Linked, Objects, Distinct;
    list.Unlink(elem1, j);
    list.Unlink(elem2, j);
  }

  // ---- the sort ----

  // One comparison at position j; the result is the element at j + 1
  method Turn(list: List<Entry>, elem: Elem<Entry>, ghost j: nat)
    returns (outcome: Outcome, next: Elem<Entry>, swapped: bool)
    requires list.Valid() && j + 1 < |list.nodes| && list.nodes[j] == elem
    modifies list`numMembers, list`nodes, list.anchor`next, list.anchor`prev, list.nodes`next, list.nodes`prev
    ensures list.Valid() && |list.nodes| == |old(list.nodes)| && next == list.nodes[j + 1]
    ensures forall i | 0 <= i < |list.nodes| :: list.nodes[i] in old(list.nodes) || fresh(list.nodes[i])
    ensures var s := old(list.Contents());
            && |s| == |list.nodes| && |list.Contents()| == |s|
            && (swapped <==> s[j].timestamp > s[j + 1].timestamp)
            && list.Contents() == (if swapped then Swapped(s, j) else s)
            && outcome == if s[j].timestamp == s[j + 1].timestamp then Identical(s[j].line, s[j + 1].line) else Sorted
  {
    hide Linked, Objects, Distinct;
    outcome, swapped := Sorted, false;
    var curObj := elem.obj;
    var succ := list.Next(elem, j);
    next := succ;
    var nextObj := next.obj;
    if curObj.timestamp == nextObj.timestamp {
      outcome := Identical(curObj.line, nextObj.line);
      return;
    }
    if curObj.timestamp > nextObj.timestamp {
      var _, e2 := BubbleForward(list, elem, next, j);
      next := e2;
      swapped := true;
    }
  }

  // What holds after j comparisons of a pass over the first m entries
  ghost predicate PassOk(s: seq<Entry>, was: seq<Entry>, j: nat, m: nat, swapped: bool) {
    && j < m <= |s| && multiset(s) == multiset(was) && Settled(s, m) && Latest(s, j)
    && (!swapped ==> AscendingTo(s, j))
  }

  lemma PassTurn(s: seq<Entry>, was: seq<Entry>, j: nat, m: nat, swapped: bool)
    requires PassOk(s, was, j, m, swapped) && j + 1 < m && s[j].timestamp != s[j + 1].timestamp
    ensures s[j].timestamp > s[j + 1].timestamp ==> PassOk(Swapped(s, j), was, j + 1, m, true)
    ensures s[j].timestamp < s[j + 1].timestamp ==> PassOk(s, was, j + 1, m, swapped)
  {
    TurnKeeps(s, j, m);
  }

  lemma PassEnd(s: seq<Entry>, was: seq<Entry>, m: nat, swapped: bool)
    requires 1 <= m && PassOk(s, was, m - 1, m, swapped)
    ensures Settled(s, m - 1) && (!swapped ==> Ascending(s))
  {
  }

  // One pass over the first m entries
  method Pass(list: List<Entry>, m: nat) returns (outcome: Outcome, swapped: bool)
    requires list.Valid() && 1 <= m <= |list.nodes| && Settled(list.Contents(), m)
    modifies list`numMembers, list`nodes, list.anchor`next, list.anchor`prev, list.nodes`next, list.nodes`prev
    ensures list.Valid() && |list.nodes| == |old(list.nodes)|
            && multiset(list.Contents()) == multiset(old(list.Contents()))
    ensures forall i | 0 <= i < |list.nodes| :: list.nodes[i] in old(list.nodes) || fresh(list.nodes[i])
    ensures outcome == Sorted ==> Settled(list.Contents(), m - 1) && (!swapped ==> Ascending(list.Contents()))
    ensures outcome == Sorted || (outcome.Identical? && Clash(list.Contents(), outcome.line1, outcome.line2))
  {
    hide Linked, Objects, Distinct, PassOk, Settled, Ascending;
    ghost var was, n := list.Contents(), |list.nodes|;
    swapped := false;
    var first := list.First();
    var elem: Elem<Entry> := first;
    PassStart(was, m);
    var j := 0;
    while j < m - 1
      invariant list.Valid() && 0 <= j <= m - 1 && |list.nodes| == n && elem == list.nodes[j]
      invariant forall i | 0 <= i < |list.nodes| :: list.nodes[i] in old(list.nodes) || fresh(list.nodes[i])
      invariant PassOk(list.Contents(), was, j, m, swapped)
    {
      ghost var s := list.Contents();
      var o, next, sw := Turn(list, elem, j);
      if o != Sorted {
        outcome := o;
        ClashAt(s, was, j, m, swapped);
        return;
      }
      PassTurn(s, was, j, m, swapped);
      swapped := swapped || sw;
      elem := next;
      j := j + 1;
    }
    PassEnd(list.Contents(), was, m, swapped);
    PassSame(list.Contents(), was, m - 1, m, swapped);
    outcome := Sorted;
  }

  lemma PassStart(s: seq<Entry>, m: nat)
    requires 1 <= m <= |s| && Settled(s, m)
    ensures PassOk(s, s, 0, m, false)
  {
  }

  lemma PassSame(s: seq<Entry>, was: seq<Entry>, j: nat, m: nat, swapped: bool)
    requires PassOk(s, was, j, m, swapped)
    ensures multiset(s) == multiset(was)
  {
  }

  lemma ClashAt(s: seq<Entry>, was: seq<Entry>, j: nat, m: nat, swapped: bool)
    requires PassOk(s, was, j, m, swapped) && j + 1 < |s| && s[j].timestamp == s[j + 1].timestamp
    ensures Clash(s, s[j].line, s[j + 1].line) && multiset(s) == multiset(was)
  {
  }

  // Returns normally exactly when all timestamps differ, with the same
  // entries in ascending order on a well-formed list
  method BubbleSortForwardList(list: List<Entry>, numItems: int) returns (outcome: Outcome)
    requires list.Valid()
    modifies list`numMembers, list`nodes, list.anchor`next, list.anchor`prev, list.nodes`next, list.nodes`prev
    ensures list.Valid() && |list.nodes| == |old(list.nodes)|
            && multiset(list.Contents()) == multiset(old(list.Contents()))
    ensures outcome == WrongLength <==> numItems != |old(list.nodes)|
    ensures outcome == WrongLength ==> list.nodes == old(list.nodes)
    ensures outcome == Sorted <==> numItems == |old(list.nodes)| && AllDiffer(old(list.Contents()))
    ensures outcome == Sorted ==> Ascending(list.Contents())
    ensures outcome.Identical? ==> Clash(old(list.Contents()), outcome.line1, outcome.line2)
  {
    hide Linked, Objects, Distinct, Settled, AllDiffer, Clash;
    var len := list.Length();
    if len != numItems {
      return WrongLength;
    }
    ghost var was, n := list.Contents(), |list.nodes|;
    SettledEnd(was);
    var i := 0;
    outcome := Sorted;
    while i < numItems
      invariant list.Valid() && 0 <= i <= n == numItems && |list.nodes| == n && outcome == Sorted
      invariant forall k | 0 <= k < |list.nodes| :: list.nodes[k] in old(list.nodes) || fresh(list.nodes[k])
      invariant Settled(list.Contents(), n - i) && multiset(list.Contents()) == multiset(was)
    {
      var o, swapped := Pass(list, numItems - i);
      if o != Sorted {
        ClashReordered(was, list.Contents(), o.line1, o.line2);
        ClashNotDiffer(was, o.line1, o.line2);
        return o;
      }
      if !swapped {
        break;
      }
      i := i + 1;
    }
    AscendingDiffer(was, list.Contents());
  }

  lemma SettledEnd(s: seq<Entry>)
    ensures Settled(s, |s|)
  {
  }

  lemma ClashNotDiffer(s: seq<Entry>, line1: int, line2: int)
    requires Clash(s, line1, line2)
    ensures !AllDiffer(s)
  {
    var x, y :| 0 <= x < |s| && 0 <= y < |s| && x != y && s[x].timestamp == s[y].timestamp && s[x].line == line1
      && s[y].line == line2;
    assert x < y || y < x;
  }
}
