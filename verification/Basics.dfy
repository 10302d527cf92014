/**
 Notions that several parts of the model share.
 */
module Basics {

  // Machine words have 32 bits
  const WORD: nat := 0x1_0000_0000

  datatype Option<+T> = None | Some(value: T)

  ghost predicate NoDup(s: seq<nat>) {
    forall i, j | 0 <= i < j < |s| :: s[i] != s[j]
  }

  lemma NoDupPrepend(s: seq<nat>, x: nat)
    requires NoDup(s) && x !in s
    ensures NoDup([x] + s) && NoDup(s + [x])
  {
  }

  // list_remove of the first, and in these lists only, link of t
  function Erase(s: seq<nat>, t: nat): seq<nat> {
    if s == [] then [] else if s[0] == t then s[1..] else [s[0]] + Erase(s[1..], t)
  }

  lemma {:induction false} EraseIn(s: seq<nat>, t: nat, x: nat)
    requires NoDup(s)
    ensures x in Erase(s, t) <==> x in s && x != t
  {
    if s != [] {
      assert NoDup(s[1..]);
      assert x in s <==> x == s[0] || x in s[1..];
      if s[0] == t {
        assert t !in s[1..];
      } else {
        EraseIn(s[1..], t, x);
      }
    }
  }

  lemma {:induction false} EraseNoDup(s: seq<nat>, t: nat)
    requires NoDup(s)
    ensures NoDup(Erase(s, t)) && |Erase(s, t)| == |s| - if t in s then 1 else 0
  {
    if s != [] {
      assert NoDup(s[1..]);
      assert t in s <==> t == s[0] || t in s[1..];
      if s[0] == t {
        assert t !in s[1..];
      } else {
        EraseNoDup(s[1..], t);
        EraseIn(s[1..], t, s[0]);
      }
    }
  }
}
