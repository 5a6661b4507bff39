module Sequences {
  function Reverse(s: seq<nat>): (r: seq<nat>)
    ensures |r| == |s|
  {
    if s == [] then [] else Reverse(s[1..]) + [s[0]]
  }

  lemma ReverseEmpty()
    ensures Reverse([]) == []
  {
  }

  lemma {:induction false} ReverseAt(s: seq<nat>, k: nat)
    requires k < |s|
    ensures Reverse(s)[k] == s[|s| - 1 - k]
  {
    if k == |s| - 1 {
    } else {
      ReverseAt(s[1..], k);
    }
  }

  lemma {:induction false} ReverseAppend(s: seq<nat>, x: nat)
    ensures Reverse(s + [x]) == [x] + Reverse(s)
  {
    if s == [] {
    } else {
      assert (s + [x])[1..] == s[1..] + [x];
      ReverseAppend(s[1..], x);
    }
  }

  lemma {:induction false} ReversePermutes(s: seq<nat>)
    ensures multiset(Reverse(s)) == multiset(s)
  {
    if s == [] {
    } else {
      assert s == [s[0]] + s[1..];
      ReversePermutes(s[1..]);
    }
  }

  lemma ReverseLast(s: seq<nat>)
    requires s != []
    ensures Reverse(s) == [s[|s| - 1]] + Reverse(s[..|s| - 1])
  {
    hide Reverse;
    var prefix, last := s[..|s| - 1], s[|s| - 1];
    ReverseAppend(prefix, last);
    assert prefix + [last] == s;
  }

  /** A sequence without its element j. */
  function Without<T>(s: seq<T>, j: nat): (r: seq<T>)
    requires j < |s|
    ensures |r| == |s| - 1
    ensures forall i | 0 <= i < |r| :: r[i] == s[if i < j then i else i + 1]
  {
    s[..j] + s[j + 1..]
  }
}
