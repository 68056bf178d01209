/** Generic sequence operations: the generator comprehension with an `if` that `clean_data`
    filters characters with, and the append-when-accepted loops of the ingestors. */
module Seqs {
  import opened Wrappers

  /** The elements of `s` that satisfy `p`, in order (a generator comprehension with an `if`). */
  function Keep<T>(s: seq<T>, p: T -> bool): (r: seq<T>)
    ensures |r| <= |s|
    ensures forall x :: x in r ==> p(x)
  {
    if s == [] then []
    else (if p(s[0]) then [s[0]] else []) + Keep(s[1..], p)
  }

  /** Keep drops exactly the elements that fail `p`: an element is kept iff it is in `s`
      and passes, and nothing is added. */
  lemma {:induction false} KeepMembers<T>(s: seq<T>, p: T -> bool)
    ensures forall x :: x in Keep(s, p) <==> x in s && p(x)
    ensures multiset(Keep(s, p)) <= multiset(s)
  {
    if s != [] {
      KeepMembers(s[1..], p);
      assert s == [s[0]] + s[1..];
    }
  }

  /** Keep is the identity on a sequence all of whose elements pass. */
  lemma {:induction false} KeepAll<T>(s: seq<T>, p: T -> bool)
    requires forall x :: x in s ==> p(x)
    ensures Keep(s, p) == s
  {
    if s != [] {
      KeepAll(s[1..], p);
    }
  }

  lemma {:induction false} KeepAppend<T>(a: seq<T>, b: seq<T>, p: T -> bool)
    ensures Keep(a + b, p) == Keep(a, p) + Keep(b, p)
  {
    if a != [] {
      assert (a + b)[0] == a[0] && (a + b)[1..] == a[1..] + b;
      KeepAppend(a[1..], b, p);
      var h := if p(a[0]) then [a[0]] else [];
      assert Keep(a + b, p) == h + Keep(a[1..] + b, p);
    } else {
      assert a + b == b;
    }
  }

  /** The values of the `Some` entries of `os`, in order: what a loop that appends only
      the accepted elements ends with. */
  function Somes<T>(os: seq<Option<T>>): (r: seq<T>)
    ensures |r| <= |os|
  {
    if os == [] then []
    else Somes(os[..|os| - 1]) + (match os[|os| - 1] case Some(v) => [v] case None => [])
  }

  /** The positions of the `Some` entries of `os`, in increasing order. */
  function SomeOrigins<T>(os: seq<Option<T>>): seq<nat>
  {
    if os == [] then []
    else SomeOrigins(os[..|os| - 1]) + (if os[|os| - 1].Some? then [|os| - 1] else [])
  }

  /** Somes keeps one value per `Some` entry, each taken from the entry at its origin;
      the origins strictly increase (order is kept), and a position is an origin exactly
      when its entry is a `Some`. */
  lemma {:induction false} SomesOrigins<T>(os: seq<Option<T>>)
    ensures var o := SomeOrigins(os);
      && |o| == |Somes(os)|
      && (forall k :: 0 <= k < |o| ==> o[k] < |os| && os[o[k]] == Some(Somes(os)[k]))
      && (forall k, l :: 0 <= k < l < |o| ==> o[k] < o[l])
      && (forall i :: 0 <= i < |os| ==> (os[i].Some? <==> i in o))
  {
    if os != [] {
      var init := os[..|os| - 1];
      SomesOrigins(init);
      assert forall i :: 0 <= i < |init| ==> init[i] == os[i];
    }
  }
}
