/** Shared vocabulary: optional values, results, and a few facts about sequences. */
module Prelude {

  datatype Option<+T> = None | Some(value: T)

  datatype Result<+T, +E> = Ok(value: T) | Err(error: E)

  const U32: nat := 0x1_0000_0000
  const U128: nat := 0x1_0000_0000_0000_0000_0000_0000_0000_0000

  lemma SuccessorWraps(n: nat)
    ensures (n % U32 + 1) % U32 == (n + 1) % U32
  {
  }

  lemma SumWraps(n: nat, i: nat)
    ensures (n % U32 + i) % U32 == (n + i) % U32
  {
  }

  lemma WrapsDistinct(a: nat, b: nat)
    requires a < b < a + U32
    ensures a % U32 != b % U32
  {
  }

  /** The first `n` elements, or all of them when there are fewer. */
  function Take<T>(s: seq<T>, n: nat): (r: seq<T>)
    ensures |r| == if n < |s| then n else |s|
    ensures r <= s
  {
    if n < |s| then s[..n] else s
  }

  predicate NoDuplicates<T(==)>(s: seq<T>) {
    forall i, j :: 0 <= i < j < |s| ==> s[i] != s[j]
  }

  lemma UpdateTwice<K, V>(m: map<K, V>, k: K, first: V, second: V)
    ensures m[k := first][k := second] == m[k := second]
  {
  }

  function Reverse<T>(s: seq<T>): (r: seq<T>)
    ensures |r| == |s|
    ensures forall i :: 0 <= i < |s| ==> r[i] == s[|s| - 1 - i]
  {
    if s == [] then [] else Reverse(s[1..]) + [s[0]]
  }

  lemma {:induction false} ReverseKeepsElements<T>(s: seq<T>)
    ensures forall x :: x in Reverse(s) <==> x in s
  {
    if s != [] {
      ReverseKeepsElements(s[1..]);
      assert s == [s[0]] + s[1..];
    }
  }

  /** Lists the elements of a set, each once, in an order the caller cannot rely on. */
  method Enumerate<T(==)>(xs: set<T>) returns (listed: seq<T>)
    ensures NoDuplicates(listed)
    ensures forall x :: x in listed <==> x in xs
  {
    listed := [];
    var rest := xs;
    while rest != {}
      invariant rest <= xs
      invariant NoDuplicates(listed)
      invariant forall x :: x in listed <==> x in xs - rest
    {
      var x :| x in rest;
      assert forall i :: 0 <= i < |listed| ==> listed[i] in xs - rest;
      listed := listed + [x];
      rest := rest - {x};
    }
  }
}
