/** Shared vocabulary: option and result types, bytes, and a few facts about finite sets. */
module Basics {

  datatype Option<+T> = None | Some(value: T)

  datatype Result<+T> = Ok(value: T) | Err

  /** A Go byte; a Go string is a sequence of bytes. */
  type byte = x: int | 0 <= x < 256
  type Bytes = seq<byte>

  function Max(a: int, b: int): int {
    if a < b then b else a
  }

  function Min(a: int, b: int): int {
    if a < b then a else b
  }

  /** Reading a Go map: a missing key yields the zero value. */
  function Lookup<K>(m: map<K, nat>, k: K): nat {
    if k in m then m[k] else 0
  }

  lemma SubsetSize<T>(a: set<T>, b: set<T>)
    requires a <= b
    ensures |a| <= |b|
    ensures |a| == |b| ==> a == b
  {
    assert b == a + (b - a);
    if |a| == |b| {
      assert b - a == {};
    }
  }

  /** Two subsets of a set that together outnumber it share an element. */
  lemma QuorumsMeet<T>(a: set<T>, b: set<T>, all: set<T>) returns (x: T)
    requires a <= all && b <= all
    requires |a| + |b| > |all|
    ensures x in a && x in b
  {
    if a * b == {} {
      SubsetSize(a + b, all);
      assert false;
    }
    x :| x in a * b;
  }
}
