/** `Pair`: an immutable 2-tuple with componentwise equality. */
module Tuples {
  import opened JavaLang

  datatype Pair<U, V> = Pair(first: U, second: V)

  /** `Pair.of(first, second)`. */
  function Of<U, V>(first: U, second: V): (p: Pair<U, V>)
    ensures GetFirst(p) == first && GetSecond(p) == second
  {
    Pair(first, second)
  }

  /** `getFirst()`. */
  function GetFirst<U, V>(p: Pair<U, V>): U {
    p.first
  }

  /** `getSecond()`. */
  function GetSecond<U, V>(p: Pair<U, V>): V {
    p.second
  }

  /** `equals`: both components equal. */
  predicate Equals<U(==), V(==)>(a: Pair<U, V>, b: Pair<U, V>) {
    GetFirst(a) == GetFirst(b) && GetSecond(a) == GetSecond(b)
  }

  /** `hashCode()`: Guava's `Objects.hashCode(first, second)` over the components' own hash codes. */
  function HashCode<U, V>(p: Pair<U, V>, hashU: U -> Int32, hashV: V -> Int32): Int32 {
    HashAll([hashU(GetFirst(p)), hashV(GetSecond(p))])
  }

  /** `toString()`: "(first, second)" from the components' own renderings. */
  function ToString<U, V>(p: Pair<U, V>, showU: U -> string, showV: V -> string): (s: string)
    ensures |s| == |showU(p.first)| + |showV(p.second)| + 4
    ensures s[0] == '(' && s[|s| - 1] == ')'
    ensures s[1..1 + |showU(p.first)|] == showU(p.first)
    ensures s[1 + |showU(p.first)|..3 + |showU(p.first)|] == ", "
    ensures s[3 + |showU(p.first)|..|s| - 1] == showV(p.second)
  {
    "(" + showU(p.first) + ", " + showV(p.second) + ")"
  }

  /** Pair equality is value equality, and equal pairs hash alike. */
  lemma PairEquality<U, V>(a: Pair<U, V>, b: Pair<U, V>, hashU: U -> Int32, hashV: V -> Int32)
    ensures Equals(a, b) <==> a == b
    ensures Equals(a, b) ==> HashCode(a, hashU, hashV) == HashCode(b, hashU, hashV)
    ensures Equals(Of(GetFirst(a), GetSecond(a)), a)
  {
  }
}
