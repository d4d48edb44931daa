/** Small shared definitions. */
module Common {
  datatype Option<+T> = None | Some(value: T)

  predicate Distinct<T(==)>(s: seq<T>) {
    forall i, j :: 0 <= i < j < |s| ==> s[i] != s[j]
  }

  function Repeat<T>(s: seq<T>, k: nat): (r: seq<T>)
    ensures |r| == k * |s|
  {
    if k == 0 then [] else Repeat(s, k - 1) + s
  }
}
