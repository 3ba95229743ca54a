/** Values shared by every module: optional results and errors. */
module Support {

  /** The number of a broker article. */
  type ArticleId = string

  datatype Option<+T> = None | Some(value: T)

  datatype Result<+T, +E> = Ok(value: T) | Err(error: E)

  /** A value as a sequence of at most one element. */
  function ToSeq<T>(o: Option<T>): (s: seq<T>)
  {
    match o
    case None => []
    case Some(v) => [v]
  }

  function Lookup<K, V>(m: map<K, V>, k: K): Option<V>
  {
    if k in m then Some(m[k]) else None
  }

  predicate Distinct<T(==)>(s: seq<T>)
  {
    forall i, j :: 0 <= i < j < |s| ==> s[i] != s[j]
  }

  function SetOf<T>(s: seq<T>): set<T>
  {
    set x | x in s
  }

  lemma Member<T>(s: set<T>) returns (x: T)
    requires s != {}
    ensures x in s
  {
    x :| x in s;
  }
}
