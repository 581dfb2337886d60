/** Optional values, the counterpart of java.util.Optional, and Map.getOrDefault. */
module Options {

  datatype Option<+T> = None | Some(value: T) {

    /** Optional.orElse: the held value, or `default` when empty. */
    function GetOr(default: T): (r: T)
      ensures Some? ==> r == value
      ensures None? ==> r == default
    {
      match this
      case Some(v) => v
      case None => default
    }
  }

  /** Map.getOrDefault: the value under `k`, or `default` when `k` is absent. */
  function GetOrDefault<K, V>(m: map<K, V>, k: K, default: V): (r: V)
    ensures k in m ==> r == m[k]
    ensures k !in m ==> r == default
  {
    if k in m then m[k] else default
  }
}
