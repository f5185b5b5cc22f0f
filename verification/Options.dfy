// The nullable values of the pipeline: SQL NULLs, Python None and absent map entries.
module Options {
  datatype Option<+T> = None | Some(value: T) {
    function GetOr(default: T): T {
      if Some? then value else default
    }
  }

  function Get<K, V>(m: map<K, V>, k: K): Option<V> {
    if k in m then Some(m[k]) else None
  }

  function Max(a: int, b: int): (m: int)
    ensures (m == a || m == b) && a <= m && b <= m
  {
    if a < b then b else a
  }

  function Min(a: int, b: int): (m: int)
    ensures (m == a || m == b) && m <= a && m <= b
  {
    if a < b then a else b
  }
}
