/** Small building blocks shared by the configuration reader and the watcher:
    optional values, results carrying the source's exceptions, Python's
    `str.lower` on ASCII, and an insertion-ordered dictionary. */
module Common {

  datatype Option<+T> = None | Some(value: T)

  /** The value of an operation, or the exception the source raises instead. */
  datatype Result<+T, +E> = Ok(value: T) | Err(error: E)

  function LowerChar(c: char): char
  {
    if 'A' <= c <= 'Z' then (c as int - 'A' as int + 'a' as int) as char else c
  }

  /** `s.lower()`, restricted to the ASCII letters. */
  function Lower(s: string): (r: string)
    ensures |r| == |s|
    ensures forall i :: 0 <= i < |s| ==> r[i] == LowerChar(s[i])
  {
    seq(|s|, i requires 0 <= i < |s| => LowerChar(s[i]))
  }

  /** A Python `dict` with string keys: a map together with the order in which
      its keys were first inserted. Assigning to a present key keeps its place. */
  datatype OrdMap<V> = OrdMap(keys: seq<string>, values: map<string, V>)
  {
    ghost predicate Valid()
    {
      && (forall i, j :: 0 <= i < j < |keys| ==> keys[i] != keys[j])
      && (forall k :: k in values <==> k in keys)
    }

    /** `d[k] = v` */
    function Put(k: string, v: V): (r: OrdMap<V>)
      ensures r.values == values[k := v]
      ensures k in values ==> r.keys == keys
      ensures k !in values ==> r.keys == keys + [k]
      ensures Valid() ==> r.Valid()
    {
      if k in values then OrdMap(keys, values[k := v]) else OrdMap(keys + [k], values[k := v])
    }
  }

  function EmptyDict<V>(): (d: OrdMap<V>)
    ensures d.Valid() && d.keys == [] && d.values == map[]
  {
    OrdMap([], map[])
  }
}
