/** The fragment of Redis the gateway relies on: keys with a time to live.

    Time is a millisecond clock.  An entry is visible strictly before its expiry
    and absent from then on, whether or not the server has already reclaimed it.
  */
module Redis {
  datatype Option<+T> = None | Some(value: T)

  datatype Entry<+V> = Entry(value: V, expiry: nat)

  predicate Live<K, V>(m: map<K, Entry<V>>, k: K, now: nat) {
    k in m && now < m[k].expiry
  }

  function Get<K, V>(m: map<K, Entry<V>>, k: K, now: nat): Option<V> {
    if Live(m, k, now) then Some(m[k].value) else None
  }

  function SetEx<K, V>(m: map<K, Entry<V>>, k: K, v: V, now: nat, ttl: nat): map<K, Entry<V>> {
    m[k := Entry(v, now + ttl)]
  }

  function Del<K, V>(m: map<K, Entry<V>>, k: K): map<K, Entry<V>> {
    map x | x in m && x != k :: m[x]
  }

  /** Seconds since the epoch, as Go's Time.Unix reports a millisecond clock. */
  function Unix(ms: nat): nat {
    ms / 1000
  }
}
