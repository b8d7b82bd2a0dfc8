/**
 * The Redis store as the shortener uses it, in memory: each logical database
 * ("partition") maps string keys to values that carry a time to live. Time
 * is counted in whole seconds, the granularity of Redis `EXPIRE` and `TTL`.
 */
module KeyValue {

  type Seconds = n: int | n > 0 witness 1

  /** What is left of a key's life: no expiry at all, or some seconds. */
  datatype Ttl = Persistent | Expires(left: Seconds)

  datatype Entry<V> = Entry(value: V, ttl: Ttl)

  type Partition<V> = map<string, Entry<V>>

  /** A key with this time to live is still there after `dt` seconds. */
  predicate Survives(t: Ttl, dt: nat)
  {
    t.Persistent? || dt < t.left
  }

  /** The time to live left after `dt` more seconds. */
  function Aged(t: Ttl, dt: nat): (r: Ttl)
    requires Survives(t, dt)
    ensures t.Persistent? <==> r.Persistent?
    ensures t.Expires? ==> r.left + dt == t.left
  {
    if t.Persistent? then Persistent else Expires(t.left - dt)
  }

  /** The partition `dt` seconds later: keys whose time ran out are gone. */
  function Tick<V>(m: Partition<V>, dt: nat): (r: Partition<V>)
    ensures r.Keys <= m.Keys
    ensures forall k :: k in r ==> r[k].value == m[k].value
    ensures forall k :: k in m ==> (k in r <==> Survives(m[k].ttl, dt))
  {
    map k | k in m && Survives(m[k].ttl, dt) :: Entry(m[k].value, Aged(m[k].ttl, dt))
  }

  /**
   * `TTL key` divided by time.Minute: the whole minutes left, truncated. For
   * a key without expiry go-redis reports -1ns, and for a missing key -2ns;
   * both truncate to 0 minutes.
   */
  function TtlMinutes<V>(m: Partition<V>, k: string): (r: int)
    ensures r >= 0
    ensures k in m && m[k].ttl.Expires? ==> r * 60 <= m[k].ttl.left < (r + 1) * 60
    ensures k !in m || m[k].ttl.Persistent? ==> r == 0
  {
    if k in m && m[k].ttl.Expires? then m[k].ttl.left / 60 else 0
  }

  /**
   * `INCRBY key delta` (`INCR` and `DECR` are deltas 1 and -1): a missing
   * key counts as 0 and is created without expiry; an existing key keeps
   * its time to live.
   */
  function AddTo(m: Partition<int>, k: string, delta: int): (r: Partition<int>)
    ensures k in r && r[k].value == (if k in m then m[k].value else 0) + delta
    ensures r[k].ttl == if k in m then m[k].ttl else Persistent
    ensures r.Keys == m.Keys + {k}
    ensures forall j :: j in m && j != k ==> r[j] == m[j]
  {
    if k in m then m[k := Entry(m[k].value + delta, m[k].ttl)]
    else m[k := Entry(delta, Persistent)]
  }

  /** No time passing changes nothing. */
  lemma TickZero<V>(m: Partition<V>)
    ensures Tick(m, 0) == m
  {
    assert forall k :: k in m ==> Aged(m[k].ttl, 0) == m[k].ttl;
  }

  /** Waiting `a` seconds and then `b` seconds is waiting `a + b` seconds. */
  lemma TickCompose<V>(m: Partition<V>, a: nat, b: nat)
    ensures Tick(Tick(m, a), b) == Tick(m, a + b)
  {
    var l, r := Tick(Tick(m, a), b), Tick(m, a + b);
    forall k | k in m
      ensures k in l <==> k in r
      ensures k in l ==> l[k] == r[k]
    {
      var t := m[k].ttl;
      if Survives(t, a) {
        assert Tick(m, a)[k].ttl == Aged(t, a);
      }
    }
    assert l.Keys == r.Keys;
  }

  /** A key with an expiry is gone once its time to live has elapsed. */
  lemma ExpiredKeyGone<V>(m: Partition<V>, k: string, dt: nat)
    requires k in m && m[k].ttl.Expires? && m[k].ttl.left <= dt
    ensures k !in Tick(m, dt)
  {
  }

  /** Before that, it is there with its value, `dt` seconds older. */
  lemma LiveKeyKept<V>(m: Partition<V>, k: string, dt: nat)
    requires k in m && Survives(m[k].ttl, dt)
    ensures k in Tick(m, dt) && Tick(m, dt)[k] == Entry(m[k].value, Aged(m[k].ttl, dt))
  {
  }
}
