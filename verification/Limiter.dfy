/** What the two rate limiters share: the result of a call, and the per-key table that each
    of them keeps behind the `Limiter` interface. */
module Limiter {

  datatype Option<+T> = None | Some(value: T)

  /** Durations and clock readings are in nanoseconds, as exact reals. */
  const NANOS_PER_SECOND: real := 1000000000.0

  /** A denial always carries the reason "rate_exceeded", so only its retry time is kept. */
  datatype Result = Allow | Deny(retryAfter: real)

  /** One call of `Allow`: the key, and the clock reading taken for the call. */
  datatype Call = Call(key: string, now: real)

  function Lookup<S>(table: map<string, S>, key: string): Option<S> {
    if key in table then Some(table[key]) else None
  }

  function Store<S>(table: map<string, S>, key: string, entry: Option<S>): map<string, S> {
    match entry
    case Some(s) => table[key := s]
    case None => table - {key}
  }

  /** The table after a run of calls on many keys, each updating its own entry by `next`. */
  function TableAfter<S>(next: (Option<S>, real) -> Option<S>, calls: seq<Call>): map<string, S> {
    if calls == [] then map[]
    else
      var table := TableAfter(next, calls[..|calls| - 1]);
      var c := calls[|calls| - 1];
      Store(table, c.key, next(Lookup(table, c.key), c.now))
  }

  /** The entry of a single key after a run of calls on that key alone. */
  function EntryAfter<S>(next: (Option<S>, real) -> Option<S>, nows: seq<real>): Option<S> {
    if nows == [] then None
    else next(EntryAfter(next, nows[..|nows| - 1]), nows[|nows| - 1])
  }

  /** The clock readings of the calls on `key`, in order. */
  function Readings(calls: seq<Call>, key: string): seq<real> {
    if calls == [] then []
    else
      var before := Readings(calls[..|calls| - 1], key);
      var c := calls[|calls| - 1];
      if c.key == key then before + [c.now] else before
  }

  /** Keys do not interfere: in any interleaving of calls on any keys, a key's entry is the one
      that its own calls alone would have produced. */
  lemma {:induction false} KeysAreIsolated<S>(next: (Option<S>, real) -> Option<S>, calls: seq<Call>, key: string)
    ensures Lookup(TableAfter(next, calls), key) == EntryAfter(next, Readings(calls, key))
  {
    if calls != [] {
      var c := calls[|calls| - 1];
      var before := calls[..|calls| - 1];
      KeysAreIsolated(next, before, key);
      if c.key == key {
        assert Readings(calls, key)[..|Readings(calls, key)| - 1] == Readings(before, key);
      }
    }
  }

  ghost predicate Sorted(a: seq<real>) {
    forall j, k :: 0 <= j < k < |a| ==> a[j] <= a[k]
  }

  lemma ProductMonotone(x: real, y: real, z: real)
    requires x <= y && 0.0 <= z
    ensures x * z <= y * z
  {
    assert 0.0 <= (y - x) * z;
  }

  /** `n` calls at time zero, then `m` calls at `t`. */
  function TwoBursts(n: nat, m: nat, t: real): seq<real> {
    seq(n, _ => 0.0) + seq(m, _ => t)
  }
}
