/** The identity cache in Redis, refreshed by polling (internal/workers/syncdb/periodic.go), and the
    lookup that reads it (internal/auth/redisImpl.go). */
module IdentityCache {
  import opened Limiter

  const SLACK: real := 5.0 * NANOS_PER_SECOND

  datatype Identity = Identity(userId: string, username: string, admin: bool)

  datatype Entry = Entry(value: Identity, expiresAt: real)

  type Cache = map<string, Entry>

  /** One public key of a user: its cache key if it normalizes, and when and whether Redis took
      the write. */
  datatype KeyRow = KeyRow(key: Option<string>, at: real, ok: bool)

  /** One row of the cursor; `Skipped` did not decode, or its identity did not marshal. */
  datatype Row = Skipped | User(identity: Identity, keys: seq<KeyRow>)

  datatype Write = Write(key: string, value: Identity, at: real, ok: bool)

  function Set(cache: Cache, ttl: real, w: Write): Cache {
    if w.ok then cache[w.key := Entry(w.value, w.at + ttl)] else cache
  }

  function Get(cache: Cache, key: string, t: real): Option<Identity> {
    if key in cache && t < cache[key].expiresAt then Some(cache[key].value) else None
  }

  /** The cache after a history of writes, from empty. */
  function After(cache: Cache, ttl: real, ws: seq<Write>): Cache {
    if ws == [] then cache else Set(After(cache, ttl, ws[..|ws| - 1]), ttl, ws[|ws| - 1])
  }

  function KeyWrites(identity: Identity, keys: seq<KeyRow>): seq<Write> {
    if keys == [] then []
    else
      var k := keys[|keys| - 1];
      KeyWrites(identity, keys[..|keys| - 1])
      + (if k.key.Some? then [Write(k.key.value, identity, k.at, k.ok)] else [])
  }

  /** All the writes of a pass, in cursor order. */
  function Writes(rows: seq<Row>): seq<Write> {
    if rows == [] then []
    else
      var r := rows[|rows| - 1];
      Writes(rows[..|rows| - 1]) + (if r.User? then KeyWrites(r.identity, r.keys) else [])
  }

  /** The writes of passes until the first whose query fails. */
  function AllWrites(passes: seq<Option<seq<Row>>>): seq<Write> {
    if passes == [] || passes[0].None? then []
    else Writes(passes[0].value) + AllWrites(passes[1..])
  }

  lemma {:induction false} AfterConcat(cache: Cache, ttl: real, vs: seq<Write>, ws: seq<Write>)
    ensures After(cache, ttl, vs + ws) == After(After(cache, ttl, vs), ttl, ws)
  {
    if ws == [] {
      assert vs + ws == vs;
    } else {
      assert (vs + ws)[..|vs + ws| - 1] == vs + ws[..|ws| - 1];
      AfterConcat(cache, ttl, vs, ws[..|ws| - 1]);
    }
  }

  lemma NoKeysNoChange(cache: Cache, ttl: real, identity: Identity, keys: seq<KeyRow>)
    ensures After(cache, ttl, KeyWrites(identity, keys[..0])) == cache
  {
    assert keys[..0] == [];
  }

  /** The cache after one more key of a user. */
  lemma KeyWritesNext(cache: Cache, ttl: real, identity: Identity, keys: seq<KeyRow>, j: nat)
    requires j < |keys|
    ensures var before, k := After(cache, ttl, KeyWrites(identity, keys[..j])), keys[j];
            After(cache, ttl, KeyWrites(identity, keys[..j + 1]))
            == if k.key.Some? then Set(before, ttl, Write(k.key.value, identity, k.at, k.ok)) else before
  {
    var done := KeyWrites(identity, keys[..j]);
    assert keys[..j + 1][..j] == keys[..j];
    if keys[j].key.Some? {
      var w := Write(keys[j].key.value, identity, keys[j].at, keys[j].ok);
      assert (done + [w])[..|done|] == done;
    } else {
      assert done + [] == done;
    }
  }

  class PeriodicSyncer {
    const interval: real
    var cache: Cache

    constructor (interval: real)
      ensures this.interval == interval && cache == map[]
    {
      this.interval := interval;
      cache := map[];
    }

    /** The keys of one user: skip those that do not normalize, go on after a failed write. */
    method WriteKeys(identity: Identity, keys: seq<KeyRow>)
      modifies this
      ensures cache == After(old(cache), interval + SLACK, KeyWrites(identity, keys))
    {
      hide After, KeyWrites;
      NoKeysNoChange(cache, interval + SLACK, identity, keys);
      var j := 0;
      while j < |keys|
        invariant 0 <= j <= |keys|
        invariant cache == After(old(cache), interval + SLACK, KeyWrites(identity, keys[..j]))
      {
        KeyWritesNext(old(cache), interval + SLACK, identity, keys, j);
        if keys[j].key.Some? && keys[j].ok {
          cache := cache[keys[j].key.value := Entry(identity, keys[j].at + (interval + SLACK))];
        }
        j := j + 1;
      }
      assert keys[..j] == keys;
    }

    /** One pass; `cursor` is None when the query fails. */
    method SyncOnce(cursor: Option<seq<Row>>) returns (ok: bool)
      modifies this
      ensures ok == cursor.Some?
      ensures cache == if ok then After(old(cache), interval + SLACK, Writes(cursor.value)) else old(cache)
    {
      if cursor.None? {
        return false;
      }
      var rows := cursor.value;
      var i := 0;
      while i < |rows|
        invariant 0 <= i <= |rows|
        invariant cache == After(old(cache), interval + SLACK, Writes(rows[..i]))
      {
        assert rows[..i + 1][..i] == rows[..i];
        assert Writes(rows[..i]) + [] == Writes(rows[..i]);
        if rows[i].User? {
          WriteKeys(rows[i].identity, rows[i].keys);
          AfterConcat(old(cache), interval + SLACK, Writes(rows[..i]), KeyWrites(rows[i].identity, rows[i].keys));
        }
        i := i + 1;
      }
      assert rows[..i] == rows;
      ok := true;
    }

    /** A pass per tick, until a query fails. */
    method Start(passes: seq<Option<seq<Row>>>)
      modifies this
      ensures cache == After(old(cache), interval + SLACK, AllWrites(passes))
    {
      var rest := passes;
      while rest != []
        invariant After(cache, interval + SLACK, AllWrites(rest)) == After(old(cache), interval + SLACK, AllWrites(passes))
        decreases |rest|
      {
        ghost var before := cache;
        var ok := SyncOnce(rest[0]);
        if !ok {
          return;
        }
        AfterConcat(before, interval + SLACK, Writes(rest[0].value), AllWrites(rest[1..]));
        rest := rest[1..];
      }
    }
  }

  // ---------- what a lookup returns ----------

  predicate Takes(ws: seq<Write>, key: string, k: int)
    requires 0 <= k < |ws|
  {
    ws[k].ok && ws[k].key == key
  }

  /** `k` is the last successful write of the key. */
  ghost predicate IsLast(ws: seq<Write>, key: string, k: int) {
    0 <= k < |ws| && Takes(ws, key, k) && forall j :: k < j < |ws| ==> !Takes(ws, key, j)
  }

  /** A lookup answers exactly what the last successful write of the key says, while that write is
      less than `ttl` old: nothing older, nothing else, and nothing lost. */
  lemma {:induction false} LookupIsLastWrite(ttl: real, ws: seq<Write>, key: string, t: real, v: Identity)
    ensures Get(After(map[], ttl, ws), key, t) == Some(v) <==>
            exists k :: IsLast(ws, key, k) && ws[k].value == v && t < ws[k].at + ttl
  {
    if ws != [] {
      var m := |ws| - 1;
      var before := ws[..m];
      LookupIsLastWrite(ttl, before, key, t, v);
      if Takes(ws, key, m) {
        assert IsLast(ws, key, m);
        assert forall k :: IsLast(ws, key, k) ==> k == m;
      } else {
        assert forall k :: 0 <= k < m ==> (Takes(ws, key, k) <==> Takes(before, key, k));
        assert forall k :: IsLast(ws, key, k) <==> IsLast(before, key, k);
      }
    }
  }

  /** What a lookup returns was written less than interval + 5 seconds before. */
  lemma LookupIsFresh(interval: real, passes: seq<Option<seq<Row>>>, key: string, t: real)
    requires Get(After(map[], interval + SLACK, AllWrites(passes)), key, t).Some?
    ensures exists k :: 0 <= k < |AllWrites(passes)| && Takes(AllWrites(passes), key, k)
              && Get(After(map[], interval + SLACK, AllWrites(passes)), key, t) == Some(AllWrites(passes)[k].value)
              && t - AllWrites(passes)[k].at < interval + SLACK
  {
    var ws := AllWrites(passes);
    LookupIsLastWrite(interval + SLACK, ws, key, t, Get(After(map[], interval + SLACK, ws), key, t).value);
  }

  /** A key that is no longer written is refused from interval + 5 seconds after its last write. */
  lemma RemovedKeyExpires(interval: real, ws: seq<Write>, key: string, t: real)
    requires forall k :: 0 <= k < |ws| && Takes(ws, key, k) ==> ws[k].at + (interval + SLACK) <= t
    ensures Get(After(map[], interval + SLACK, ws), key, t) == None
  {
    var found := Get(After(map[], interval + SLACK, ws), key, t);
    if found.Some? {
      LookupIsLastWrite(interval + SLACK, ws, key, t, found.value);
    }
  }

  // ---------- one pass ----------

  /** Key row `j` names the key, and Redis takes the write. */
  predicate WritesAt(keys: seq<KeyRow>, j: int, key: string) {
    0 <= j < |keys| && keys[j].key == Some(key) && keys[j].ok
  }

  /** ... and no later row does. */
  ghost predicate LastWriteAt(keys: seq<KeyRow>, j: int, key: string) {
    WritesAt(keys, j, key) && forall i :: j < i < |keys| ==> !WritesAt(keys, i, key)
  }

  ghost predicate Named(keys: seq<KeyRow>, key: string) { exists j :: WritesAt(keys, j, key) }

  /** The cache holds what the last of the user's writes of the key put there. */
  ghost predicate HoldsLastOf(cache: Cache, ttl: real, identity: Identity, keys: seq<KeyRow>, key: string) {
    exists j :: LastWriteAt(keys, j, key) && Lookup(cache, key) == Some(Entry(identity, keys[j].at + ttl))
  }

  /** Row `r` writes the key. */
  ghost predicate Lists(rows: seq<Row>, r: int, key: string) {
    0 <= r < |rows| && rows[r].User? && Named(rows[r].keys, key)
  }

  /** Row `r` is the last to write the key. */
  ghost predicate ListsLast(rows: seq<Row>, r: int, key: string) {
    Lists(rows, r, key) && forall q :: r < q < |rows| ==> !Lists(rows, q, key)
  }

  lemma AfterAppend(cache: Cache, ttl: real, ws: seq<Write>, w: Write)
    ensures After(cache, ttl, ws + [w]) == Set(After(cache, ttl, ws), ttl, w)
  {
    assert (ws + [w])[..|ws|] == ws;
  }

  lemma AfterOneKey(cache: Cache, ttl: real, own: seq<Write>, identity: Identity, k: KeyRow)
    ensures After(cache, ttl, own + (if k.key.Some? then [Write(k.key.value, identity, k.at, k.ok)] else []))
            == if k.key.Some? && k.ok then After(cache, ttl, own)[k.key.value := Entry(identity, k.at + ttl)]
               else After(cache, ttl, own)
  {
    hide After;
    if k.key.Some? {
      AfterAppend(cache, ttl, own, Write(k.key.value, identity, k.at, k.ok));
    } else {
      assert own + [] == own;
    }
  }

  lemma OneMoreKey(cache: Cache, mid: Cache, after: Cache, ttl: real, identity: Identity, keys: seq<KeyRow>, key: string)
    requires keys != []
    requires var before := keys[..|keys| - 1];
             if Named(before, key) then HoldsLastOf(mid, ttl, identity, before, key) else Lookup(mid, key) == Lookup(cache, key)
    requires var k := keys[|keys| - 1];
             after == if k.key.Some? && k.ok then mid[k.key.value := Entry(identity, k.at + ttl)] else mid
    ensures if Named(keys, key) then HoldsLastOf(after, ttl, identity, keys, key) else Lookup(after, key) == Lookup(cache, key)
  {
    hide Lookup;
    var m := |keys| - 1;
    var before := keys[..m];
    NamedGrows(keys, key);
    if WritesAt(keys, m, key) {
      LookupAfterSet(mid, key, Entry(identity, keys[m].at + ttl));
      assert LastWriteAt(keys, m, key);
    } else {
      OtherKeyStays(mid, keys[m], identity, ttl, key);
      if Named(before, key) {
        var j :| LastWriteAt(before, j, key) && Lookup(mid, key) == Some(Entry(identity, before[j].at + ttl));
        LastWriteGrows(keys, j, key);
      }
    }
  }

  lemma LookupAfterSet(cache: Cache, key: string, entry: Entry)
    ensures Lookup(cache[key := entry], key) == Some(entry)
  {
  }

  lemma OtherKeyStays(cache: Cache, k: KeyRow, identity: Identity, ttl: real, key: string)
    requires !(k.key == Some(key) && k.ok)
    ensures var after := if k.key.Some? && k.ok then cache[k.key.value := Entry(identity, k.at + ttl)] else cache;
            Lookup(after, key) == Lookup(cache, key)
  {
  }

  lemma NamedGrows(keys: seq<KeyRow>, key: string)
    requires keys != []
    ensures Named(keys, key) <==> Named(keys[..|keys| - 1], key) || WritesAt(keys, |keys| - 1, key)
  {
    var before := keys[..|keys| - 1];
    forall j | WritesAt(keys, j, key) && j < |keys| - 1 ensures WritesAt(before, j, key) {}
    forall j | WritesAt(before, j, key) ensures WritesAt(keys, j, key) {}
  }

  lemma LastWriteGrows(keys: seq<KeyRow>, j: int, key: string)
    requires keys != [] && LastWriteAt(keys[..|keys| - 1], j, key) && !WritesAt(keys, |keys| - 1, key)
    ensures LastWriteAt(keys, j, key)
  {
    forall i | j < i < |keys| ensures !WritesAt(keys, i, key) {
      assert i < |keys| - 1 ==> !WritesAt(keys[..|keys| - 1], i, key);
    }
  }

  lemma {:induction false} KeyWritesEffect(cache: Cache, ttl: real, identity: Identity, keys: seq<KeyRow>, key: string)
    ensures var after := After(cache, ttl, KeyWrites(identity, keys));
            if Named(keys, key) then HoldsLastOf(after, ttl, identity, keys, key)
            else Lookup(after, key) == Lookup(cache, key)
  {
    hide HoldsLastOf, Named;
    if keys != [] {
      var m := |keys| - 1;
      var own := KeyWrites(identity, keys[..m]);
      KeyWritesEffect(cache, ttl, identity, keys[..m], key);
      AfterOneKey(cache, ttl, own, identity, keys[m]);
      OneMoreKey(cache, After(cache, ttl, own), After(cache, ttl, KeyWrites(identity, keys)), ttl, identity, keys, key);
    } else {
      assert !Named(keys, key) by { NothingNamed(key); }
    }
  }

  lemma NothingNamed(key: string)
    ensures !Named([], key)
  {
  }

  /** The cache after a pass, for one key: what the last user to write it wrote last, or whatever it
      was. */
  ghost predicate PassResult(cache: Cache, after: Cache, ttl: real, rows: seq<Row>, key: string) {
    || (exists r :: ListsLast(rows, r, key) && HoldsLastOf(after, ttl, rows[r].identity, rows[r].keys, key))
    || ((forall r :: !Lists(rows, r, key)) && Lookup(after, key) == Lookup(cache, key))
  }

  lemma OneMoreRow(cache: Cache, mid: Cache, after: Cache, ttl: real, rows: seq<Row>, key: string)
    requires rows != [] && PassResult(cache, mid, ttl, rows[..|rows| - 1], key)
    requires var last := rows[|rows| - 1];
             if Lists(rows, |rows| - 1, key) then HoldsLastOf(after, ttl, last.identity, last.keys, key)
             else Lookup(after, key) == Lookup(mid, key)
    ensures PassResult(cache, after, ttl, rows, key)
  {
    hide Named;
    var m := |rows| - 1;
    var before := rows[..m];
    assert forall r :: 0 <= r < m ==> (Lists(rows, r, key) <==> Lists(before, r, key));
    if Lists(rows, m, key) {
      assert ListsLast(rows, m, key);
    } else if r :| ListsLast(before, r, key) && HoldsLastOf(mid, ttl, before[r].identity, before[r].keys, key) {
      assert ListsLast(rows, r, key) && HoldsLastOf(after, ttl, rows[r].identity, rows[r].keys, key);
    } else {
      assert forall r :: Lists(rows, r, key) ==> Lists(before, r, key);
    }
  }

  /** A pass leaves each key that some user writes at the last such user in cursor order, until the
      time to live of that user's last write of it, and every other key as it was. */
  lemma {:induction false} PassKeepsLastLister(cache: Cache, ttl: real, rows: seq<Row>, key: string)
    ensures PassResult(cache, After(cache, ttl, Writes(rows)), ttl, rows, key)
  {
    hide HoldsLastOf, Named;
    if rows != [] {
      var m := |rows| - 1;
      var before := Writes(rows[..m]);
      PassKeepsLastLister(cache, ttl, rows[..m], key);
      if rows[m].User? {
        AfterConcat(cache, ttl, before, KeyWrites(rows[m].identity, rows[m].keys));
        KeyWritesEffect(After(cache, ttl, before), ttl, rows[m].identity, rows[m].keys, key);
      } else {
        assert before + [] == before;
      }
      OneMoreRow(cache, After(cache, ttl, before), After(cache, ttl, Writes(rows)), ttl, rows, key);
    }
  }

  // ---------- the ticks ----------

  ghost predicate NoneFails(passes: seq<Option<seq<Row>>>) { forall k :: 0 <= k < |passes| ==> passes[k].Some? }

  /** As long as no query fails, the passes of successive ticks add up. */
  lemma {:induction false} PassesAddUp(p: seq<Option<seq<Row>>>, q: seq<Option<seq<Row>>>)
    requires NoneFails(p)
    ensures AllWrites(p + q) == AllWrites(p) + AllWrites(q)
  {
    if p == [] {
      assert p + q == q;
    } else {
      PassesAddUp(p[1..], q);
      assert (p + q)[0] == p[0] && (p + q)[1..] == p[1..] + q;
    }
  }

  /** The first failing query ends the syncer: what later ticks would have found is not written. */
  lemma FailureEnds(p: seq<Option<seq<Row>>>, q: seq<Option<seq<Row>>>)
    requires NoneFails(p)
    ensures AllWrites(p + [None] + q) == AllWrites(p)
  {
    assert p + [None] + q == p + ([None] + q);
    PassesAddUp(p, [None] + q);
    assert AllWrites(p) + [] == AllWrites(p);
  }

  /** What the cache holds after any number of ticks, whether or not a query fails after them: each
      key that the last pass writes is at the last user in cursor order that writes it, and every
      other key is as the ticks before left it. */
  lemma CacheAfterTicks(interval: real, p: seq<Option<seq<Row>>>, rows: seq<Row>, q: seq<Option<seq<Row>>>, key: string)
    requires NoneFails(p)
    ensures var ttl := interval + SLACK;
            var before, after := After(map[], ttl, AllWrites(p)), After(map[], ttl, AllWrites(p + [Some(rows)]));
            && PassResult(before, after, ttl, rows, key)
            && After(map[], ttl, AllWrites(p + [Some(rows)] + [None] + q)) == after
  {
    var ttl := interval + SLACK;
    PassesAddUp(p, [Some(rows)]);
    FailureEnds(p + [Some(rows)], q);
    assert AllWrites([Some(rows)]) == Writes(rows) by {
      assert [Some(rows)][1..] == [] && Writes(rows) + [] == Writes(rows);
    }
    AfterConcat(map[], ttl, AllWrites(p), Writes(rows));
    PassKeepsLastLister(After(map[], ttl, AllWrites(p)), ttl, rows, key);
  }

  /** A user whose key the last pass wrote is found at every time before the write expires, and only
      until then. */
  lemma WrittenKeyIsFound(interval: real, p: seq<Option<seq<Row>>>, rows: seq<Row>, r: nat, j: nat, key: string, t: real)
    requires NoneFails(p) && ListsLast(rows, r, key) && LastWriteAt(rows[r].keys, j, key)
    ensures var after := After(map[], interval + SLACK, AllWrites(p + [Some(rows)]));
            Get(after, key, t) == if t < rows[r].keys[j].at + (interval + SLACK) then Some(rows[r].identity) else None
  {
    hide After, AllWrites, Named, LastWriteAt, HoldsLastOf;
    var ttl := interval + SLACK;
    var after := After(map[], ttl, AllWrites(p + [Some(rows)]));
    CacheAfterTicks(interval, p, rows, [], key);
    assert Lists(rows, r, key);
    var r' :| ListsLast(rows, r', key) && HoldsLastOf(after, ttl, rows[r'].identity, rows[r'].keys, key);
    assert r' == r;
    LastIsFound(after, ttl, rows[r].identity, rows[r].keys, j, key);
  }

  lemma LastIsFound(cache: Cache, ttl: real, identity: Identity, keys: seq<KeyRow>, j: nat, key: string)
    requires HoldsLastOf(cache, ttl, identity, keys, key) && LastWriteAt(keys, j, key)
    ensures Lookup(cache, key) == Some(Entry(identity, keys[j].at + ttl))
  {
    var j' :| LastWriteAt(keys, j', key) && Lookup(cache, key) == Some(Entry(identity, keys[j'].at + ttl));
    assert j' == j;
  }

  // ---------- a key that is kept up to date ----------

  ghost predicate InTimeOrder(ws: seq<Write>) {
    forall j, k :: 0 <= j < k < |ws| ==> ws[j].at <= ws[k].at
  }

  /** The writes made by time `t`. */
  function UpTo(ws: seq<Write>, t: real): (n: nat)
    ensures n <= |ws|
    ensures forall k :: 0 <= k < n ==> ws[k].at <= t
    ensures n < |ws| ==> t < ws[n].at
  {
    if ws == [] || t < ws[0].at then 0 else 1 + UpTo(ws[1..], t)
  }

  lemma SeenByThen(ws: seq<Write>, t: real, k: nat)
    requires InTimeOrder(ws) && k < |ws|
    ensures k < UpTo(ws, t) <==> ws[k].at <= t
  {
    var n := UpTo(ws, t);
    assert n < k ==> ws[n].at <= ws[k].at;
  }

  /** Some later write of the key comes less than `ttl` after write `j`. */
  ghost predicate Followed(ws: seq<Write>, key: string, ttl: real, j: int)
    requires 0 <= j < |ws|
  {
    exists i :: j < i < |ws| && Takes(ws, key, i) && ws[i].at < ws[j].at + ttl
  }

  /** No write of the key but the last is followed by a gap of `ttl` or more. */
  ghost predicate NoGap(ws: seq<Write>, key: string, ttl: real) {
    forall j, k :: 0 <= j < k < |ws| && Takes(ws, key, j) && Takes(ws, key, k) ==> Followed(ws, key, ttl, j)
  }

  lemma {:induction false} LastExists(ws: seq<Write>, key: string, k: nat) returns (last: nat)
    requires k < |ws| && Takes(ws, key, k)
    ensures IsLast(ws, key, last)
    decreases |ws| - k
  {
    if j: nat :| k < j < |ws| && Takes(ws, key, j) {
      last := LastExists(ws, key, j);
    } else {
      last := k;
    }
  }

  lemma SeenIsRecent(ttl: real, ws: seq<Write>, key: string, t: real, last: nat, latest: nat)
    requires InTimeOrder(ws) && NoGap(ws, key, ttl) && IsLast(ws[..UpTo(ws, t)], key, last)
    requires latest < |ws| && Takes(ws, key, latest) && t < ws[latest].at + ttl
    ensures t < ws[last].at + ttl
  {
    assert Takes(ws[..UpTo(ws, t)], key, last) && Takes(ws, key, last);
    if last < latest {
      assert Followed(ws, key, ttl, last);
      var i :| last < i < |ws| && Takes(ws, key, i) && ws[i].at < ws[last].at + ttl;
      SeenByThen(ws, t, i);
      assert i < UpTo(ws, t) ==> Takes(ws[..UpTo(ws, t)], key, i);
    } else {
      assert last > latest ==> ws[latest].at <= ws[last].at;
    }
  }

  /** A key rewritten at gaps under `ttl` is never missed: a lookup finds it at every time from its
      first write until its last one expires. */
  lemma NeverMissed(ttl: real, ws: seq<Write>, key: string, t: real, first: nat, latest: nat)
    requires InTimeOrder(ws) && NoGap(ws, key, ttl)
    requires first < |ws| && Takes(ws, key, first) && ws[first].at <= t
    requires latest < |ws| && Takes(ws, key, latest) && t < ws[latest].at + ttl
    ensures Get(After(map[], ttl, ws[..UpTo(ws, t)]), key, t).Some?
  {
    var seen := ws[..UpTo(ws, t)];
    SeenByThen(ws, t, first);
    assert Takes(seen, key, first);
    var last := LastExists(seen, key, first);
    SeenIsRecent(ttl, ws, key, t, last, latest);
    LookupIsLastWrite(ttl, seen, key, t, seen[last].value);
  }

  /** Write `k` belongs to the pass of tick `tick[k]`, and comes within the slack after that tick. */
  ghost predicate WithinSlack(ws: seq<Write>, tick: seq<nat>, interval: real) {
    && |tick| == |ws|
    && (forall j, k :: 0 <= j < k < |ws| ==> tick[j] <= tick[k])
    && (forall k :: 0 <= k < |ws| ==> tick[k] as real * interval <= ws[k].at < tick[k] as real * interval + SLACK)
  }

  /** The pass after that of write `j` writes the key. */
  ghost predicate NextPassWrites(ws: seq<Write>, tick: seq<nat>, key: string, j: int)
    requires |tick| == |ws| && 0 <= j < |ws|
  {
    exists i :: 0 <= i < |ws| && Takes(ws, key, i) && tick[i] == tick[j] + 1
  }

  lemma FollowedWithinSlack(ws: seq<Write>, tick: seq<nat>, key: string, interval: real, j: nat, i: nat)
    requires 0.0 < interval && WithinSlack(ws, tick, interval)
    requires j < i < |ws| && (tick[i] == tick[j] || tick[i] == tick[j] + 1) && Takes(ws, key, i)
    ensures Followed(ws, key, interval + SLACK, j)
  {
    var due, next := tick[j] as real * interval, tick[i] as real * interval;
    assert next <= due + interval;
    assert due <= ws[j].at && ws[i].at < next + SLACK;
  }

  lemma FollowedIfNotLast(ws: seq<Write>, tick: seq<nat>, key: string, interval: real, j: nat, k: nat)
    requires 0.0 < interval && WithinSlack(ws, tick, interval)
    requires j < k < |ws| && Takes(ws, key, k)
    requires tick[j] < tick[|ws| - 1] ==> NextPassWrites(ws, tick, key, j)
    ensures Followed(ws, key, interval + SLACK, j)
  {
    hide Followed;
    if tick[k] == tick[j] {
      FollowedWithinSlack(ws, tick, key, interval, j, k);
    } else {
      assert k < |ws| - 1 ==> tick[k] <= tick[|ws| - 1];
      var i :| 0 <= i < |ws| && Takes(ws, key, i) && tick[i] == tick[j] + 1;
      FollowedWithinSlack(ws, tick, key, interval, j, i);
    }
  }

  /** The five seconds are what a pass may take: when every pass writes the key within five seconds
      of its tick, no gap reaches interval + 5 seconds, however the writes fall within the passes. */
  lemma ShortPassesLeaveNoGap(ws: seq<Write>, tick: seq<nat>, key: string, interval: real)
    requires 0.0 < interval && WithinSlack(ws, tick, interval)
    requires forall j :: 0 <= j < |ws| && tick[j] < tick[|ws| - 1] ==> NextPassWrites(ws, tick, key, j)
    ensures NoGap(ws, key, interval + SLACK)
  {
    hide Followed, NextPassWrites;
    forall j, k | 0 <= j < k < |ws| && Takes(ws, key, j) && Takes(ws, key, k)
      ensures Followed(ws, key, interval + SLACK, j)
    {
      FollowedIfNotLast(ws, tick, key, interval, j, k);
    }
  }
}
