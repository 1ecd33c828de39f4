/** API-key validation in front of Postgres (pkg/auth/store_postgres.go): the wire format, the
    validation cache, and the protocol in which cache lookups, database reads, cache writes,
    issues and revocations interleave. BLAKE3, Argon2id and scope parsing are parameters; times
    are integers and last-used bookkeeping is left out. */
module AuthCache {
  import opened Optional

  // ---------- the wire format ----------

  function Split(s: string): (parts: seq<string>)
    ensures parts != []
  {
    if s == "" then [""]
    else
      var rest := Split(s[1..]);
      if s[0] == ':' then [""] + rest else [[s[0]] + rest[0]] + rest[1..]
  }

  datatype WireKey = WireKey(tenant: string, kid: string, secret: string)

  function SplitWireKey(key: string): Option<WireKey> {
    var parts := Split(key);
    if |parts| != 3 then None
    else if parts[0] == "" || parts[1] == "" || parts[2] == "" then None
    else Some(WireKey(parts[0], parts[1], parts[2]))
  }

  function Wire(k: WireKey): string {
    k.tenant + ":" + k.kid + ":" + k.secret
  }

  predicate Plain(part: string) {
    part != "" && ':' !in part
  }

  lemma {:induction false} SplitPlain(part: string)
    requires ':' !in part
    ensures Split(part) == [part]
  {
    if part != "" {
      SplitPlain(part[1..]);
      assert part == [part[0]] + part[1..];
    }
  }

  lemma {:induction false} SplitFirst(part: string, rest: string)
    requires ':' !in part
    ensures Split(part + ":" + rest) == [part] + Split(rest)
  {
    var s := part + ":" + rest;
    if part == "" {
      assert s[1..] == rest;
    } else {
      SplitFirst(part[1..], rest);
      assert s[1..] == part[1..] + ":" + rest;
      assert part == [part[0]] + part[1..];
      assert ([part[1..]] + Split(rest))[1..] == Split(rest);
    }
  }

  function Join(parts: seq<string>): string
    requires parts != []
  {
    if |parts| == 1 then parts[0] else parts[0] + ":" + Join(parts[1..])
  }

  lemma {:induction false} JoinSplit(s: string)
    ensures Join(Split(s)) == s
    ensures forall p <- Split(s) :: ':' !in p
  {
    if s != "" {
      JoinSplit(s[1..]);
      var rest := Split(s[1..]);
      if s[0] == ':' {
        assert ([""] + rest)[1..] == rest;
        assert s == "" + ":" + s[1..];
      } else {
        var parts := [[s[0]] + rest[0]] + rest[1..];
        assert parts[1..] == rest[1..];
        assert s == [s[0]] + s[1..];
        assert rest[0] in rest && forall p <- rest[1..] :: p in rest;
        if |rest| > 1 {
          assert [s[0]] + (rest[0] + ":" + Join(rest[1..])) == ([s[0]] + rest[0]) + ":" + Join(rest[1..]);
        }
      }
    }
  }

  /** A key splits into exactly the three plain parts it was made of. */
  lemma WireKeyIff(key: string, k: WireKey)
    ensures SplitWireKey(key) == Some(k) <==> Plain(k.tenant) && Plain(k.kid) && Plain(k.secret) && key == Wire(k)
  {
    hide Split, Join;
    if SplitWireKey(key) == Some(k) {
      JoinSplit(key);
      var parts := Split(key);
      assert parts[0] in parts && parts[1] in parts && parts[2] in parts;
      JoinThree(parts);
    }
    if Plain(k.tenant) && Plain(k.kid) && Plain(k.secret) && key == Wire(k) {
      SplitFirst(k.tenant, k.kid + ":" + k.secret);
      SplitFirst(k.kid, k.secret);
      SplitPlain(k.secret);
      assert key == k.tenant + ":" + (k.kid + ":" + k.secret);
      assert Split(key) == [k.tenant, k.kid, k.secret];
    }
  }

  lemma JoinThree(parts: seq<string>)
    requires |parts| == 3
    ensures Join(parts) == parts[0] + ":" + parts[1] + ":" + parts[2]
  {
    assert parts[1..][1..] == [parts[2]];
    assert Join([parts[2]]) == parts[2];
    assert Join(parts[1..]) == parts[1] + ":" + parts[2];
    assert parts[0] + ":" + (parts[1] + ":" + parts[2]) == parts[0] + ":" + parts[1] + ":" + parts[2];
  }

  // ---------- the cache object ----------

  datatype Entry = Entry(tenant: string, scopes: seq<string>, expiresAt: int)

  function Quota(size: int): int {
    if size / 10 <= 1 then 1 else size / 10
  }

  function Min(a: int, b: int): int {
    if a < b then a else b
  }

  /** Which sets of keys one put may evict: none while there is room, else a tenth of the size. */
  predicate MayEvict(entries: map<string, Entry>, size: int, victims: set<string>) {
    && victims <= entries.Keys
    && |victims| == if |entries| >= size then Min(|entries|, Quota(size)) else 0
  }

  lemma PutFits(entries: map<string, Entry>, size: int, victims: set<string>, digest: string, e: Entry)
    requires size > 0 && |entries| <= size && MayEvict(entries, size, victims)
    ensures |(entries - victims)[digest := e]| <= size
  {}

  class ValidationCache {
    const size: int
    const ttl: int
    var entries: map<string, Entry>

    constructor (size: int, ttl: int)
      ensures this.size == size && this.ttl == ttl && entries == map[]
    {
      this.size, this.ttl, entries := size, ttl, map[];
    }

    /** A live entry, or nothing; an expired entry is deleted. */
    method Get(digest: string, now: int) returns (e: Option<Entry>)
      modifies this
      ensures e == if digest in old(entries) && now <= old(entries)[digest].expiresAt then Some(old(entries)[digest]) else None
      ensures entries == if e == None then old(entries) - {digest} else old(entries)
    {
      if digest !in entries {
        assert entries - {digest} == entries;
        return None;
      }
      var found := entries[digest];
      if now > found.expiresAt {
        entries := entries - {digest};
        return None;
      }
      return Some(found);
    }

    /** Delete entries in map order: at least one, and a tenth of the size if there are that many. */
    method Evict() returns (ghost victims: set<string>)
      requires |entries| > 0
      modifies this
      ensures victims <= old(entries).Keys && entries == old(entries) - victims
      ensures |victims| == Min(|old(entries)|, Quota(size))
    {
      victims := {};
      var evict := size / 10;
      ghost var tenth := evict;
      var left := entries.Keys;
      while left != {}
        invariant victims <= old(entries).Keys && left == old(entries).Keys - victims
        invariant entries == old(entries) - victims
        invariant |victims| + |left| == |old(entries)|
        invariant evict == tenth - |victims|
        invariant |victims| == 0 || evict > 0
        decreases left
      {
        var k :| k in left;
        entries := entries - {k};
        left := left - {k};
        victims := victims + {k};
        evict := evict - 1;
        assert left == old(entries).Keys - victims && entries == old(entries) - victims;
        if evict <= 0 {
          break;
        }
      }
    }

    /** Make room if the cache is full, then store the new entry. */
    method Put(digest: string, tenant: string, scopes: seq<string>, now: int) returns (ghost victims: set<string>)
      requires size > 0 && |entries| <= size
      modifies this
      ensures MayEvict(old(entries), size, victims)
      ensures entries == (old(entries) - victims)[digest := Entry(tenant, scopes, now + ttl)]
      ensures |entries| <= size
    {
      hide Quota;
      ghost var before := entries;
      victims := {};
      assert before - {} == before;
      if |entries| >= size {
        victims := Evict();
      }
      PutFits(before, size, victims, digest, Entry(tenant, scopes, now + ttl));
      entries := entries[digest := Entry(tenant, scopes, now + ttl)];
    }
  }
}
