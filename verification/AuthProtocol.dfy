/** Key validation as a protocol: lookups, expiry checks, database reads, cache writes, evictions,
    issues and revocations in every interleaving. */
module AuthProtocol {
  import opened Optional
  import opened AuthCache

  datatype Row = Row(tenant: string, hash: string, scopes: seq<string>, createdAt: int, revokedAt: Option<int>,
          expiresAt: Option<int>)

  /** The library functions, and the settings: `delay` bounds the time from a read to its put. */
  datatype World = World(
    blake: string -> string,
    verify: (string, string) -> bool,
    parse: seq<string> -> seq<string>,
    ttl: nat,
    size: nat,
    delay: nat)

  ghost predicate Sound(w: World) {
    w.size > 0 && forall a, b | w.blake(a) == w.blake(b) :: a == b
  }

  /** The SELECT of the hot path. */
  function Query(rows: map<string, Row>, tenant: string, kid: string, now: int): Option<Row> {
    if kid !in rows then None
    else
      var row := rows[kid];
      if row.tenant == tenant && row.revokedAt == None && (row.expiresAt == None || row.expiresAt.value > now)
      then Some(row) else None
  }

  /** The row was there, unrevoked and unexpired at that time. */
  predicate ActiveAt(row: Row, t: int) {
    && row.createdAt <= t
    && (row.revokedAt.Some? ==> t <= row.revokedAt.value)
    && (row.expiresAt.Some? ==> t < row.expiresAt.value)
  }

  /** The key names a row of this tenant that holds its secret and these scopes, active at t. */
  predicate Backed(rows: map<string, Row>, w: World, key: string, tenant: string, scopes: seq<string>, t: int) {
    match SplitWireKey(key)
    case None => false
    case Some(k) =>
      && k.tenant == tenant && k.kid in rows && rows[k.kid].tenant == tenant
      && w.verify(k.secret, rows[k.kid].hash) && scopes == w.parse(rows[k.kid].scopes)
      && ActiveAt(rows[k.kid], t)
  }

  // ---------- the state ----------

  /** A validation that has read the database and has not yet filled the cache. */
  datatype Pending = Pending(key: string, tenant: string, scopes: seq<string>, readAt: int)

  /** A cache entry copied out by a lookup that has not yet looked at the time. */
  datatype Held = Held(key: string, entry: Entry, readAt: int)

  /** Where a cache entry came from. */
  datatype Origin = Origin(key: string, readAt: int)

  /** An accepted key, and the database read its acceptance rests on. */
  datatype Acceptance = Acceptance(key: string, tenant: string, scopes: seq<string>, at: int, readAt: int)

  datatype State = State(
    clock: int,
    rows: map<string, Row>,
    cache: map<string, Entry>,
    origins: map<string, Origin>,
    pending: seq<Pending>,
    held: seq<Held>)

  datatype Event =
    | Tick(to: int)
    | Issue(kid: string, row: Row)
    | Revoke(tenant: string, kid: string)
    | Peek(key: string)
    | Check(slot: nat)
    | Read(key: string)
    | Put(slot: nat, victims: set<string>)
    | Drop(digest: string)

  function Init(clock: int): State {
    State(clock, map[], map[], map[], [], [])
  }

  function Without<T>(s: seq<T>, k: nat): seq<T>
    requires k < |s|
  {
    s[..k] + s[k + 1..]
  }

  function RevokeRow(rows: map<string, Row>, tenant: string, kid: string, now: int): map<string, Row> {
    if kid in rows && rows[kid].tenant == tenant && rows[kid].revokedAt == None
    then rows[kid := rows[kid].(revokedAt := Some(now))] else rows
  }

  function ReadStep(s: State, w: World, key: string): State {
    match SplitWireKey(key)
    case None => s
    case Some(k) =>
      match Query(s.rows, k.tenant, k.kid, s.clock)
      case None => s
      case Some(row) =>
        if !w.verify(k.secret, row.hash) then s
        else s.(pending := s.pending + [Pending(key, k.tenant, w.parse(row.scopes), s.clock)])
  }

  function PeekStep(s: State, w: World, key: string): State {
    var d := w.blake(key);
    if SplitWireKey(key) == None || d !in s.cache || d !in s.origins then s
    else s.(held := s.held + [Held(key, s.cache[d], s.origins[d].readAt)])
  }

  function CheckStep(s: State, slot: nat): (State, Option<Acceptance>)
    requires slot < |s.held|
  {
    var h := s.held[slot];
    var n := s.(held := Without(s.held, slot));
    if s.clock > h.entry.expiresAt then (n, None)
    else if SplitWireKey(h.key) == None || h.entry.tenant != SplitWireKey(h.key).value.tenant then (n, None)
    else (n, Some(Acceptance(h.key, h.entry.tenant, h.entry.scopes, s.clock, h.readAt)))
  }

  function PutStep(s: State, w: World, slot: nat, victims: set<string>): (State, Option<Acceptance>)
    requires slot < |s.pending|
  {
    var p := s.pending[slot];
    var d := w.blake(p.key);
    (s.(pending := Without(s.pending, slot),
        cache := (s.cache - victims)[d := Entry(p.tenant, p.scopes, s.clock + w.ttl)],
        origins := s.origins[d := Origin(p.key, p.readAt)]),
     Some(Acceptance(p.key, p.tenant, p.scopes, s.clock, p.readAt)))
  }

  /** One step, with the key it accepts if any. */
  function Step(s: State, e: Event, w: World): Option<(State, Option<Acceptance>)> {
    match e
    case Tick(t) => if t < s.clock then None else Some((s.(clock := t), None))
    case Issue(kid, row) =>
      if kid in s.rows || row.createdAt != s.clock || row.revokedAt != None then None
      else Some((s.(rows := s.rows[kid := row]), None))
    case Revoke(tenant, kid) => Some((s.(rows := RevokeRow(s.rows, tenant, kid, s.clock)), None))
    case Peek(key) => Some((PeekStep(s, w, key), None))
    case Check(slot) => if slot < |s.held| then Some(CheckStep(s, slot)) else None
    case Read(key) => Some((ReadStep(s, w, key), None))
    case Put(slot, victims) =>
      if slot >= |s.pending| || s.clock > s.pending[slot].readAt + w.delay || !MayEvict(s.cache, w.size, victims) then None
      else Some(PutStep(s, w, slot, victims))
    case Drop(digest) => Some((s.(cache := s.cache - {digest}), None))
  }

  // ---------- the invariant ----------

  predicate CacheOk(cache: map<string, Entry>, origins: map<string, Origin>, rows: map<string, Row>, clock: int, w: World) {
    forall d <- cache ::
      && d in origins && w.blake(origins[d].key) == d
      && cache[d].expiresAt - w.ttl - w.delay <= origins[d].readAt <= clock
      && Backed(rows, w, origins[d].key, cache[d].tenant, cache[d].scopes, origins[d].readAt)
  }

  predicate PendingOk(pending: seq<Pending>, rows: map<string, Row>, clock: int, w: World) {
    forall p <- pending :: p.readAt <= clock && Backed(rows, w, p.key, p.tenant, p.scopes, p.readAt)
  }

  predicate HeldOk(held: seq<Held>, rows: map<string, Row>, clock: int, w: World) {
    forall h <- held ::
      && h.entry.expiresAt - w.ttl - w.delay <= h.readAt <= clock
      && Backed(rows, w, h.key, h.entry.tenant, h.entry.scopes, h.readAt)
  }

  predicate RowsAreOld(s: State) {
    forall k <- s.rows :: s.rows[k].createdAt <= s.clock
  }

  predicate Inv(s: State, w: World) {
    && RowsAreOld(s)
    && CacheOk(s.cache, s.origins, s.rows, s.clock, w)
    && PendingOk(s.pending, s.rows, s.clock, w)
    && HeldOk(s.held, s.rows, s.clock, w)
    && |s.cache| <= w.size
  }

  /** An acceptance rests on a read no older than the time to live plus the read-to-put delay. */
  predicate Justified(a: Acceptance, rows: map<string, Row>, w: World) {
    && a.at - w.ttl - w.delay <= a.readAt <= a.at
    && Backed(rows, w, a.key, a.tenant, a.scopes, a.readAt)
  }

  /** Whatever was backed at a past time stays backed: rows are only added or revoked. */
  lemma RowsKeepBacked(s: State, e: Event, w: World, key: string, tenant: string, scopes: seq<string>, t: int)
    requires Step(s, e, w).Some? && t <= s.clock && Backed(s.rows, w, key, tenant, scopes, t)
    ensures Backed(Step(s, e, w).value.0.rows, w, key, tenant, scopes, t) && s.clock <= Step(s, e, w).value.0.clock
  {}

  lemma RowsStayOld(s: State, e: Event, w: World)
    requires RowsAreOld(s) && Step(s, e, w).Some?
    ensures RowsAreOld(Step(s, e, w).value.0)
  {}

  /** Later rows and a later clock keep all three conditions. */
  lemma RowsKeepInv(s: State, e: Event, w: World)
    requires Inv(s, w) && Step(s, e, w).Some?
    ensures var n := Step(s, e, w).value.0;
            && RowsAreOld(n) && CacheOk(s.cache, s.origins, n.rows, n.clock, w)
            && PendingOk(s.pending, n.rows, n.clock, w)
            && HeldOk(s.held, n.rows, n.clock, w)
  {
    RowsStayOld(s, e, w);
    hide Step, Backed;
    var n := Step(s, e, w).value.0;
    forall d <- s.cache
      ensures Backed(n.rows, w, s.origins[d].key, s.cache[d].tenant, s.cache[d].scopes, s.origins[d].readAt) && s.clock <= n.clock
    {
      RowsKeepBacked(s, e, w, s.origins[d].key, s.cache[d].tenant, s.cache[d].scopes, s.origins[d].readAt);
    }
    forall p <- s.pending ensures Backed(n.rows, w, p.key, p.tenant, p.scopes, p.readAt) && s.clock <= n.clock {
      RowsKeepBacked(s, e, w, p.key, p.tenant, p.scopes, p.readAt);
    }
    forall h <- s.held ensures Backed(n.rows, w, h.key, h.entry.tenant, h.entry.scopes, h.readAt) && s.clock <= n.clock {
      RowsKeepBacked(s, e, w, h.key, h.entry.tenant, h.entry.scopes, h.readAt);
    }
  }

  lemma ReadIsBacked(s: State, w: World, key: string)
    requires PendingOk(s.pending, s.rows, s.clock, w) && RowsAreOld(s)
    ensures PendingOk(ReadStep(s, w, key).pending, s.rows, s.clock, w)
    ensures ReadStep(s, w, key) == s.(pending := ReadStep(s, w, key).pending)
  {}

  lemma PeekIsBacked(s: State, w: World, key: string)
    requires Sound(w) && CacheOk(s.cache, s.origins, s.rows, s.clock, w) && HeldOk(s.held, s.rows, s.clock, w)
    ensures HeldOk(PeekStep(s, w, key).held, s.rows, s.clock, w)
    ensures PeekStep(s, w, key) == s.(held := PeekStep(s, w, key).held)
  {}

  lemma CheckIsSound(s: State, w: World, slot: nat)
    requires HeldOk(s.held, s.rows, s.clock, w) && slot < |s.held|
    ensures HeldOk(CheckStep(s, slot).0.held, s.rows, s.clock, w)
    ensures CheckStep(s, slot).0 == s.(held := CheckStep(s, slot).0.held)
    ensures CheckStep(s, slot).1.Some? ==> Justified(CheckStep(s, slot).1.value, s.rows, w)
  {}

  lemma PutIsSound(s: State, w: World, slot: nat, victims: set<string>)
    requires CacheOk(s.cache, s.origins, s.rows, s.clock, w) && PendingOk(s.pending, s.rows, s.clock, w)
    requires slot < |s.pending| && s.clock <= s.pending[slot].readAt + w.delay
    ensures CacheOk(PutStep(s, w, slot, victims).0.cache, PutStep(s, w, slot, victims).0.origins, s.rows, s.clock, w)
    ensures PendingOk(PutStep(s, w, slot, victims).0.pending, s.rows, s.clock, w)
    ensures Justified(PutStep(s, w, slot, victims).1.value, s.rows, w)
  {}

  /** Every step keeps the invariant, and whatever it accepts is justified. */
  lemma StepIsSound(s: State, e: Event, w: World)
    requires Sound(w) && Inv(s, w) && Step(s, e, w).Some?
    ensures Inv(Step(s, e, w).value.0, w)
    ensures Step(s, e, w).value.1.Some? ==> Justified(Step(s, e, w).value.1.value, Step(s, e, w).value.0.rows, w)
  {
    RowsKeepInv(s, e, w);
    hide CacheOk, PendingOk, HeldOk, RowsAreOld, Backed, MayEvict, RevokeRow, Justified, ReadStep, PeekStep, CheckStep;
    match e
    case Peek(key) => PeekIsBacked(s, w, key);
    case Read(key) => ReadIsBacked(s, w, key);
    case Check(slot) => CheckIsSound(s, w, slot);
    case Put(slot, victims) =>
      var p := s.pending[slot];
      PutFits(s.cache, w.size, victims, w.blake(p.key), Entry(p.tenant, p.scopes, s.clock + w.ttl));
      PutIsSound(s, w, slot, victims);
    case Drop(d) =>
    case _ =>
  }

  // ---------- runs ----------

  function Run(clock: int, events: seq<Event>, w: World): Option<(State, seq<Acceptance>)> {
    if events == [] then Some((Init(clock), []))
    else
      match Run(clock, events[..|events| - 1], w)
      case None => None
      case Some(before) =>
        match Step(before.0, events[|events| - 1], w)
        case None => None
        case Some(after) => Some((after.0, before.1 + if after.1.Some? then [after.1.value] else []))
  }

  predicate AllJustified(accepted: seq<Acceptance>, rows: map<string, Row>, clock: int, w: World) {
    forall a <- accepted :: a.at <= clock && Justified(a, rows, w)
  }

  lemma StepKeepsJustified(accepted: seq<Acceptance>, s: State, e: Event, w: World)
    requires Step(s, e, w).Some? && AllJustified(accepted, s.rows, s.clock, w)
    ensures AllJustified(accepted, Step(s, e, w).value.0.rows, Step(s, e, w).value.0.clock, w)
  {}

  lemma AcceptedNow(s: State, e: Event, w: World)
    requires Step(s, e, w).Some? && Step(s, e, w).value.1.Some?
    ensures Step(s, e, w).value.1.value.at == Step(s, e, w).value.0.clock
  {}

  /** In every interleaving, every accepted key had a matching row, with the returned tenant and
      scopes, that was active at a read no older than the time to live plus the read-to-put delay;
      and the cache never exceeds its size. */
  lemma {:induction false} AcceptedKeysWereValid(clock: int, events: seq<Event>, w: World)
    requires Sound(w) && Run(clock, events, w).Some?
    ensures var r := Run(clock, events, w).value;
            Inv(r.0, w) && |r.0.cache| <= w.size && AllJustified(r.1, r.0.rows, r.0.clock, w)
  {
    if events != [] {
      var e := events[|events| - 1];
      AcceptedKeysWereValid(clock, events[..|events| - 1], w);
      var before := Run(clock, events[..|events| - 1], w).value;
      StepIsSound(before.0, e, w);
      StepKeepsJustified(before.1, before.0, e, w);
      if Step(before.0, e, w).value.1.Some? {
        AcceptedNow(before.0, e, w);
      }
      hide Step, Inv, Justified;
    }
  }

  /** A revoked key is not accepted later than the time to live plus the delay after its revocation,
      and an expired one not even at that distance from its expiry. */
  lemma RevocationTakesEffect(clock: int, events: seq<Event>, w: World, a: Acceptance)
    requires Sound(w) && Run(clock, events, w).Some? && a in Run(clock, events, w).value.1
    ensures SplitWireKey(a.key).Some?
    ensures var k := SplitWireKey(a.key).value;
            var rows := Run(clock, events, w).value.0.rows;
            && k.kid in rows && rows[k.kid].tenant == k.tenant == a.tenant
            && (rows[k.kid].revokedAt.Some? ==> a.at <= rows[k.kid].revokedAt.value + w.ttl + w.delay)
            && (rows[k.kid].expiresAt.Some? ==> a.at < rows[k.kid].expiresAt.value + w.ttl + w.delay)
  {
    AcceptedKeysWereValid(clock, events, w);
    assert Justified(a, Run(clock, events, w).value.0.rows, w);
    hide Run, SplitWireKey;
  }

  /** The tenant comparison after a cache hit never fails: a lookup is accepted exactly when its
      entry has not expired. */
  lemma HitIsAcceptedUnlessExpired(s: State, w: World, slot: nat)
    requires Inv(s, w) && slot < |s.held|
    ensures CheckStep(s, slot).1.Some? <==> s.clock <= s.held[slot].entry.expiresAt
  {
    assert s.held[slot] in s.held;
    hide SplitWireKey;
  }

  lemma RunMore(clock: int, events: seq<Event>, e: Event, w: World)
    requires Run(clock, events, w).Some? && Step(Run(clock, events, w).value.0, e, w).Some?
    ensures var before := Run(clock, events, w).value;
            var after := Step(before.0, e, w).value;
            Run(clock, events + [e], w) == Some((after.0, before.1 + if after.1.Some? then [after.1.value] else []))
  {}

  function RevokedRow(k: WireKey, hash: string): Row {
    Row(k.tenant, hash, [], 0, Some(0), None)
  }

  /** Issued, read and revoked at time zero. */
  lemma RevokedAfterRead(w: World, k: WireKey, hash: string) returns (events: seq<Event>)
    requires Sound(w) && w.verify(k.secret, hash) && SplitWireKey(Wire(k)) == Some(k)
    ensures Run(0, events, w).Some?
    ensures Run(0, events, w).value.0 ==
            State(0, map[k.kid := RevokedRow(k, hash)], map[], map[], [Pending(Wire(k), k.tenant, w.parse([]), 0)], [])
  {
    hide SplitWireKey, Wire, Quota;
    var key, row := Wire(k), Row(k.tenant, hash, [], 0, None, None);
    RunMore(0, [], Issue(k.kid, row), w);
    var e1 := [] + [Issue(k.kid, row)];
    RunMore(0, e1, Read(key), w);
    var e2 := e1 + [Read(key)];
    RunMore(0, e2, Revoke(k.tenant, k.kid), w);
    events := e2 + [Revoke(k.tenant, k.kid)];
  }

  /** The same, and put into the cache as late as allowed. */
  lemma CachedAfterRevocation(w: World, k: WireKey, hash: string) returns (events: seq<Event>)
    requires Sound(w) && w.verify(k.secret, hash) && SplitWireKey(Wire(k)) == Some(k)
    ensures Run(0, events, w).Some?
    ensures var key := Wire(k);
            Run(0, events, w).value.0 ==
            State(w.delay, map[k.kid := RevokedRow(k, hash)],
                  map[w.blake(key) := Entry(k.tenant, w.parse([]), w.delay + w.ttl)],
                  map[w.blake(key) := Origin(key, 0)], [], [])
  {
    var read := RevokedAfterRead(w, k, hash);
    hide SplitWireKey, Wire, Quota, Run;
    RunMore(0, read, Tick(w.delay), w);
    var late := read + [Tick(w.delay)];
    RunMore(0, late, Put(0, {}), w);
    events := late + [Put(0, {})];
  }

  /** The bound is exact: for any well-formed key there is a run that accepts it at precisely the
      time to live plus the delay after its revocation. */
  lemma RevocationBoundIsTight(w: World, k: WireKey, hash: string) returns (events: seq<Event>)
    requires Sound(w) && w.verify(k.secret, hash) && Plain(k.tenant) && Plain(k.kid) && Plain(k.secret)
    ensures Run(0, events, w).Some?
    ensures var r := Run(0, events, w).value;
            && k.kid in r.0.rows && r.0.rows[k.kid].revokedAt == Some(0)
            && r.1 != [] && r.1[|r.1| - 1].key == Wire(k) && r.1[|r.1| - 1].at == w.ttl + w.delay
  {
    WireKeyIff(Wire(k), k);
    hide SplitWireKey, Wire, Plain, Quota;
    var e5 := CachedAfterRevocation(w, k, hash);
    var key := Wire(k);
    RunMore(0, e5, Peek(key), w);
    var e6 := e5 + [Peek(key)];
    RunMore(0, e6, Tick(w.delay + w.ttl), w);
    var e7 := e6 + [Tick(w.delay + w.ttl)];
    assert Run(0, e7, w).value.0.held == [Held(key, Entry(k.tenant, w.parse([]), w.delay + w.ttl), 0)];
    RunMore(0, e7, Check(0), w);
    events := e7 + [Check(0)];
  }

  // ---------- one validation from start to finish ----------

  datatype Metadata = Metadata(tenant: string, scopes: seq<string>)

  /** What a validation that runs alone answers. */
  function Answer(entries: map<string, Entry>, rows: map<string, Row>, w: World, key: string, now: int): Option<Metadata> {
    match SplitWireKey(key)
    case None => None
    case Some(k) =>
      var d := w.blake(key);
      if d in entries && now <= entries[d].expiresAt then
        if entries[d].tenant == k.tenant then Some(Metadata(k.tenant, entries[d].scopes)) else None
      else
        match Query(rows, k.tenant, k.kid, now)
        case None => None
        case Some(row) => if w.verify(k.secret, row.hash) then Some(Metadata(k.tenant, w.parse(row.scopes))) else None
  }

  class KeyStore {
    const w: World
    const cache: ValidationCache
    var rows: map<string, Row>

    constructor (w: World)
      ensures this.w == w && fresh(cache) && Valid() && rows == map[] && cache.entries == map[]
    {
      this.w, rows := w, map[];
      cache := new ValidationCache(w.size, w.ttl);
    }

    ghost predicate Valid()
      reads this, cache
    {
      cache.size == w.size && cache.ttl == w.ttl && |cache.entries| <= w.size
    }

    method ValidateKeyWithMetadata(key: string, now: int) returns (r: Option<Metadata>)
      requires Valid() && w.size > 0
      modifies cache
      ensures Valid() && r == Answer(old(cache.entries), rows, w, key, now)
      ensures r.Some? ==> w.blake(key) in cache.entries && cache.entries[w.blake(key)].tenant == r.value.tenant
    {
      hide SplitWireKey;
      var parts := SplitWireKey(key);
      if parts == None {
        return None;
      }
      var k, digest := parts.value, w.blake(key);
      ghost var before := cache.entries;
      var cached := cache.Get(digest, now);
      Smaller(before, digest);
      if cached.Some? {
        if cached.value.tenant != k.tenant {
          return None;
        }
        return Some(Metadata(cached.value.tenant, cached.value.scopes));
      }
      var row := Query(rows, k.tenant, k.kid, now);
      if row == None || !w.verify(k.secret, row.value.hash) {
        return None;
      }
      var scopes := w.parse(row.value.scopes);
      ghost var victims := cache.Put(digest, k.tenant, scopes, now);
      return Some(Metadata(k.tenant, scopes));
    }

    /** Revoking touches the row alone: the cached validation stays until it expires. */
    method RevokeKey(tenant: string, kid: string, now: int) returns (revoked: bool)
      modifies `rows
      ensures rows == RevokeRow(old(rows), tenant, kid, now)
      ensures revoked <==> rows != old(rows)
    {
      if kid in rows && rows[kid].tenant == tenant && rows[kid].revokedAt == None {
        rows := rows[kid := rows[kid].(revokedAt := Some(now))];
        return true;
      }
      return false;
    }
  }

  lemma Smaller(entries: map<string, Entry>, digest: string)
    ensures |entries - {digest}| <= |entries|
  {}
}
