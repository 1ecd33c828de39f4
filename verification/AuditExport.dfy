/** The audit-record export path (pkg/auditlog/auditlog.go, pkg/auditlog/s3.go): a bounded buffer
    with a worker in front of an exporter that batches records into stored objects.

    Goroutines are program counters; every critical section and every PUT is one step. A PUT
    that fails stores nothing, and Close is called after all Appends have returned. */
module AuditExport {
  import opened Optional

  datatype Record = Record(id: string, actor: string, action: string, occurredAt: int)

  /** Record.Validate; time zero is the zero time. */
  predicate IsValid(r: Record) {
    r.actor != "" && r.action != "" && r.occurredAt != 0
  }

  predicate AllValid(rs: seq<Record>) {
    forall r <- rs :: IsValid(r)
  }

  function Flatten(objects: seq<seq<Record>>): seq<Record> {
    if objects == [] then [] else Flatten(objects[..|objects| - 1]) + objects[|objects| - 1]
  }

  // ---------- the exporter object ----------

  datatype AppendOutcome = Invalid | Buffered | MustFlush

  class S3Exporter {
    const flushAtCount: int
    var pending: seq<Record>
    var objects: seq<seq<Record>>

    constructor (flushAtCount: int)
      ensures this.flushAtCount == if flushAtCount == 0 then 1000 else flushAtCount
      ensures pending == [] && objects == []
    {
      this.flushAtCount := if flushAtCount == 0 then 1000 else flushAtCount;
      pending, objects := [], [];
    }

    /** The locked part of Append. */
    method Push(r: Record) returns (o: AppendOutcome)
      modifies `pending
      ensures pending == if IsValid(r) then old(pending) + [r] else old(pending)
      ensures o == if !IsValid(r) then Invalid else if |pending| >= flushAtCount then MustFlush else Buffered
    {
      if !IsValid(r) {
        return Invalid;
      }
      pending := pending + [r];
      return if |pending| >= flushAtCount then MustFlush else Buffered;
    }

    /** The first locked part of flush: swap the pending records out. */
    method Take() returns (batch: seq<Record>)
      modifies `pending
      ensures batch == old(pending) && pending == []
    {
      batch, pending := pending, [];
    }

    /** The rest of flush: the upload, and the push-back when it fails. */
    method Finish(batch: seq<Record>, putOk: bool)
      modifies `pending, `objects
      ensures putOk ==> objects == old(objects) + [batch] && pending == old(pending)
      ensures !putOk ==> objects == old(objects) && pending == batch + old(pending)
    {
      if putOk {
        objects := objects + [batch];
      } else {
        pending := batch + pending;
      }
    }

    /** An uninterrupted flush keeps every record, in order, and empties the queue unless it fails. */
    method Flush(putOk: bool) returns (ok: bool)
      modifies `pending, `objects
      ensures ok <==> putOk || old(pending) == []
      ensures Flatten(objects) + pending == Flatten(old(objects)) + old(pending)
      ensures ok ==> pending == []
      ensures !ok ==> pending == old(pending) && objects == old(objects)
    {
      var batch := Take();
      if |batch| == 0 {
        return true;
      }
      Finish(batch, putOk);
      if putOk {
        assert objects[..|objects| - 1] == old(objects);
      }
      return putOk;
    }

    /** An uninterrupted Append: a valid record is never lost, whatever the upload does. */
    method Append(r: Record, putOk: bool) returns (ok: bool)
      modifies `pending, `objects
      ensures Flatten(objects) + pending == Flatten(old(objects)) + old(pending) + if IsValid(r) then [r] else []
      ensures !IsValid(r) ==> !ok
    {
      var o := Push(r);
      match o
      case Invalid => return false;
      case Buffered =>
        return true;
      case MustFlush =>
        ok := Flush(putOk);
    }
  }

  function ValidOnly(rs: seq<Record>): seq<Record> {
    if rs == [] then [] else (if IsValid(rs[0]) then [rs[0]] else []) + ValidOnly(rs[1..])
  }

  /** The buffer in front, run without interleaving; `putOk(i)` is the outcome of upload `i`. */
  class BufferedExporter {
    const inner: S3Exporter
    const capacity: nat
    var buf: seq<Record>

    /** A capacity that is not positive means the default. */
    constructor (inner: S3Exporter, bufferSize: int)
      ensures this.inner == inner && buf == []
      ensures capacity == if bufferSize <= 0 then 1024 else bufferSize
    {
      this.inner, this.buf := inner, [];
      this.capacity := if bufferSize <= 0 then 1024 else bufferSize;
    }

    /** Records exported so far or queued for export, in order. */
    ghost function Exported(): seq<Record>
      reads inner
    {
      Flatten(inner.objects) + inner.pending
    }

    method Append(r: Record, putOk: bool) returns (ok: bool)
      modifies this, inner
      ensures |old(buf)| < capacity ==> ok && buf == old(buf) + [r] && Exported() == old(Exported())
      ensures |old(buf)| >= capacity ==> buf == old(buf) && Exported() == old(Exported()) + ValidOnly([r])
    {
      if |buf| < capacity {
        buf := buf + [r];
        return true;
      }
      ok := inner.Append(r, putOk);
      assert ValidOnly([r]) == if IsValid(r) then [r] else [];
    }

    /** The worker's drain loop: errors are swallowed, no valid record is lost or reordered. */
    method Drain(putOk: nat -> bool)
      modifies this, inner
      ensures buf == [] && Exported() == old(Exported()) + ValidOnly(old(buf))
    {
      ghost var i := 0;
      var attempts := 0;
      assert buf[0..] == buf;
      while buf != []
        invariant 0 <= i <= |old(buf)| && buf == old(buf)[i..]
        invariant Exported() + ValidOnly(buf) == old(Exported()) + ValidOnly(old(buf))
        decreases |buf|
      {
        var r := buf[0];
        ghost var done := Exported();
        var ok := inner.Append(r, putOk(attempts));
        assert Exported() == done + if IsValid(r) then [r] else [];
        assert done + ValidOnly(buf) == Exported() + ValidOnly(buf[1..]);
        buf := buf[1..];
        i := i + 1;
        attempts := attempts + 1;
      }
      assert Exported() + [] == Exported();
    }

    /** Close: drain, then one last flush. Nil means every valid record is in a stored object. */
    method Close(putOk: nat -> bool, lastPut: bool) returns (ok: bool)
      modifies this, inner
      ensures Exported() == old(Exported()) + ValidOnly(old(buf)) && buf == []
      ensures ok ==> Flatten(inner.objects) == old(Exported()) + ValidOnly(old(buf))
    {
      Drain(putOk);
      ok := inner.Flush(lastPut);
      if ok {
        assert Flatten(inner.objects) + [] == Flatten(inner.objects);
      }
    }
  }

  // ---------- the protocol ----------

  /** Where a goroutine stands. */
  datatype Pc =
    | Idle
    | Holding(r: Record)             // took a record, has not appended it yet
    | ToFlush                        // decided to flush, has not swapped the queue out yet
    | Putting(batch: seq<Record>)    // uploading
    | Exited

  /** Close: not called, waiting for the worker, waiting for the ticker, flushing, returned. */
  datatype Phase = Open | Draining | Stopping | LastFlush | Closed(ok: bool)

  datatype State = State(
    buf: seq<Record>,
    pending: seq<Record>,
    objects: seq<seq<Record>>,
    refused: seq<Record>,
    pcs: seq<Pc>,
    phase: Phase)

  const WORKER: nat := 0
  const TICKER: nat := 1
  const CLOSER: nat := 2
  const FIRST_CALLER: nat := 3

  datatype Event =
    | Enqueue(r: Record)             // Append finds room in the buffer
    | Fallback(r: Record)            // Append finds it full: a caller appends synchronously
    | Receive                        // the worker takes a record from the buffer
    | AppendHeld(who: nat)           // the locked part of the exporter's Append
    | Tick                           // the ticker decides to flush
    | Swap(who: nat)                 // the first locked part of flush
    | Put(who: nat, ok: bool)        // the upload returns
    | CallClose
    | WorkerExits
    | CloseInner
    | TickerExits
    | CloseFlushes

  datatype Config = Config(bufferSize: nat, flushAtCount: int)

  function Init(): State {
    State([], [], [], [], [Idle, Idle, Idle], Open)
  }

  predicate CallersDone(s: State) {
    forall i | FIRST_CALLER <= i < |s.pcs| :: s.pcs[i] == Idle
  }

  /** What Append, flush and Close do to the shared state, one step at a time; None when the step
      is not possible. */
  function Step(s: State, e: Event, c: Config): (r: Option<State>)
    requires |s.pcs| >= FIRST_CALLER
    ensures r.Some? ==> |r.value.pcs| >= FIRST_CALLER
  {
    match e
    case Enqueue(r) =>
      if s.phase == Open && |s.buf| < c.bufferSize then Some(s.(buf := s.buf + [r])) else None
    case Fallback(r) =>
      if s.phase == Open && |s.buf| >= c.bufferSize then Some(s.(pcs := s.pcs + [Holding(r)])) else None
    case Receive =>
      if s.pcs[WORKER] == Idle && s.buf != [] then
        Some(s.(buf := s.buf[1..], pcs := s.pcs[WORKER := Holding(s.buf[0])]))
      else None
    case AppendHeld(who) =>
      if who < |s.pcs| && s.pcs[who].Holding? then Some(AppendStep(s, who, s.pcs[who].r, c)) else None
    case Tick =>
      if s.pcs[TICKER] == Idle then Some(s.(pcs := s.pcs[TICKER := ToFlush])) else None
    case Swap(who) =>
      if who < |s.pcs| && s.pcs[who] == ToFlush then Some(SwapStep(s, who)) else None
    case Put(who, ok) =>
      if who < |s.pcs| && s.pcs[who].Putting? then Some(PutStep(s, who, s.pcs[who].batch, ok)) else None
    case CallClose =>
      if s.phase == Open && CallersDone(s) then Some(s.(phase := Draining)) else None
    case WorkerExits =>
      if s.phase == Draining && s.pcs[WORKER] == Idle && s.buf == [] then Some(s.(pcs := s.pcs[WORKER := Exited])) else None
    case CloseInner =>
      if s.phase == Draining && s.pcs[WORKER] == Exited then Some(s.(phase := Stopping)) else None
    case TickerExits =>
      if s.phase == Stopping && s.pcs[TICKER] == Idle then Some(s.(pcs := s.pcs[TICKER := Exited])) else None
    case CloseFlushes =>
      if s.phase == Stopping && s.pcs[TICKER] == Exited && s.pcs[CLOSER] == Idle then Some(s.(phase := LastFlush, pcs := s.pcs[CLOSER := ToFlush]))
      else None
  }

  function AppendStep(s: State, who: nat, r: Record, c: Config): (n: State)
    requires who < |s.pcs|
    ensures |n.pcs| == |s.pcs|
  {
    if !IsValid(r) then s.(refused := s.refused + [r], pcs := s.pcs[who := Idle])
    else
      var pending := s.pending + [r];
      s.(pending := pending, pcs := s.pcs[who := if |pending| >= c.flushAtCount then ToFlush else Idle])
  }

  /** The closer's flush decides what Close returns. */
  function SwapStep(s: State, who: nat): (n: State)
    requires who < |s.pcs|
    ensures |n.pcs| == |s.pcs|
  {
    if s.pending == [] then
      s.(pcs := s.pcs[who := Idle], phase := if who == CLOSER then Closed(true) else s.phase)
    else s.(pending := [], pcs := s.pcs[who := Putting(s.pending)])
  }

  function PutStep(s: State, who: nat, batch: seq<Record>, ok: bool): (n: State)
    requires who < |s.pcs|
    ensures |n.pcs| == |s.pcs|
  {
    var s' := s.(pcs := s.pcs[who := Idle], phase := if who == CLOSER then Closed(ok) else s.phase);
    if ok then s'.(objects := s.objects + [batch]) else s'.(pending := batch + s.pending)
  }

  function Run(events: seq<Event>, c: Config): (r: Option<State>)
    ensures r.Some? ==> |r.value.pcs| >= FIRST_CALLER
  {
    if events == [] then Some(Init())
    else
      match Run(events[..|events| - 1], c)
      case None => None
      case Some(s) => Step(s, events[|events| - 1], c)
  }

  function Count(rs: seq<Record>, x: Record): nat {
    multiset(rs)[x]
  }

  /** How often `x` is handed to Append by one event, and by a run. */
  function Given(e: Event, x: Record): nat {
    match e
    case Enqueue(r) => if r == x then 1 else 0
    case Fallback(r) => if r == x then 1 else 0
    case _ => 0
  }

  function Submitted(events: seq<Event>, x: Record): nat {
    if events == [] then 0 else Submitted(events[..|events| - 1], x) + Given(events[|events| - 1], x)
  }

  // ---------- where the records are ----------

  function Carried(pc: Pc, x: Record): nat {
    match pc
    case Holding(r) => if r == x then 1 else 0
    case Putting(batch) => Count(batch, x)
    case _ => 0
  }

  function AllCarried(pcs: seq<Pc>, x: Record): nat {
    if pcs == [] then 0 else AllCarried(pcs[..|pcs| - 1], x) + Carried(pcs[|pcs| - 1], x)
  }

  /** The copies of `x` in all places together: the buffer, the goroutines (the worker, a caller or
      an upload), the pending queue, the stored objects, and the records refused as invalid. */
  function Everywhere(s: State, x: Record): nat {
    Count(s.buf, x) + AllCarried(s.pcs, x) + Count(s.pending, x) + Count(Flatten(s.objects), x) + Count(s.refused, x)
  }

  lemma CountConcat(a: seq<Record>, b: seq<Record>, x: Record)
    ensures Count(a + b, x) == Count(a, x) + Count(b, x)
  {}

  lemma CountOne(r: Record, x: Record)
    ensures Count([r], x) == if r == x then 1 else 0
  {}

  lemma {:induction false} CarriedUpdate(pcs: seq<Pc>, i: nat, pc: Pc, x: Record)
    requires i < |pcs|
    ensures AllCarried(pcs[i := pc], x) == AllCarried(pcs, x) - Carried(pcs[i], x) + Carried(pc, x)
  {
    hide Carried;
    var n := |pcs| - 1;
    if i == n {
      assert pcs[i := pc][..n] == pcs[..n];
    } else {
      CarriedUpdate(pcs[..n], i, pc, x);
      assert pcs[i := pc][..n] == pcs[..n][i := pc];
    }
  }

  lemma {:induction false} NothingCarried(pcs: seq<Pc>, x: Record)
    requires forall pc <- pcs :: Carried(pc, x) == 0
    ensures AllCarried(pcs, x) == 0
  {
    if pcs != [] {
      NothingCarried(pcs[..|pcs| - 1], x);
    }
  }

  lemma PutSnoc(objects: seq<seq<Record>>, batch: seq<Record>)
    ensures Flatten(objects + [batch]) == Flatten(objects) + batch
  {}

  /** One step moves records between places and loses none; only Append adds one. */
  lemma StepConserves(s: State, e: Event, c: Config, x: Record)
    requires |s.pcs| >= FIRST_CALLER && Step(s, e, c).Some?
    ensures Everywhere(Step(s, e, c).value, x) == Everywhere(s, x) + Given(e, x)
  {
    hide Flatten, AllCarried, CallersDone, IsValid, Count;
    var n := Step(s, e, c).value;
    match e
    case Enqueue(r) =>
      CountConcat(s.buf, [r], x);
      CountOne(r, x);
    case Fallback(r) => CarriedSnoc(s.pcs, Holding(r), x);
    case Receive =>
      assert s.buf == [s.buf[0]] + s.buf[1..];
      CountConcat([s.buf[0]], s.buf[1..], x);
      CountOne(s.buf[0], x);
      CarriedUpdate(s.pcs, WORKER, Holding(s.buf[0]), x);
    case AppendHeld(who) =>
      CarriedUpdate(s.pcs, who, n.pcs[who], x);
      CountOne(s.pcs[who].r, x);
      CountConcat(s.pending, [s.pcs[who].r], x);
      CountConcat(s.refused, [s.pcs[who].r], x);
    case Tick => CarriedUpdate(s.pcs, TICKER, ToFlush, x);
    case Swap(who) =>
      CarriedUpdate(s.pcs, who, n.pcs[who], x);
      CountNone(x);
    case Put(who, ok) =>
      CarriedUpdate(s.pcs, who, Idle, x);
      PutSnoc(s.objects, s.pcs[who].batch);
      CountConcat(Flatten(s.objects), s.pcs[who].batch, x);
      CountConcat(s.pcs[who].batch, s.pending, x);
    case CallClose =>
    case WorkerExits => CarriedUpdate(s.pcs, WORKER, Exited, x);
    case CloseInner =>
    case TickerExits => CarriedUpdate(s.pcs, TICKER, Exited, x);
    case CloseFlushes => CarriedUpdate(s.pcs, CLOSER, ToFlush, x);
  }

  lemma CountNone(x: Record)
    ensures Count([], x) == 0
  {}

  lemma CarriedSnoc(pcs: seq<Pc>, pc: Pc, x: Record)
    ensures AllCarried(pcs + [pc], x) == AllCarried(pcs, x) + Carried(pc, x)
  {}

  /** In every interleaving, each record handed to Append is in exactly one place: every record
      occurs over all places together exactly as often as it was handed over. */
  lemma {:induction false} RecordsAreConserved(events: seq<Event>, c: Config, x: Record)
    requires Run(events, c).Some?
    ensures Everywhere(Run(events, c).value, x) == Submitted(events, x)
  {
    hide Everywhere, Step, Given;
    if events == [] {
      NothingAtStart(x);
    } else {
      var before := events[..|events| - 1];
      RecordsAreConserved(before, c, x);
      StepConserves(Run(before, c).value, events[|events| - 1], c, x);
    }
  }

  lemma NothingAtStart(x: Record)
    ensures Everywhere(Init(), x) == 0
  {
    NothingCarried(Init().pcs, x);
  }

  // ---------- invariants ----------

  predicate PcOk(pc: Pc) {
    pc.Putting? ==> AllValid(pc.batch) && pc.batch != []
  }

  /** What Close's progress implies about everybody else. */
  predicate PhaseOk(s: State)
    requires |s.pcs| >= FIRST_CALLER
  {
    && (s.pcs[CLOSER] != Idle ==> s.phase == LastFlush && (s.pcs[CLOSER] == ToFlush || (s.pcs[CLOSER].Putting? && s.pending == [])))
    && (s.phase != Open ==> CallersDone(s))
    && (!s.phase.Open? && !s.phase.Draining? ==> s.pcs[WORKER] == Exited && s.buf == [])
    && (s.pcs[WORKER] == Exited ==> s.buf == [] && s.phase != Open)
    && (s.pcs[TICKER] == Exited ==> !s.phase.Open? && !s.phase.Draining?)
    && (s.phase == LastFlush || s.phase.Closed? ==> s.pcs[TICKER] == Exited)
    && (s.phase.Closed? ==> s.pcs[CLOSER] == Idle && (s.phase.ok <==> s.pending == []))
  }

  predicate Inv(s: State) {
    && |s.pcs| >= FIRST_CALLER
    && AllValid(s.pending) && AllValid(Flatten(s.objects)) && (forall r <- s.refused :: !IsValid(r))
    && (forall pc <- s.pcs :: PcOk(pc))
    && PhaseOk(s)
  }

  lemma StepKeepsValidity(s: State, e: Event, c: Config)
    requires Inv(s) && Step(s, e, c).Some?
    ensures var n := Step(s, e, c).value;
            && AllValid(n.pending) && AllValid(Flatten(n.objects)) && (forall r <- n.refused :: !IsValid(r))
            && (forall pc <- n.pcs :: PcOk(pc))
  {
    hide PhaseOk, CallersDone, IsValid;
    if e.Put? {
      assert PcOk(s.pcs[e.who]);
      PutSnoc(s.objects, s.pcs[e.who].batch);
    }
  }

  lemma StepKeepsPhases(s: State, e: Event, c: Config)
    requires Inv(s) && Step(s, e, c).Some?
    ensures PhaseOk(Step(s, e, c).value)
  {
    hide IsValid, Flatten, AllValid;
    if e.Put? {
      assert PcOk(s.pcs[e.who]);
    }
  }

  lemma {:induction false} RunKeepsInv(events: seq<Event>, c: Config)
    requires Run(events, c).Some?
    ensures Inv(Run(events, c).value)
  {
    hide Step;
    if events != [] {
      var before := events[..|events| - 1];
      RunKeepsInv(before, c);
      StepKeepsValidity(Run(before, c).value, events[|events| - 1], c);
      StepKeepsPhases(Run(before, c).value, events[|events| - 1], c);
    }
  }

  /** Whatever the interleaving: when Close returns nil, every valid record ever handed to Append
      is stored exactly as often as it was handed over, and no other record is; when it returns an
      error, those not stored are all still queued, and there is at least one. */
  lemma CloseAccountsForEverything(events: seq<Event>, c: Config, x: Record)
    requires Run(events, c).Some? && Run(events, c).value.phase.Closed?
    ensures var s := Run(events, c).value;
            var stored := Count(Flatten(s.objects), x);
            && stored + Count(s.pending, x) == (if IsValid(x) then Submitted(events, x) else 0)
            && (s.phase.ok <==> s.pending == [])
            && (s.phase.ok ==> stored == if IsValid(x) then Submitted(events, x) else 0)
  {
    RunKeepsInv(events, c);
    RecordsAreConserved(events, c, x);
    hide Step, Run, Flatten;
    var s := Run(events, c).value;
    AllQuiet(s, x);
    CountValid(s.pending, x);
    CountValid(Flatten(s.objects), x);
    CountInvalid(s.refused, x);
  }

  lemma AllQuiet(s: State, x: Record)
    requires Inv(s) && s.phase.Closed?
    ensures AllCarried(s.pcs, x) == 0 && s.buf == []
  {
    forall i | 0 <= i < |s.pcs| ensures Carried(s.pcs[i], x) == 0 {
      assert s.pcs[i] == Idle || s.pcs[i] == Exited || i == TICKER;
    }
    NothingCarried(s.pcs, x);
  }

  lemma CountValid(rs: seq<Record>, x: Record)
    requires AllValid(rs)
    ensures !IsValid(x) ==> Count(rs, x) == 0
  {}

  lemma CountInvalid(rs: seq<Record>, x: Record)
    requires forall r <- rs :: !IsValid(r)
    ensures IsValid(x) ==> Count(rs, x) == 0
  {}
}
