/** The live tail of logs (services/query-engine/cmd/logs_sse.go): a cursor, a poll for rows newer
    than it in batches of at most 200, and rows that become visible at any time. Timestamps are
    integers that the driver always hands over, and rows of one tenant that pass the filters are
    told apart by an identity. */
module LiveTail {
  import opened Optional

  const CAP := 200

  datatype Row = Row(id: int, at: int)

  // ---------- the handler's loop ----------

  datatype Arg = Text(text: string) | Time(at: int) | Limit(rows: int)

  datatype Clause = TenantIs | NewerThan | ServiceIs | SeverityIs | LimitTo

  /** The columns of a stored log line that the query looks at. */
  datatype Line = Line(tenant: string, service: string, severity: string, at: int)

  predicate Holds(c: Clause, a: Arg, l: Line) {
    match c
    case TenantIs => a == Text(l.tenant)
    case NewerThan => a.Time? && l.at > a.at
    case ServiceIs => a == Text(l.service)
    case SeverityIs => a == Text(l.severity)
    case LimitTo => a.Limit?
  }

  /** Every clause, each on its own argument, lets the line through. */
  predicate Selects(clauses: seq<Clause>, args: seq<Arg>, l: Line)
    requires |clauses| == |args|
  {
    forall k | 0 <= k < |clauses| :: Holds(clauses[k], args[k], l)
  }

  /** The cursor after a batch: the latest timestamp seen. */
  function Advance(cursor: int, batch: seq<Row>): (c: int)
    ensures c >= cursor
  {
    if batch == [] then cursor
    else
      var c := Advance(cursor, batch[..|batch| - 1]);
      if batch[|batch| - 1].at > c then batch[|batch| - 1].at else c
  }

  class Handler {
    var lastSeen: int
    var args: seq<Arg>
    var sent: seq<Row>
    const clauses: seq<Clause>
    const tenant: string
    const service: string
    const severity: string

    /** One argument per clause, the cursor second, and the batch cap last. */
    ghost predicate Valid()
      reads this
    {
      var cs := if service != "" then [ServiceIs] else [];
      var xs := if service != "" then [Text(service)] else [];
      var cs', xs' := cs + if severity != "" then [SeverityIs] else [], xs + if severity != "" then [Text(severity)] else [];
      && clauses == [TenantIs, NewerThan] + cs' + [LimitTo]
      && |args| == |clauses| && args[1].Time? && args == [Text(tenant), args[1]] + xs' + [Limit(CAP)]
    }

    constructor (tenant: string, service: string, severity: string, now: int)
      ensures Valid() && lastSeen == now - 5_000_000_000 && sent == []
      ensures this.tenant == tenant && this.service == service && this.severity == severity
    {
      var seen := now - 5_000_000_000;
      var cs, xs := [TenantIs, NewerThan], [Text(tenant), Time(seen)];
      if service != "" {
        cs, xs := cs + [ServiceIs], xs + [Text(service)];
      }
      if severity != "" {
        cs, xs := cs + [SeverityIs], xs + [Text(severity)];
      }
      this.tenant, this.service, this.severity := tenant, service, severity;
      lastSeen, args, sent, clauses := seen, xs + [Limit(CAP)], [], cs + [LimitTo];
    }

    /** The next query, with the cursor in its place, asks for the tenant's own lines newer than the
        cursor that pass the filters the client gave, and for no more than a batch of them. */
    method Bind() returns (bound: seq<Arg>)
      requires Valid()
      modifies `args
      ensures Valid() && bound == args && |bound| == |clauses| && bound[|bound| - 1] == Limit(CAP)
      ensures forall l :: Selects(clauses, bound, l) <==>
                && l.tenant == tenant && l.at > lastSeen
                && (service != "" ==> l.service == service) && (severity != "" ==> l.severity == severity)
    {
      args := args[1 := Time(lastSeen)];
      bound := args;
      forall l ensures Selects(clauses, bound, l) <==>
                && l.tenant == tenant && l.at > lastSeen
                && (service != "" ==> l.service == service) && (severity != "" ==> l.severity == severity) {
        SelectsIff(l);
      }
    }

    lemma SelectsIff(l: Line)
      requires Valid()
      ensures Selects(clauses, args, l) <==>
                && l.tenant == tenant && l.at > args[1].at
                && (service != "" ==> l.service == service) && (severity != "" ==> l.severity == severity)
    {
      var wanted := Selects(clauses, args, l);
      var n := |clauses|;
      assert wanted ==> Holds(clauses[0], args[0], l) && Holds(clauses[1], args[1], l);
      assert wanted && n > 3 ==> Holds(clauses[2], args[2], l);
      assert wanted && n > 4 ==> Holds(clauses[3], args[3], l);
    }

    /** Emit a batch; the client takes the first `accepts` rows and then goes away. */
    method Emit(rows: seq<Row>, accepts: nat) returns (alive: bool)
      modifies `lastSeen, `sent
      ensures alive <==> |rows| <= accepts
      ensures sent == old(sent) + rows[..if alive then |rows| else accepts]
      ensures alive ==> lastSeen == Advance(old(lastSeen), rows)
    {
      for i := 0 to |rows|
        invariant i <= accepts && sent == old(sent) + rows[..i] && lastSeen == Advance(old(lastSeen), rows[..i])
      {
        assert rows[..i + 1][..i] == rows[..i];
        if rows[i].at > lastSeen {
          lastSeen := rows[i].at;
        }
        if i == accepts {
          return false;
        }
        sent := sent + [rows[i]];
      }
      assert rows[..|rows|] == rows;
      return true;
    }
  }

  // ---------- the protocol ----------

  datatype State = State(start: int, visible: seq<Row>, cursor: int, sent: seq<Row>)

  datatype Event = Insert(row: Row) | Poll(batch: seq<Row>)

  function Init(start: int, visible: seq<Row>): State {
    State(start, visible, start, [])
  }

  predicate Distinct(rows: seq<Row>) {
    forall i, j | 0 <= i < j < |rows| :: rows[i] != rows[j]
  }

  predicate Ascending(rows: seq<Row>) {
    forall i, j | 0 <= i < j < |rows| :: rows[i].at <= rows[j].at
  }

  /** The visible rows newer than a time, in the order they became visible. */
  function Newer(rows: seq<Row>, t: int): seq<Row> {
    if rows == [] then []
    else Newer(rows[..|rows| - 1], t) + if rows[|rows| - 1].at > t then [rows[|rows| - 1]] else []
  }

  /** An answer to the query: rows newer than the cursor, ascending, at most the cap, and none left
      out that is older than one returned. Ties may come in any order. */
  predicate IsAnswer(visible: seq<Row>, cursor: int, batch: seq<Row>) {
    && Distinct(batch) && Ascending(batch)
    && |batch| == (if |Newer(visible, cursor)| < CAP then |Newer(visible, cursor)| else CAP)
    && (forall r <- batch :: r in visible && r.at > cursor)
    && (forall r <- visible | r.at > cursor && r !in batch :: batch != [] && r.at >= batch[|batch| - 1].at)
  }

  function Step(s: State, e: Event): Option<State> {
    match e
    case Insert(r) => if r in s.visible then None else Some(s.(visible := s.visible + [r]))
    case Poll(batch) =>
      if IsAnswer(s.visible, s.cursor, batch)
      then Some(s.(cursor := Advance(s.cursor, batch), sent := s.sent + batch)) else None
  }

  function Run(start: int, visible: seq<Row>, events: seq<Event>): Option<State> {
    if events == [] then Some(Init(start, visible))
    else
      match Run(start, visible, events[..|events| - 1])
      case None => None
      case Some(s) => Step(s, events[|events| - 1])
  }

  // ---------- never twice ----------

  predicate Inv(s: State) {
    && Distinct(s.visible) && Distinct(s.sent) && s.cursor >= s.start
    && forall r <- s.sent :: r in s.visible && s.start < r.at <= s.cursor
  }

  lemma {:induction false} AdvanceCovers(cursor: int, batch: seq<Row>)
    ensures forall r <- batch :: r.at <= Advance(cursor, batch)
    ensures Advance(cursor, batch) == cursor || exists r <- batch :: r.at == Advance(cursor, batch)
  {
    if batch != [] {
      AdvanceCovers(cursor, batch[..|batch| - 1]);
      assert batch == batch[..|batch| - 1] + [batch[|batch| - 1]];
    }
  }

  /** Over every run, with rows becoming visible at any time and in any order, no row is ever sent
      twice, and only visible rows newer than the start are sent. */
  lemma {:induction false} NeverTwice(start: int, visible: seq<Row>, events: seq<Event>)
    requires Distinct(visible) && Run(start, visible, events).Some?
    ensures var s := Run(start, visible, events).value;
            Inv(s) && Distinct(s.sent) && s.start == start && forall r <- s.sent :: r in s.visible && r.at > start
  {
    if events != [] {
      NeverTwice(start, visible, events[..|events| - 1]);
    }
  }

  // ---------- no gap ----------

  /** Everything visible, newer than the start and not after the cursor has been sent. */
  predicate Complete(s: State) {
    forall r <- s.visible | s.start < r.at <= s.cursor :: r in s.sent
  }

  /** A step that opens no gap: a new row is not behind the cursor, and a full batch does not end
      among rows of one timestamp. */
  predicate Clean(s: State, e: Event) {
    match e
    case Insert(r) => r.at <= s.start || r.at > s.cursor
    case Poll(batch) => batch != [] ==> forall r <- s.visible | r !in batch :: r.at != batch[|batch| - 1].at
  }

  lemma LastIsCursor(s: State, batch: seq<Row>)
    requires IsAnswer(s.visible, s.cursor, batch) && batch != []
    ensures Advance(s.cursor, batch) == batch[|batch| - 1].at
  {
    AdvanceCovers(s.cursor, batch);
    assert batch[|batch| - 1] in batch;
    assert forall r <- batch :: r.at <= batch[|batch| - 1].at;
  }

  lemma CompleteIffClean(s: State, e: Event)
    requires Inv(s) && Step(s, e).Some? && Complete(s)
    ensures Complete(Step(s, e).value) <==> Clean(s, e)
  {
    var n := Step(s, e).value;
    match e
    case Insert(r) =>
      assert r in n.visible;
    case Poll(batch) =>
      if batch == [] {
        assert s.sent + batch == s.sent;
      } else {
        LastIsCursor(s, batch);
        assert batch[|batch| - 1] in batch;
      }
  }

  /** A row that was passed over is never sent later. */
  lemma MissedForever(s: State, e: Event, r: Row)
    requires Inv(s) && Step(s, e).Some? && r in s.visible && s.start < r.at <= s.cursor && r !in s.sent
    ensures var n := Step(s, e).value; r in n.visible && n.start < r.at <= n.cursor && r !in n.sent
  {
    if e.Poll? {
      AdvanceCovers(s.cursor, e.batch);
    }
  }

  predicate AllClean(start: int, visible: seq<Row>, events: seq<Event>) {
    events != [] ==>
      && AllClean(start, visible, events[..|events| - 1])
      && var s := Run(start, visible, events[..|events| - 1]);
         s.Some? ==> Clean(s.value, events[|events| - 1])
  }

  /** Nothing was passed over if and only if every step was clean. */
  lemma {:induction false} CompleteIffAllClean(start: int, visible: seq<Row>, events: seq<Event>)
    requires Distinct(visible) && Run(start, visible, events).Some?
    ensures Complete(Run(start, visible, events).value) <==> AllClean(start, visible, events)
  {
    if events != [] {
      var before, e := events[..|events| - 1], events[|events| - 1];
      CompleteIffAllClean(start, visible, before);
      NeverTwice(start, visible, before);
      var s := Run(start, visible, before).value;
      if Complete(s) {
        CompleteIffClean(s, e);
      } else {
        var r :| r in s.visible && s.start < r.at <= s.cursor && r !in s.sent;
        MissedForever(s, e, r);
      }
    }
  }

  // ---------- strictly increasing visibility ----------

  predicate Increasing(rows: seq<Row>) {
    forall i, j | 0 <= i < j < |rows| :: rows[i].at < rows[j].at
  }

  lemma {:induction false} NewerMembers(rows: seq<Row>, t: int)
    ensures forall r :: r in Newer(rows, t) <==> r in rows && r.at > t
  {
    if rows != [] {
      NewerMembers(rows[..|rows| - 1], t);
      assert rows == rows[..|rows| - 1] + [rows[|rows| - 1]];
    }
  }

  lemma {:induction false} NewerIncreasing(rows: seq<Row>, t: int)
    requires Increasing(rows)
    ensures Increasing(Newer(rows, t))
    ensures forall r <- Newer(rows, t) :: r.at <= rows[|rows| - 1].at
  {
    if rows != [] {
      var before := rows[..|rows| - 1];
      NewerIncreasing(before, t);
      var front := Newer(before, t);
      assert forall k | 0 <= k < |front| :: front[k] in front;
    }
  }

  /** An increasing list that misses nothing older than its last element is a prefix. */
  lemma {:induction false} OldestFirst(batch: seq<Row>, all: seq<Row>)
    requires Increasing(batch) && Increasing(all) && forall r <- batch :: r in all
    requires batch != [] ==> forall r <- all | r !in batch :: r.at >= batch[|batch| - 1].at
    ensures batch <= all
  {
    if batch != [] {
      SameFirst(batch, all);
      OldestFirst(batch[1..], all[1..]);
    }
  }

  lemma SameFirst(batch: seq<Row>, all: seq<Row>)
    requires Increasing(batch) && Increasing(all) && batch != [] && forall r <- batch :: r in all
    requires forall r <- all | r !in batch :: r.at >= batch[|batch| - 1].at
    ensures all != [] && batch[0] == all[0]
  {}

  /** With distinct timestamps the answer is determined: the oldest rows after the cursor. */
  lemma AnswerIsPrefix(visible: seq<Row>, cursor: int, batch: seq<Row>)
    requires Increasing(visible) && IsAnswer(visible, cursor, batch)
    ensures batch <= Newer(visible, cursor)
  {
    NewerMembers(visible, cursor);
    NewerIncreasing(visible, cursor);
    BatchIncreases(visible, batch);
    OldestFirst(batch, Newer(visible, cursor));
  }

  lemma BatchIncreases(visible: seq<Row>, batch: seq<Row>)
    requires Increasing(visible) && Distinct(batch) && Ascending(batch) && forall r <- batch :: r in visible
    ensures Increasing(batch)
  {
    forall i, j | 0 <= i < j < |batch| ensures batch[i].at < batch[j].at {
      assert batch[i] in batch && batch[j] in batch;
      var k :| 0 <= k < |visible| && visible[k] == batch[i];
      var m :| 0 <= m < |visible| && visible[m] == batch[j];
    }
  }

  lemma {:induction false} NewerTwice(rows: seq<Row>, start: int, cursor: int)
    requires start <= cursor
    ensures Newer(Newer(rows, start), cursor) == Newer(rows, cursor)
  {
    if rows != [] {
      var before, last := rows[..|rows| - 1], rows[|rows| - 1];
      NewerTwice(before, start, cursor);
      var front := Newer(before, start);
      assert (front + [last])[..|front|] == front;
      assert front + [] == front;
    }
  }

  lemma {:induction false} NewerThanTheFirst(all: seq<Row>, n: nat, cursor: int)
    requires Increasing(all) && n <= |all|
    requires forall k | 0 <= k < n :: all[k].at <= cursor
    requires forall k | n <= k < |all| :: all[k].at > cursor
    ensures Newer(all, cursor) == all[n..]
  {
    if all != [] {
      var before := all[..|all| - 1];
      if n == |all| {
        NewerThanTheFirst(before, n - 1, cursor);
        assert Newer(all, cursor) == [];
      } else {
        NewerThanTheFirst(before, n, cursor);
        assert all[n..] == before[n..] + [all[|all| - 1]];
      }
    }
  }

  /** After n rows have been sent, the rows after the cursor are the rest. */
  lemma NewerLater(rows: seq<Row>, start: int, cursor: int, n: nat)
    requires Increasing(rows) && start <= cursor && n <= |Newer(rows, start)|
    requires if n == 0 then cursor == start else cursor == Newer(rows, start)[n - 1].at
    ensures Newer(rows, cursor) == Newer(rows, start)[n..]
  {
    hide Newer;
    var all := Newer(rows, start);
    NewerMembers(rows, start);
    NewerIncreasing(rows, start);
    forall k | 0 <= k < |all| ensures all[k].at > start {
      assert all[k] in all;
    }
    NewerTwice(rows, start, cursor);
    NewerThanTheFirst(all, n, cursor);
  }

  /** What has been sent is a prefix of the rows newer than the start, and the cursor its end. */
  predicate IsPrefix(s: State) {
    && Increasing(s.visible)
    && |s.sent| <= |Newer(s.visible, s.start)| && s.sent == Newer(s.visible, s.start)[..|s.sent|]
    && s.cursor == if s.sent == [] then s.start else s.sent[|s.sent| - 1].at
  }

  /** A row becomes visible after every row that is visible, and after the cursor. */
  predicate InOrder(s: State, e: Event) {
    e.Insert? ==> forall r <- s.visible :: r.at < e.row.at
  }

  /** How many rows the next poll sends: all that are left, or the cap. */
  function NextBatch(s: State): int {
    var left := |Newer(s.visible, s.start)| - |s.sent|;
    if left < CAP then left else CAP
  }

  lemma InsertKeepsPrefix(s: State, r: Row)
    requires IsPrefix(s) && InOrder(s, Insert(r))
    ensures IsPrefix(s.(visible := s.visible + [r]))
  {}

  lemma PollKeepsPrefix(s: State, batch: seq<Row>)
    requires Inv(s) && IsPrefix(s) && IsAnswer(s.visible, s.cursor, batch)
    ensures IsPrefix(Step(s, Poll(batch)).value)
    ensures |batch| == NextBatch(s)
  {
    hide Newer, Advance, Ascending, Distinct;
    var all, n := Newer(s.visible, s.start), |s.sent|;
    NewerLater(s.visible, s.start, s.cursor, n);
    AnswerIsPrefix(s.visible, s.cursor, batch);
    assert s.sent + batch == all[..n + |batch|];
    if batch == [] {
      NoAdvance(s.cursor);
      assert s.sent + batch == s.sent;
    } else {
      LastIsCursor(s, batch);
    }
  }

  lemma NoAdvance(cursor: int)
    ensures Advance(cursor, []) == cursor
  {}

  /** Each poll sends the next rows of the log: all that are left, or the cap. */
  lemma StepKeepsPrefix(s: State, e: Event)
    requires Inv(s) && IsPrefix(s) && Step(s, e).Some? && InOrder(s, e)
    ensures IsPrefix(Step(s, e).value)
    ensures e.Poll? ==> |Step(s, e).value.sent| == |s.sent| + |e.batch| && |e.batch| == NextBatch(s)
  {
    hide IsPrefix, Inv, IsAnswer, InOrder;
    match e
    case Insert(r) => InsertKeepsPrefix(s, r);
    case Poll(batch) => PollKeepsPrefix(s, batch);
  }

  predicate AllInOrder(start: int, visible: seq<Row>, events: seq<Event>) {
    events != [] ==>
      && AllInOrder(start, visible, events[..|events| - 1])
      && var s := Run(start, visible, events[..|events| - 1]);
         s.Some? ==> InOrder(s.value, events[|events| - 1])
  }

  /** When rows become visible in strictly increasing timestamp order, what has been sent is exactly
      a prefix of the rows newer than the start, across any number of batches. */
  lemma {:induction false} SentIsPrefix(start: int, visible: seq<Row>, events: seq<Event>)
    requires Increasing(visible) && Run(start, visible, events).Some? && AllInOrder(start, visible, events)
    ensures var s := Run(start, visible, events).value;
            IsPrefix(s) && s.start == start && s.sent == Newer(s.visible, start)[..|s.sent|]
  {
    if events != [] {
      var before, e := events[..|events| - 1], events[|events| - 1];
      SentIsPrefix(start, visible, before);
      NeverTwice(start, visible, before);
      StepKeepsPrefix(Run(start, visible, before).value, e);
    }
  }
}
