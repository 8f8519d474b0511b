/** The batched audit writer behind its queue, and the tables it fills: db.rs, migrations.rs. */
module AuditLog {
  import opened Text

  datatype AuditWrite = AuditWrite(
    decisionId: string, principal: string, action: string, resource: string, subject: Option<string>,
    decision: string, policyRevision: string, signatureKeyId: Option<string>, latencyMs: int,
    timestamp: string, evidenceJson: string)

  datatype Evidence = Evidence(evidenceJson: string, createdAt: string)

  /** `audit_log` by its AUTOINCREMENT key, with the last key given out, and `decision_evidence` by decision id. */
  datatype Tables = Tables(auditLog: map<nat, AuditWrite>, lastId: nat, evidence: map<string, Evidence>)

  const EMPTY := Tables(map[], 0, map[])

  const BATCH_LIMIT: nat := 64

  /** INSERT OR REPLACE on the unique decision id: the old row goes, the new row gets a new key. */
  function ReplaceLog(t: Tables, w: AuditWrite): Tables {
    var others := map id | id in t.auditLog && t.auditLog[id].decisionId != w.decisionId :: t.auditLog[id];
    t.(auditLog := others[t.lastId + 1 := w], lastId := t.lastId + 1)
  }

  function ReplaceEvidence(t: Tables, w: AuditWrite): Tables {
    t.(evidence := t.evidence[w.decisionId := Evidence(w.evidenceJson, w.timestamp)])
  }

  function Insert(t: Tables, w: AuditWrite): Tables {
    ReplaceEvidence(ReplaceLog(t, w), w)
  }

  /** One insertion after another. */
  function InsertAll(t: Tables, ws: seq<AuditWrite>): Tables {
    if ws == [] then t else Insert(InsertAll(t, ws[..|ws| - 1]), ws[|ws| - 1])
  }

  lemma {:induction false} InsertAllAppend(t: Tables, a: seq<AuditWrite>, b: seq<AuditWrite>)
    ensures InsertAll(t, a + b) == InsertAll(InsertAll(t, a), b)
    decreases b
  {
    hide Insert;
    if b == [] {
      assert a + b == a;
    } else {
      var init := b[..|b| - 1];
      assert (a + b)[..|a + b| - 1] == a + init;
      InsertAllAppend(t, a, init);
    }
  }

  function Flatten(parts: seq<seq<AuditWrite>>): seq<AuditWrite> {
    if parts == [] then [] else parts[0] + Flatten(parts[1..])
  }

  lemma {:induction false} FlattenSnoc(parts: seq<seq<AuditWrite>>, last: seq<AuditWrite>)
    ensures Flatten(parts + [last]) == Flatten(parts) + last
    decreases parts
  {
    if parts == [] {
      assert parts + [last] == [last];
      assert Flatten([last]) == last + Flatten([]);
    } else {
      FlattenSnoc(parts[1..], last);
      assert (parts + [last])[1..] == parts[1..] + [last];
    }
  }

  // ----- what the tables hold -----

  /** No later write carries this one's decision id. */
  predicate IsLast(ws: seq<AuditWrite>, i: nat)
    requires i < |ws|
  {
    forall j | i < j < |ws| :: ws[j].decisionId != ws[i].decisionId
  }

  /** The rows are the last write of each decision id, under keys in the order they were sent. */
  ghost predicate HoldsLastWrites(t: Tables, ws: seq<AuditWrite>) {
    && t.lastId == |ws|
    && (forall id :: id in t.auditLog <==> 1 <= id <= |ws| && IsLast(ws, id - 1))
    && (forall id | id in t.auditLog :: t.auditLog[id] == ws[id - 1])
  }

  /** Both tables hold the same decision ids, with the same evidence and time. */
  ghost predicate SameIds(t: Tables) {
    && (forall id | id in t.auditLog ::
          var w := t.auditLog[id];
          w.decisionId in t.evidence && t.evidence[w.decisionId] == Evidence(w.evidenceJson, w.timestamp))
    && (forall d | d in t.evidence :: exists id :: id in t.auditLog && t.auditLog[id].decisionId == d)
  }

  lemma {:induction false} InsertedRows(ws: seq<AuditWrite>)
    ensures HoldsLastWrites(InsertAll(EMPTY, ws), ws)
    decreases ws
  {
    if ws != [] {
      var init, w := ws[..|ws| - 1], ws[|ws| - 1];
      var before, after := InsertAll(EMPTY, init), InsertAll(EMPTY, ws);
      InsertedRows(init);
      forall id: nat
        ensures id in after.auditLog <==> 1 <= id <= |ws| && IsLast(ws, id - 1)
        ensures id in after.auditLog ==> after.auditLog[id] == ws[id - 1]
      {
        if 1 <= id <= |init| {
          assert init[id - 1] == ws[id - 1];
          assert IsLast(ws, id - 1) <==> IsLast(init, id - 1) && w.decisionId != ws[id - 1].decisionId;
        }
      }
    }
  }

  lemma InsertKeepsSameIds(t: Tables, w: AuditWrite)
    requires SameIds(t) && t.lastId + 1 !in t.auditLog
    ensures SameIds(Insert(t, w))
  {
    var after := Insert(t, w);
    forall d | d in after.evidence
      ensures exists id :: id in after.auditLog && after.auditLog[id].decisionId == d
    {
      if d == w.decisionId {
        assert after.auditLog[t.lastId + 1].decisionId == d;
      } else {
        var id :| id in t.auditLog && t.auditLog[id].decisionId == d;
        assert after.auditLog[id].decisionId == d;
      }
    }
  }

  lemma {:induction false} InsertedIds(ws: seq<AuditWrite>)
    ensures SameIds(InsertAll(EMPTY, ws))
    decreases ws
  {
    hide SameIds, Insert;
    if ws == [] {
      NothingHasSameIds();
    } else {
      var init := ws[..|ws| - 1];
      InsertedIds(init);
      InsertedRows(init);
      InsertKeepsSameIds(InsertAll(EMPTY, init), ws[|ws| - 1]);
    }
  }

  lemma NothingHasSameIds()
    ensures SameIds(EMPTY)
  {}

  // ----- reading -----

  /** `ORDER BY id DESC LIMIT`: the keys at or below `top`, greatest first. */
  function NewestIds(log: map<nat, AuditWrite>, top: nat, limit: nat): (r: seq<nat>)
    ensures forall k | 0 <= k < |r| :: r[k] in log && r[k] <= top
  {
    if top == 0 || limit == 0 then []
    else if top in log then [top] + NewestIds(log, top - 1, limit - 1)
    else NewestIds(log, top - 1, limit)
  }

  function Rows(log: map<nat, AuditWrite>, ids: seq<nat>): (r: seq<AuditWrite>)
    requires forall k | 0 <= k < |ids| :: ids[k] in log
    ensures |r| == |ids| && forall k | 0 <= k < |ids| :: r[k] == log[ids[k]]
  {
    seq(|ids|, k requires 0 <= k < |ids| => log[ids[k]])
  }

  function RowsBelow(log: map<nat, AuditWrite>, top: nat, limit: nat): seq<AuditWrite> {
    Rows(log, NewestIds(log, top, limit))
  }

  lemma RowsBelowStep(log: map<nat, AuditWrite>, top: nat, limit: nat)
    requires top != 0 && limit != 0
    ensures RowsBelow(log, top, limit)
         == if top in log then [log[top]] + RowsBelow(log, top - 1, limit - 1) else RowsBelow(log, top - 1, limit)
  {}

  lemma NoRowsBelow(log: map<nat, AuditWrite>, top: nat, limit: nat)
    requires top == 0 || limit == 0
    ensures RowsBelow(log, top, limit) == []
  {}

  function Recent(t: Tables, limit: nat): seq<AuditWrite> {
    RowsBelow(t.auditLog, t.lastId, limit)
  }

  lemma {:induction false} NewestIdsOrdered(log: map<nat, AuditWrite>, top: nat, limit: nat)
    ensures var r := NewestIds(log, top, limit);
            && |r| <= limit
            && (forall j, k | 0 <= j < k < |r| :: r[k] < r[j])
    decreases top
  {
    if top != 0 && limit != 0 {
      NewestIdsOrdered(log, top - 1, if top in log then limit - 1 else limit);
    }
  }

  lemma {:induction false} NewestIdsCover(log: map<nat, AuditWrite>, top: nat, limit: nat, id: nat)
    requires id in log && 1 <= id <= top
    ensures var r := NewestIds(log, top, limit); id in r || (|r| == limit && forall k | 0 <= k < |r| :: id < r[k])
    decreases top
  {
    if limit != 0 && top in log && id < top {
      NewestIdsCover(log, top - 1, limit - 1, id);
      var rest := NewestIds(log, top - 1, limit - 1);
      assert NewestIds(log, top, limit) == [top] + rest;
    } else if limit != 0 && id < top {
      NewestIdsCover(log, top - 1, limit, id);
    }
  }

  /**
   * The listing of what was inserted: the last write of each listed decision id, no id twice,
   * newest last write first, and the newest up to the limit.
   */
  ghost predicate IsNewestFirst(out: seq<AuditWrite>, ws: seq<AuditWrite>, limit: nat) {
    exists at: seq<nat> :: |at| == |out| <= limit && ListedAt(out, ws, at) && NewestPositions(ws, at, limit)
  }

  ghost predicate ListedAt(out: seq<AuditWrite>, ws: seq<AuditWrite>, at: seq<nat>) {
    |at| == |out| && forall k | 0 <= k < |at| :: at[k] < |ws| && out[k] == ws[at[k]]
  }

  /** Positions of last writes, latest first, and all of them unless the limit is reached. */
  ghost predicate NewestPositions(ws: seq<AuditWrite>, at: seq<nat>, limit: nat) {
    && (forall k | 0 <= k < |at| :: at[k] < |ws| && IsLast(ws, at[k]))
    && (forall j, k | 0 <= j < k < |at| :: at[k] < at[j])
    && (forall i | 0 <= i < |ws| && IsLast(ws, i) :: Covered(at, i, limit))
  }

  ghost predicate Covered(at: seq<nat>, i: nat, limit: nat) {
    i in at || (|at| == limit && forall k | 0 <= k < |at| :: i < at[k])
  }

  /** The position of the write behind each key. */
  function Positions(ids: seq<nat>): (r: seq<nat>)
    requires forall k | 0 <= k < |ids| :: ids[k] >= 1
    ensures |r| == |ids| && forall k | 0 <= k < |ids| :: r[k] == ids[k] - 1
  {
    seq(|ids|, k requires 0 <= k < |ids| => (ids[k] - 1) as nat)
  }

  lemma KeyCovered(log: map<nat, AuditWrite>, top: nat, limit: nat, i: nat)
    requires i + 1 in log && i + 1 <= top
    requires var ids := NewestIds(log, top, limit); forall k | 0 <= k < |ids| :: ids[k] >= 1
    ensures Covered(Positions(NewestIds(log, top, limit)), i, limit)
  {
    NewestIdsCover(log, top, limit, i + 1);
    var ids := NewestIds(log, top, limit);
    if i + 1 in ids {
      var k :| 0 <= k < |ids| && ids[k] == i + 1;
      assert Positions(ids)[k] == i;
    }
  }

  lemma NewestIdsAreNewest(t: Tables, ws: seq<AuditWrite>, limit: nat)
    requires HoldsLastWrites(t, ws)
    ensures var ids := NewestIds(t.auditLog, t.lastId, limit);
            (forall k | 0 <= k < |ids| :: ids[k] >= 1) && NewestPositions(ws, Positions(ids), limit)
  {
    hide NewestIds, IsLast, Covered;
    var ids := NewestIds(t.auditLog, t.lastId, limit);
    NewestIdsOrdered(t.auditLog, t.lastId, limit);
    forall k | 0 <= k < |ids|
      ensures ids[k] >= 1 && ids[k] - 1 < |ws| && IsLast(ws, ids[k] - 1)
    {
      assert ids[k] in t.auditLog;
    }
    forall i | 0 <= i < |ws| && IsLast(ws, i)
      ensures Covered(Positions(ids), i, limit)
    {
      assert IsLast(ws, i + 1 - 1);
      KeyCovered(t.auditLog, t.lastId, limit, i);
    }
  }

  lemma {:induction false} RecentIsNewestFirst(ws: seq<AuditWrite>, limit: nat)
    ensures IsNewestFirst(Recent(InsertAll(EMPTY, ws), limit), ws, limit)
  {
    hide InsertAll, NewestIds, IsLast, NewestPositions;
    var t := InsertAll(EMPTY, ws);
    var ids := NewestIds(t.auditLog, t.lastId, limit);
    InsertedRows(ws);
    NewestIdsAreNewest(t, ws, limit);
    NewestIdsOrdered(t.auditLog, t.lastId, limit);
    assert forall k | 0 <= k < |ids| :: ids[k] in t.auditLog;
    assert ListedAt(Recent(t, limit), ws, Positions(ids));
  }

  lemma {:induction false} NewestFirstDistinct(out: seq<AuditWrite>, ws: seq<AuditWrite>, limit: nat)
    requires IsNewestFirst(out, ws, limit)
    ensures forall j, k | 0 <= j < k < |out| :: out[j].decisionId != out[k].decisionId
  {
    var at :| |at| == |out| <= limit && ListedAt(out, ws, at) && NewestPositions(ws, at, limit);
    forall j, k | 0 <= j < k < |out|
      ensures out[j].decisionId != out[k].decisionId
    {
      assert IsLast(ws, at[k]) && at[k] < at[j];
    }
  }

  lemma LastOfSameId(ws: seq<AuditWrite>, i: nat) returns (j: nat)
    requires i < |ws|
    ensures i <= j < |ws| && ws[j].decisionId == ws[i].decisionId && IsLast(ws, j)
    decreases |ws| - i
  {
    if IsLast(ws, i) {
      j := i;
    } else {
      var later :| i < later < |ws| && ws[later].decisionId == ws[i].decisionId;
      j := LastOfSameId(ws, later);
    }
  }

  /** A listing below its limit has every decision. */
  lemma {:induction false} EveryDecisionListed(out: seq<AuditWrite>, ws: seq<AuditWrite>, limit: nat, i: nat)
    requires IsNewestFirst(out, ws, limit) && |out| < limit && i < |ws|
    ensures exists k :: 0 <= k < |out| && out[k].decisionId == ws[i].decisionId
  {
    hide IsLast;
    var at :| |at| == |out| <= limit && ListedAt(out, ws, at) && NewestPositions(ws, at, limit);
    var j := LastOfSameId(ws, i);
    assert Covered(at, j, limit);
    var k :| 0 <= k < |at| && at[k] == j;
    assert out[k] == ws[j];
  }

  /** The evidence kept for a decision is that of its last write. */
  lemma {:induction false} EvidenceIsLastWrite(ws: seq<AuditWrite>, i: nat)
    requires i < |ws| && IsLast(ws, i)
    ensures var kept := InsertAll(EMPTY, ws).evidence;
            ws[i].decisionId in kept && kept[ws[i].decisionId] == Evidence(ws[i].evidenceJson, ws[i].timestamp)
  {
    hide InsertAll, IsLast;
    InsertedRows(ws);
    InsertedIds(ws);
    assert IsLast(ws, i + 1 - 1);
    assert i + 1 in InsertAll(EMPTY, ws).auditLog;
  }

  // ----- the writer thread and its readers -----

  /** The batches so far and what is outstanding make up everything, and the batches are what was written. */
  ghost predicate WrittenSoFar(
    start: seq<AuditWrite>, now: seq<AuditWrite>, batches: seq<seq<AuditWrite>>, outstanding: seq<AuditWrite>,
    all: seq<AuditWrite>)
  {
    && now == start + Flatten(batches)
    && Flatten(batches) + outstanding == all
    && (forall i | 0 <= i < |batches| :: 1 <= |batches[i]| <= BATCH_LIMIT)
  }

  lemma NothingWritten(start: seq<AuditWrite>, all: seq<AuditWrite>)
    ensures WrittenSoFar(start, start, [], all, all)
  {
    assert [] + all == all && start + [] == start;
  }

  lemma OneMoreBatch(start: seq<AuditWrite>, now: seq<AuditWrite>, batches: seq<seq<AuditWrite>>, batch: seq<AuditWrite>,
                     outstanding: seq<AuditWrite>, all: seq<AuditWrite>)
    requires WrittenSoFar(start, now, batches, batch + outstanding, all) && 1 <= |batch| <= BATCH_LIMIT
    ensures WrittenSoFar(start, now + batch, batches + [batch], outstanding, all)
  {
    hide Flatten;
    FlattenSnoc(batches, batch);
    assert start + Flatten(batches) + batch == start + (Flatten(batches) + batch);
    assert Flatten(batches) + (batch + outstanding) == (Flatten(batches) + batch) + outstanding;
  }

  /** The last write of a decision. */
  function LastWrite(ws: seq<AuditWrite>, decisionId: string): Option<AuditWrite> {
    if ws == [] then None
    else if ws[|ws| - 1].decisionId == decisionId then Some(ws[|ws| - 1])
    else LastWrite(ws[..|ws| - 1], decisionId)
  }

  lemma {:induction false} EvidenceKept(ws: seq<AuditWrite>, decisionId: string)
    ensures var kept := InsertAll(EMPTY, ws).evidence;
            match LastWrite(ws, decisionId)
            case None => decisionId !in kept
            case Some(w) => decisionId in kept && kept[decisionId] == Evidence(w.evidenceJson, w.timestamp)
    decreases ws
  {
    if ws != [] { EvidenceKept(ws[..|ws| - 1], decisionId); }
  }

  class AuditDatabase {
    /** The channel, and what producers send before each of the writer's next looks at it. */
    var queue: seq<AuditWrite>
    var arrivals: seq<seq<AuditWrite>>
    var tables: Tables
    /** Everything written so far, in order. */
    ghost var written: seq<AuditWrite>

    /** The tables are one-at-a-time insertion of what was written. */
    ghost predicate Valid()
      reads this
    {
      tables == InsertAll(EMPTY, written)
    }

    constructor (arrivals: seq<seq<AuditWrite>>)
      ensures Valid() && queue == [] && this.arrivals == arrivals && written == []
    {
      queue, tables, written := [], EMPTY, [];
      this.arrivals := arrivals;
    }

    /** Everything sent or still to be sent that the writer has not taken. */
    ghost function Outstanding(): seq<AuditWrite>
      reads this
    {
      queue + Flatten(arrivals)
    }

    method EnqueueAudit(w: AuditWrite)
      modifies `queue
      ensures queue == old(queue) + [w]
    {
      queue := queue + [w];
    }

    /** Blocks until a write is there; there is none once every sender is gone. */
    method Receive() returns (w: Option<AuditWrite>)
      modifies `queue, `arrivals
      ensures w.None? ==> old(Outstanding()) == [] && Outstanding() == []
      ensures w.Some? ==> old(Outstanding()) == [w.value] + Outstanding()
    {
      while queue == [] && arrivals != []
        invariant Outstanding() == old(Outstanding())
        decreases |arrivals|
      {
        queue, arrivals := queue + arrivals[0], arrivals[1..];
      }
      if queue == [] {
        return None;
      }
      w, queue := Some(queue[0]), queue[1..];
      assert old(Outstanding()) == [w.value] + Outstanding();
    }

    method TryReceive() returns (w: Option<AuditWrite>)
      modifies `queue, `arrivals
      ensures w.None? ==> Outstanding() == old(Outstanding()) && queue == []
      ensures w.Some? ==> old(Outstanding()) == [w.value] + Outstanding()
    {
      if arrivals != [] {
        queue, arrivals := queue + arrivals[0], arrivals[1..];
      }
      assert Outstanding() == old(Outstanding());
      if queue == [] {
        return None;
      }
      w, queue := Some(queue[0]), queue[1..];
      assert old(Outstanding()) == [w.value] + Outstanding();
    }

    /** Takes at least one write and at most the limit, in order, and stops short only on an empty channel. */
    method Drain(first: AuditWrite) returns (batch: seq<AuditWrite>)
      modifies `queue, `arrivals
      ensures 1 <= |batch| <= 64
      ensures batch + Outstanding() == [first] + old(Outstanding())
      ensures |batch| < 64 ==> queue == []
    {
      batch := [first];
      var more := true;
      while more
        invariant 1 <= |batch| <= BATCH_LIMIT
        invariant batch + Outstanding() == [first] + old(Outstanding())
        invariant more ==> |batch| < BATCH_LIMIT
        invariant !more && |batch| < BATCH_LIMIT ==> queue == []
        decreases more, BATCH_LIMIT - |batch|
      {
        ghost var before := Outstanding();
        var next := TryReceive();
        match next
        case None => more := false;
        case Some(w) =>
          assert batch + before == (batch + [w]) + Outstanding();
          batch := batch + [w];
          more := |batch| < BATCH_LIMIT;
      }
    }

    method WriteBatch(batch: seq<AuditWrite>)
      requires Valid()
      modifies `tables, `written
      ensures Valid() && written == old(written) + batch
    {
      var pending := tables;
      for i := 0 to |batch|
        invariant pending == InsertAll(tables, batch[..i])
        invariant tables == old(tables)
      {
        pending := ReplaceLog(pending, batch[i]);
        pending := ReplaceEvidence(pending, batch[i]);
        assert batch[..i + 1][..i] == batch[..i];
      }
      assert batch[..|batch|] == batch;
      InsertAllAppend(EMPTY, written, batch);
      tables := pending;
      written := written + batch;
    }

    /** The writer thread: it ends when every sender is gone, with everything sent written in order. */
    method Write() returns (batches: seq<seq<AuditWrite>>)
      requires Valid()
      modifies this
      ensures Valid() && Outstanding() == []
      ensures written == old(written) + old(Outstanding())
      ensures Flatten(batches) == old(Outstanding())
      ensures forall i | 0 <= i < |batches| :: 1 <= |batches[i]| <= 64
    {
      hide InsertAll, Flatten;
      batches := [];
      var more := true;
      ghost var all := Outstanding();
      NothingWritten(written, all);
      while more
        invariant Valid()
        invariant WrittenSoFar(old(written), written, batches, Outstanding(), all)
        invariant !more ==> Outstanding() == []
        decreases more, |Outstanding()|
      {
        var first := Receive();
        match first
        case None => more := false;
        case Some(w) =>
          ghost var was := written;
          var batch := Drain(w);
          WriteBatch(batch);
          OneMoreBatch(old(written), was, batches, batch, Outstanding(), all);
          batches := batches + [batch];
      }
      assert Flatten(batches) + [] == Flatten(batches);
    }

    /** The last write of each decision, newest first. */
    method RecentAudit(limit: nat) returns (out: seq<AuditWrite>)
      requires Valid()
      ensures out == Recent(tables, limit) && IsNewestFirst(out, written, limit)
    {
      hide NewestIds, Rows;
      out := [];
      var top: nat := tables.lastId;
      while top != 0 && |out| < limit
        invariant |out| <= limit
        invariant Recent(tables, limit) == out + RowsBelow(tables.auditLog, top, limit - |out|)
      {
        RowsBelowStep(tables.auditLog, top, limit - |out|);
        if top in tables.auditLog {
          out := out + [tables.auditLog[top]];
        }
        top := top - 1;
      }
      NoRowsBelow(tables.auditLog, top, limit - |out|);
      assert out + [] == out;
      RecentIsNewestFirst(written, limit);
    }

    /** The evidence of the decision's last write, if it was ever written. */
    method GetEvidence(decisionId: string) returns (r: Option<string>)
      requires Valid()
      ensures r == match LastWrite(written, decisionId) case None => None case Some(w) => Some(w.evidenceJson)
    {
      EvidenceKept(written, decisionId);
      if decisionId in tables.evidence {
        return Some(tables.evidence[decisionId].evidenceJson);
      }
      return None;
    }
  }

  lemma InsertNothing(t: Tables)
    ensures InsertAll(t, []) == t
  {}

  // ----- every interleaving of producers and writer -----

  /** Where the writer thread stands; `half` says the row is in and its evidence is not. */
  datatype Writer =
    | Idle
    | Draining(batch: seq<AuditWrite>)
    | Writing(batch: seq<AuditWrite>, done: nat, half: bool, pending: Tables)

  /** The tables are what a reader sees; `sent` and `batches` are the history. */
  datatype State = State(
    queue: seq<AuditWrite>, writer: Writer, tables: Tables,
    sent: seq<AuditWrite>, batches: seq<seq<AuditWrite>>)

  const INITIAL := State([], Idle, EMPTY, [], [])

  datatype Action = Send(w: AuditWrite) | Take | TryTake | WriteRow | WriteEvidence | Commit

  predicate Enabled(s: State, a: Action) {
    match a
    case Send(_) => true
    case Take => s.writer.Idle? && s.queue != []
    case TryTake => s.writer.Draining?
    case WriteRow => s.writer.Writing? && s.writer.done < |s.writer.batch| && !s.writer.half
    case WriteEvidence => s.writer.Writing? && s.writer.done < |s.writer.batch| && s.writer.half
    case Commit => s.writer.Writing? && s.writer.done == |s.writer.batch|
  }

  function StartWriting(s: State, batch: seq<AuditWrite>): State {
    s.(writer := Writing(batch, 0, false, s.tables))
  }

  function Next(s: State, a: Action): State
    requires Enabled(s, a)
  {
    match a
    case Send(w) => s.(queue := s.queue + [w], sent := s.sent + [w])
    case Take => s.(queue := s.queue[1..], writer := Draining([s.queue[0]]))
    case TryTake =>
      if s.queue == [] then StartWriting(s, s.writer.batch)
      else
        var batch := s.writer.batch + [s.queue[0]];
        var taken := s.(queue := s.queue[1..], writer := Draining(batch));
        if |batch| >= BATCH_LIMIT then StartWriting(taken, batch) else taken
    case WriteRow =>
      s.(writer := s.writer.(half := true, pending := ReplaceLog(s.writer.pending, s.writer.batch[s.writer.done])))
    case WriteEvidence =>
      var pending := ReplaceEvidence(s.writer.pending, s.writer.batch[s.writer.done]);
      s.(writer := Writing(s.writer.batch, s.writer.done + 1, false, pending))
    case Commit =>
      s.(writer := Idle, tables := s.writer.pending, batches := s.batches + [s.writer.batch])
  }

  ghost predicate Possible(s: State, actions: seq<Action>)
    decreases actions
  {
    actions != [] ==> Enabled(s, actions[0]) && Possible(Next(s, actions[0]), actions[1..])
  }

  ghost function Run(s: State, actions: seq<Action>): State
    requires Possible(s, actions)
    decreases actions
  {
    if actions == [] then s else Run(Next(s, actions[0]), actions[1..])
  }

  function InHand(writer: Writer): seq<AuditWrite> {
    if writer.Idle? then [] else writer.batch
  }

  ghost predicate WritingOk(t: Tables, w: Writer)
    requires w.Writing?
  {
    && 1 <= |w.batch| <= BATCH_LIMIT && w.done <= |w.batch| && (w.half ==> w.done < |w.batch|)
    && w.pending == (var t0 := InsertAll(t, w.batch[..w.done]);
                     if w.half then ReplaceLog(t0, w.batch[w.done]) else t0)
  }

  ghost predicate WriterOk(t: Tables, w: Writer) {
    match w
    case Idle => true
    case Draining(batch) => 1 <= |batch| < BATCH_LIMIT
    case Writing(_, _, _, _) => WritingOk(t, w)
  }

  ghost predicate Invariant(s: State) {
    && s.sent == Flatten(s.batches) + InHand(s.writer) + s.queue
    && s.tables == InsertAll(EMPTY, Flatten(s.batches))
    && (forall i | 0 <= i < |s.batches| :: 1 <= |s.batches[i]| <= BATCH_LIMIT)
    && WriterOk(s.tables, s.writer)
  }

  lemma WriteKeepsOk(t: Tables, w: Writer)
    requires w.Writing? && WritingOk(t, w) && w.done < |w.batch| && w.half
    ensures WritingOk(t, Writing(w.batch, w.done + 1, false, ReplaceEvidence(w.pending, w.batch[w.done])))
  {
    assert w.batch[..w.done + 1][..w.done] == w.batch[..w.done];
  }

  lemma CommitKeepsInvariant(s: State)
    requires Invariant(s) && Enabled(s, Commit)
    ensures Invariant(Next(s, Commit))
  {
    var batch := s.writer.batch;
    assert batch[..|batch|] == batch;
    FlattenSnoc(s.batches, batch);
    InsertAllAppend(EMPTY, Flatten(s.batches), batch);
  }

  lemma NextKeepsInvariant(s: State, a: Action)
    requires Invariant(s) && Enabled(s, a)
    ensures Invariant(Next(s, a))
  {
    hide InsertAll, ReplaceLog, ReplaceEvidence, Flatten;
    match a
    case WriteEvidence => WriteKeepsOk(s.tables, s.writer);
    case Commit => CommitKeepsInvariant(s);
    case TryTake =>
      InsertNothing(s.tables);
      assert s.writer.batch[..0] == [];
      if s.queue != [] {
        assert (s.writer.batch + [s.queue[0]])[..0] == [];
        assert s.writer.batch + s.queue == (s.writer.batch + [s.queue[0]]) + s.queue[1..];
      }
    case Take => assert s.queue == [s.queue[0]] + s.queue[1..];
    case Send(w) =>
    case WriteRow =>
  }

  lemma {:induction false} RunKeepsInvariant(s: State, actions: seq<Action>)
    requires Invariant(s) && Possible(s, actions)
    ensures Invariant(Run(s, actions))
    decreases actions
  {
    hide Invariant, Enabled, Next;
    if actions != [] {
      NextKeepsInvariant(s, actions[0]);
      RunKeepsInvariant(Next(s, actions[0]), actions[1..]);
    }
  }

  function Sends(actions: seq<Action>): seq<AuditWrite> {
    if actions == [] then []
    else (if actions[0].Send? then [actions[0].w] else []) + Sends(actions[1..])
  }

  lemma {:induction false} SentInOrder(s: State, actions: seq<Action>)
    requires Possible(s, actions)
    ensures Run(s, actions).sent == s.sent + Sends(actions)
    decreases actions
  {
    if actions != [] {
      SentInOrder(Next(s, actions[0]), actions[1..]);
    }
  }

  /**
   * In every interleaving the tables a reader sees are one-at-a-time insertion of a prefix of what
   * was sent, in the order sent, cut into batches of 1 to 64.
   */
  lemma {:induction false} CommittedIsPrefix(actions: seq<Action>)
    requires Possible(INITIAL, actions)
    ensures var s := Run(INITIAL, actions);
            && Flatten(s.batches) <= Sends(actions)
            && s.tables == InsertAll(EMPTY, Flatten(s.batches))
            && (forall i | 0 <= i < |s.batches| :: 1 <= |s.batches[i]| <= 64)
            && HoldsLastWrites(s.tables, Flatten(s.batches)) && SameIds(s.tables)
  {
    hide Possible, Run, InsertAll, Sends, SameIds, HoldsLastWrites;
    assert Invariant(INITIAL) by { InsertNothing(EMPTY); }
    RunKeepsInvariant(INITIAL, actions);
    SentInOrder(INITIAL, actions);
    var s := Run(INITIAL, actions);
    assert s.sent == Sends(actions);
    InsertedRows(Flatten(s.batches));
    InsertedIds(Flatten(s.batches));
  }

  predicate Drained(s: State) {
    s.writer.Idle? && s.queue == []
  }

  /** Once drained, the listing is of everything sent, newest last write of each decision first. */
  lemma {:induction false} DrainedListsNewest(actions: seq<Action>, limit: nat)
    requires Possible(INITIAL, actions) && Drained(Run(INITIAL, actions))
    ensures var t := Run(INITIAL, actions).tables;
            t == InsertAll(EMPTY, Sends(actions)) && IsNewestFirst(Recent(t, limit), Sends(actions), limit)
  {
    hide Possible, Run, InsertAll, Sends, IsNewestFirst, Recent;
    assert Invariant(INITIAL) by { InsertNothing(EMPTY); }
    RunKeepsInvariant(INITIAL, actions);
    SentInOrder(INITIAL, actions);
    var s := Run(INITIAL, actions);
    assert s.sent == Sends(actions) == Flatten(s.batches);
    RecentIsNewestFirst(Sends(actions), limit);
  }

  /** The writer's remaining work. */
  function Work(s: State): nat {
    10 * |s.queue| +
    match s.writer
    case Idle => 0
    case Draining(batch) => 3 * |batch| + 3
    case Writing(batch, done, half, _) =>
      if done <= |batch| then 2 * (|batch| - done) + 1 + (if half then 0 else 1) else 0
  }

  /** The step the writer thread is about to take. */
  function WriterStep(s: State): Action {
    match s.writer
    case Idle => Take
    case Draining(_) => TryTake
    case Writing(batch, done, half, _) =>
      if done == |batch| then Commit else if half then WriteEvidence else WriteRow
  }

  lemma WriterProgresses(s: State)
    requires Invariant(s) && !Drained(s)
    ensures Enabled(s, WriterStep(s)) && Work(Next(s, WriterStep(s))) < Work(s)
  {
    hide InsertAll, ReplaceLog, ReplaceEvidence, Flatten;
  }

  /** Left alone, the writer drains the queue from any reachable state, in at most its remaining work. */
  lemma {:induction false} WriterCatchesUp(s: State) returns (actions: seq<Action>)
    requires Invariant(s)
    ensures Possible(s, actions) && Sends(actions) == [] && |actions| <= Work(s)
    ensures Drained(Run(s, actions))
    decreases Work(s)
  {
    hide Invariant, Enabled, Next, Work;
    if Drained(s) {
      actions := [];
    } else {
      var a := WriterStep(s);
      WriterProgresses(s);
      NextKeepsInvariant(s, a);
      var rest := WriterCatchesUp(Next(s, a));
      actions := [a] + rest;
      assert actions[1..] == rest;
    }
  }
}
