/**
 * The delivery side of the two outboxes (workers/registry/src/identity-state-do.ts, `#kickOutbox`,
 * `#requestFlush`, `#flushPendingOutbox`, `#ensureAlarm` and `alarm`): the loop as a method over the rows, and
 * the same loop as a transition system together with kicks, alarms, new rows and crashes. An event id stands as
 * its rank in the order in which the query sorts ids.
 */
module Outbox {
  import opened Common

  const BASE_RETRY_DELAY_MS := 2000
  const MAX_RETRY_DELAY_MS := 300000

  datatype Kind = IdentityKind | DeviceKind

  datatype Key = Key(kind: Kind, eventId: nat)

  datatype Row = Row(createdAt: nat, publishedAt: Option<nat>, attempts: nat)

  type Rows = map<Key, Row>

  function Unpublished(rows: Rows): set<Key> {
    set key | key in rows && rows[key].publishedAt.None?
  }

  // ----- The retry delay

  function Power2(n: nat): (p: nat)
    ensures p >= 1
  {
    if n == 0 then 1 else 2 * Power2(n - 1)
  }

  function RetryDelay(attempt: nat): nat {
    var exponent := if attempt - 1 < 20 then attempt - 1 else 20;
    var delay := BASE_RETRY_DELAY_MS * Power2(if exponent < 0 then 0 else exponent);
    if delay < MAX_RETRY_DELAY_MS then delay else MAX_RETRY_DELAY_MS
  }

  lemma {:induction false} Power2Monotone(m: nat, n: nat)
    requires m <= n
    ensures Power2(m) <= Power2(n)
  {
    if m < n {
      Power2Monotone(m, n - 1);
    }
  }

  /** The delay starts at 2 s, doubles up to the eighth attempt and is 300 s from the ninth on. */
  lemma RetryDelays(attempt: nat, later: nat)
    requires 1 <= attempt <= later
    ensures 2_000 <= RetryDelay(attempt) <= RetryDelay(later) <= 300_000
    ensures RetryDelay(1) == 2_000
    ensures attempt < 8 ==> RetryDelay(attempt + 1) == 2 * RetryDelay(attempt)
    ensures attempt >= 9 ==> RetryDelay(attempt) == 300_000
  {
    var capped := if attempt - 1 < 20 then attempt - 1 else 20;
    var laterCapped := if later - 1 < 20 then later - 1 else 20;
    Power2Monotone(0, capped);
    Power2Monotone(capped, laterCapped);
    assert Power2(4) == 16;
    assert Power2(7) == 8 * Power2(4);
    assert Power2(8) == 256;
    if attempt >= 9 {
      Power2Monotone(8, capped);
    } else if attempt < 8 {
      Power2Monotone(capped, 6);
      assert Power2(6) == 64 by {
        assert Power2(6) == 4 * Power2(4);
      }
    }
  }

  // ----- Which row goes next

  predicate Before(a: Key, b: Key, rows: Rows)
    requires a in rows && b in rows
  {
    rows[a].createdAt < rows[b].createdAt || (rows[a].createdAt == rows[b].createdAt && a.eventId <= b.eventId)
  }

  predicate IsOldest(key: Key, rows: Rows) {
    key in Unpublished(rows) && forall other :: other in Unpublished(rows) ==> Before(key, other, rows)
  }

  /** The oldest unpublished row; of rows of equal age, one of the lowest event id. */
  lemma OldestIs(key: Key, rows: Rows)
    ensures IsOldest(key, rows) <==>
              && key in rows && rows[key].publishedAt.None?
              && forall other :: other in rows && rows[other].publishedAt.None? ==>
                   && rows[key].createdAt <= rows[other].createdAt
                   && (rows[key].createdAt == rows[other].createdAt ==> key.eventId <= other.eventId)
  {
    assert forall other :: other in Unpublished(rows) <==> other in rows && rows[other].publishedAt.None?;
  }

  lemma {:induction false} OldestOf(keys: set<Key>, rows: Rows) returns (oldest: Key)
    requires keys != {} && forall key :: key in keys ==> key in rows
    ensures oldest in keys && forall other :: other in keys ==> Before(oldest, other, rows)
    decreases keys
  {
    oldest :| oldest in keys;
    if keys != {oldest} {
      var least := OldestOf(keys - {oldest}, rows);
      var first := oldest;
      if !Before(oldest, least, rows) {
        oldest := least;
      }
      forall other | other in keys
        ensures Before(oldest, other, rows)
      {
        assert other == first || other in keys - {first};
      }
    }
  }

  // ----- The loop over the rows

  /** What happens while the loop waits: rows are committed, and a pending send is delivered or fails. */
  datatype Wait = Wait(arrivals: map<Key, nat>, delivered: bool, now: nat)

  datatype Outcome = Drained | Retrying(key: Key)

  predicate RowKept(before: Row, after: Row) {
    after.createdAt == before.createdAt && before.attempts <= after.attempts
    && (before.publishedAt.Some? ==> after == before)
  }

  predicate RowsKept(before: Rows, after: Rows) {
    forall key :: key in before ==> key in after && RowKept(before[key], after[key])
  }

  /** Rows that were there stay as they are, and new ones come unpublished and untried. */
  predicate Arrived(before: Rows, after: Rows, arrivals: map<Key, nat>) {
    && after.Keys == before.Keys + arrivals.Keys
    && forall key :: key in after ==> after[key] == if key in before then before[key] else Row(arrivals[key], None, 0)
  }

  class Flusher {
    var rows: Rows
    var alarm: Option<nat>
    var sent: seq<Key>

    constructor (rows: Rows, alarm: Option<nat>)
      ensures this.rows == rows && this.alarm == alarm && sent == []
    {
      this.rows, this.alarm, sent := rows, alarm, [];
    }

    /** Rows that other handlers commit while the loop waits. */
    method Arrive(arrivals: map<Key, nat>)
      modifies this`rows
      ensures Arrived(old(rows), rows, arrivals)
    {
      rows := rows + (map key | key in arrivals && key !in rows :: Row(arrivals[key], None, 0));
    }

    method EnsureAlarm(scheduledTime: nat)
      modifies this`alarm
      ensures alarm.Some? && alarm.value <= scheduledTime
      ensures alarm == if old(alarm).Some? && old(alarm).value <= scheduledTime then old(alarm) else Some(scheduledTime)
    {
      var current := alarm;
      if current.None? || current.value > scheduledTime {
        alarm := Some(scheduledTime);
      }
    }

    /** One attempt on the oldest unpublished row: count it, send, and mark it when the send was delivered. */
    method Attempt(wait: Wait) returns (key: Key)
      requires Unpublished(rows) != {}
      modifies this
      ensures IsOldest(key, old(rows)) && Attempted(old(rows), rows, key, wait)
      ensures alarm == if wait.delivered then old(alarm) else Some(wait.now + RetryDelay(rows[key].attempts))
      ensures sent == if wait.delivered then old(sent) + [key] else old(sent)
    {
      ghost var oldest := OldestOf(Unpublished(rows), rows);
      key :| key in rows && IsOldest(key, rows);
      var attempt := rows[key].attempts + 1;
      rows := rows[key := rows[key].(attempts := attempt)];
      Arrive(wait.arrivals);
      if !wait.delivered {
        alarm := Some(wait.now + RetryDelay(attempt));
        return;
      }
      sent := sent + [key];
      if rows[key].publishedAt.None? {
        rows := rows[key := rows[key].(publishedAt := Some(wait.now))];
      }
    }

    /**
     * `waits` describes the environment up to a moment from which on nothing arrives and every send is delivered;
     * the loop then ends because the number of unpublished rows goes down.
     */
    method FlushPendingOutbox(waits: seq<Wait>, now: nat) returns (outcome: Outcome, ghost delivered: seq<Key>)
      modifies this
      ensures sent == old(sent) + delivered && Progress(old(rows), rows, delivered, Fair(waits))
      ensures outcome.Drained? ==> Unpublished(rows) == {} && alarm.None?
      ensures outcome.Retrying? ==>
                outcome.key in Unpublished(rows)
                && exists wait :: wait in waits && !wait.delivered
                                  && alarm == Some(wait.now + RetryDelay(rows[outcome.key].attempts))
      // in fair weather everything is sent, once each
      ensures Fair(waits) ==> outcome.Drained? && multiset(delivered) == multiset(Unpublished(old(rows)))
    {
      var k := 0;
      delivered := [];
      while true
        invariant 0 <= k <= |waits|
        invariant sent == old(sent) + delivered
        invariant Progress(old(rows), rows, delivered, Fair(waits))
        decreases |waits| - k, |Unpublished(rows)|
      {
        var wait := if k < |waits| then waits[k] else Wait(map[], true, now);
        assert Fair(waits) ==> wait.delivered && wait.arrivals == map[];
        if k < |waits| {
          k := k + 1;
        }
        ghost var before := rows;
        if Unpublished(rows) == {} {
          alarm := None;
          Arrive(wait.arrivals);
          NothingArrived(before, rows, wait.arrivals);
          IdleProgress(old(rows), before, rows, delivered, Fair(waits));
          if Unpublished(rows) == {} {
            return Drained, delivered;
          }
          EnsureAlarm(wait.now + BASE_RETRY_DELAY_MS);
        } else {
          var key := Attempt(wait);
          AfterAttempt(before, rows, key, wait);
          if !wait.delivered {
            IdleProgress(old(rows), before, rows, delivered, Fair(waits));
            return Retrying(key), delivered;
          }
          SentProgress(old(rows), before, rows, delivered, key, Fair(waits));
          delivered := delivered + [key];
        }
      }
    }
  }

  /**
   * What the loop keeps: rows stay, a row is published only once a send of it was delivered, and while nothing
   * arrives the unpublished rows are those not yet delivered.
   */
  ghost predicate Progress(initial: Rows, rows: Rows, delivered: seq<Key>, fair: bool) {
    && RowsKept(initial, rows) && PublishedWereSent(initial, rows, delivered)
    && (fair ==> multiset(delivered) + multiset(Unpublished(rows)) == multiset(Unpublished(initial)))
  }

  lemma RowsKeptTransitive(a: Rows, b: Rows, c: Rows)
    requires RowsKept(a, b) && RowsKept(b, c)
    ensures RowsKept(a, c)
  {
  }

  lemma IdleProgress(initial: Rows, before: Rows, rows: Rows, delivered: seq<Key>, fair: bool)
    requires Progress(initial, before, delivered, fair) && RowsKept(before, rows)
    requires forall key :: key in rows && rows[key].publishedAt.Some? ==> key in before && before[key] == rows[key]
    requires fair ==> Unpublished(rows) == Unpublished(before)
    ensures Progress(initial, rows, delivered, fair)
  {
  }

  lemma SentProgress(initial: Rows, before: Rows, rows: Rows, delivered: seq<Key>, key: Key, fair: bool)
    requires Progress(initial, before, delivered, fair) && RowsKept(before, rows)
    requires forall other :: other in rows && rows[other].publishedAt.Some? ==>
               (other in before && before[other] == rows[other]) || other == key
    requires key in Unpublished(before) && (fair ==> Unpublished(rows) == Unpublished(before) - {key})
    ensures Progress(initial, rows, delivered + [key], fair)
  {
    if fair {
      MovedToSent(Unpublished(before), key, delivered, multiset(Unpublished(initial)));
    }
  }

  /** The rows after one attempt on `key` during which `wait` happened. */
  predicate Attempted(before: Rows, after: Rows, key: Key, wait: Wait) {
    && key in before && after.Keys == before.Keys + wait.arrivals.Keys
    && after[key] == before[key].(attempts := before[key].attempts + 1,
                                  publishedAt := if wait.delivered then Some(wait.now) else before[key].publishedAt)
    && forall other :: other in after && other != key ==>
         after[other] == if other in before then before[other] else Row(wait.arrivals[other], None, 0)
  }

  lemma AfterAttempt(before: Rows, after: Rows, key: Key, wait: Wait)
    requires Attempted(before, after, key, wait) && key in Unpublished(before)
    ensures RowsKept(before, after)
    ensures !wait.delivered ==> key in Unpublished(after)
    ensures wait.delivered && wait.arrivals == map[] ==>
              Unpublished(after) == Unpublished(before) - {key} && |Unpublished(after)| < |Unpublished(before)|
  {
    if wait.delivered && wait.arrivals == map[] {
      assert Unpublished(after) == Unpublished(before) - {key};
    }
  }

  lemma NothingArrived(before: Rows, after: Rows, arrivals: map<Key, nat>)
    requires Arrived(before, after, arrivals)
    ensures RowsKept(before, after)
    ensures arrivals == map[] ==> Unpublished(after) == Unpublished(before)
  {
    if arrivals == map[] {
      assert after == before;
    }
  }

  lemma MovedToSent(unpublished: set<Key>, key: Key, delivered: seq<Key>, all: multiset<Key>)
    requires multiset(delivered) + multiset(unpublished) == all && key in unpublished
    ensures multiset(delivered + [key]) + multiset(unpublished - {key}) == all
  {
    assert unpublished == (unpublished - {key}) + {key};
  }

  predicate Fair(waits: seq<Wait>) {
    forall wait :: wait in waits ==> wait.delivered && wait.arrivals == map[]
  }

  /** A row counts as published only after a send of it was delivered. */
  predicate PublishedWereSent(before: Rows, after: Rows, sent: seq<Key>) {
    forall key :: key in after && after[key].publishedAt.Some? ==>
      (key in before && before[key] == after[key]) || key in sent
  }
}
