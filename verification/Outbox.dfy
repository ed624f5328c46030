/**
 The transactional outbox of appointment-service: the claim, mark, release and cleanup statements on
 `outbox_events`, and the publisher that settles one claimed batch.
 */
module Outbox {
  import opened Wrappers
  import Appointments

  type Uuid = Appointments.Uuid
  type Instant = Appointments.Instant

  const LEASE: int := Appointments.MINUTE
  const RETENTION: int := 30 * 24 * 60 * Appointments.MINUTE
  const MAX_ATTEMPTS: nat := 20
  const BATCH: nat := 50

  datatype OutRow = OutRow(
    record: Appointments.Record, published: Option<Instant>, failed: Option<Instant>,
    publishing: Option<Instant>, attempts: nat)
  type Rows = map<Uuid, OutRow>

  function Fresh(r: Appointments.Record): OutRow {
    OutRow(r, None, None, None, 0)
  }

  predicate Pending(r: OutRow) {
    r.published.None? && r.failed.None?
  }

  /** What `claim_outbox_events` may return at `now`. */
  predicate Claimable(r: OutRow, now: Instant) {
    Pending(r) && (r.publishing.None? || r.publishing.value < now - LEASE)
  }

  /** Locked rows are skipped and the batch is bounded, so any small set of claimable rows can be chosen. */
  function Claim(rows: Rows, chosen: set<Uuid>, now: Instant): Rows {
    map id | id in rows :: if id in chosen then rows[id].(publishing := Some(now)) else rows[id]
  }

  function Mark(rows: Rows, id: Uuid, now: Instant): Rows {
    if id in rows && rows[id].published.None? then
      rows[id := rows[id].(published := Some(now), publishing := None)]
    else rows
  }

  function Release(rows: Rows, id: Uuid, now: Instant): Rows {
    if id in rows && rows[id].published.None? then
      var n := rows[id].attempts + 1;
      rows[id := rows[id].(publishing := None, attempts := n,
                           failed := if n >= MAX_ATTEMPTS then Some(now) else rows[id].failed)]
    else rows
  }

  predicate Expired(r: OutRow, now: Instant) {
    r.published.Some? && r.published.value < now - RETENTION
  }

  /** How one claimed event fares: the broker's answer, and whether the following statement reaches the database. */
  datatype Fate = Fate(acked: bool, stored: bool, at: Instant)

  function Settle(rows: Rows, id: Uuid, f: Fate): Rows {
    if !f.stored then rows else if f.acked then Mark(rows, id, f.at) else Release(rows, id, f.at)
  }

  function SettleAll(rows: Rows, ids: seq<Uuid>, fates: seq<Fate>): Rows
    requires |ids| == |fates|
  {
    if ids == [] then rows
    else
      var n := |ids| - 1;
      Settle(SettleAll(rows, ids[..n], fates[..n]), ids[n], fates[n])
  }

  /** What has become of a claimed row, column by column. */
  ghost predicate SettledAs(a: OutRow, b: OutRow, f: Fate, now: Instant) {
    && b.record == a.record
    && (f.stored && f.acked ==>
          b.published == Some(f.at) && b.publishing == None && b.attempts == a.attempts && b.failed == a.failed)
    && (f.stored && !f.acked ==>
          && b.published == None && b.publishing == None && b.attempts == a.attempts + 1
          && b.failed == if a.attempts + 1 >= 20 then Some(f.at) else a.failed)
    && (!f.stored ==>
          && b.published == None && b.publishing == Some(now) && b.attempts == a.attempts && b.failed == a.failed)
  }

  ghost predicate Different(ids: seq<Uuid>) {
    forall i, j :: 0 <= i < j < |ids| ==> ids[i] != ids[j]
  }

  class Publisher {
    var rows: Rows
    var ready: bool

    constructor (initial: Rows)
      ensures rows == initial && !ready
    {
      rows, ready := initial, false;
    }

    method PublishOne(id: Uuid, f: Fate)
      modifies this
      ensures rows == Settle(old(rows), id, f)
      ensures ready == (old(ready) && f.acked)
    {
      if !f.acked {
        ready := false;
        if f.stored {
          rows := Release(rows, id, f.at);
        }
        return;
      }
      if f.stored {
        rows := Mark(rows, id, f.at);
      }
    }

    /** Claims a batch and settles its events one by one; `batch` is what the claim returned. */
    method PublishBatch(batch: seq<Uuid>, fates: seq<Fate>, now: Instant)
      requires |batch| == |fates| && |batch| <= BATCH
      requires forall id :: id in batch ==> id in rows && Claimable(rows[id], now)
      modifies this
      ensures rows == SettleAll(Claim(old(rows), (set id | id in batch), now), batch, fates)
      ensures ready == (old(ready) && forall f :: f in fates ==> f.acked)
      ensures rows.Keys == old(rows).Keys
      ensures forall id :: id in old(rows) && id !in batch ==> rows[id] == old(rows)[id]
      ensures Different(batch) ==>
                forall i :: 0 <= i < |batch| ==> SettledAs(old(rows)[batch[i]], rows[batch[i]], fates[i], now)
    {
      rows := Claim(rows, (set id | id in batch), now);
      ghost var claimed := rows;
      for i := 0 to |batch|
        invariant rows == SettleAll(claimed, batch[..i], fates[..i])
        invariant ready == (old(ready) && forall f :: f in fates[..i] ==> f.acked)
      {
        PublishOne(batch[i], fates[i]);
        assert batch[..i + 1][..i] == batch[..i] && fates[..i + 1][..i] == fates[..i];
      }
      assert batch[..|batch|] == batch && fates[..|fates|] == fates;
      BatchSettlesOnly(claimed, batch, fates);
      if Different(batch) {
        forall i | 0 <= i < |batch|
          ensures SettledAs(old(rows)[batch[i]], rows[batch[i]], fates[i], now)
        {
          BatchSettlesEach(claimed, batch, fates, batch[i]);
        }
      }
    }
  }

  lemma {:induction false} BatchSettlesOnly(rows: Rows, ids: seq<Uuid>, fates: seq<Fate>)
    requires |ids| == |fates|
    ensures SettleAll(rows, ids, fates).Keys == rows.Keys
    ensures forall id :: id in rows && id !in ids ==> SettleAll(rows, ids, fates)[id] == rows[id]
    decreases |ids|
  {
    if ids != [] {
      BatchSettlesOnly(rows, ids[..|ids| - 1], fates[..|ids| - 1]);
    }
  }

  /** A claim holds a row for one minute: until it is settled, it can be claimed again exactly when that is over. */
  lemma HeldForAMinute(rows: Rows, chosen: set<Uuid>, t: Instant, id: Uuid, now: Instant)
    requires id in rows && id in chosen && Claimable(rows[id], t)
    ensures Claimable(Claim(rows, chosen, t)[id], now) <==> now > t + 60_000_000_000
  {
  }

  /** What can be claimed: neither published nor given up, and not in somebody's hands for less than a minute. */
  lemma ClaimableIff(r: OutRow, now: Instant)
    ensures Claimable(r, now) <==>
            && r.published == None && r.failed == None
            && (r.publishing == None || r.publishing.value + 60_000_000_000 < now)
  {
  }

  /** What a settled batch comes to: each event of the batch, listed once, is settled by its own fate alone, and
      no other row changes. */
  lemma {:induction false} BatchSettlesEach(rows: Rows, ids: seq<Uuid>, fates: seq<Fate>, id: Uuid)
    requires |ids| == |fates|
    requires forall i, j :: 0 <= i < j < |ids| ==> ids[i] != ids[j]
    requires id in rows
    ensures SettleAll(rows, ids, fates).Keys == rows.Keys
    ensures id !in ids ==> SettleAll(rows, ids, fates)[id] == rows[id]
    ensures forall i :: 0 <= i < |ids| && ids[i] == id ==>
      SettleAll(rows, ids, fates)[id] == Settle(rows, id, fates[i])[id]
    decreases |ids|
  {
    if ids != [] {
      var n := |ids| - 1;
      BatchSettlesEach(rows, ids[..n], fates[..n], id);
      assert id in ids[..n] ==> ids[n] != id;
    }
  }
}
