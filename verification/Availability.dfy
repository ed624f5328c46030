/**
 The availability engine of scheduling-service: the nested loops of `Available`, what their output means, and
 when it is strictly ascending.
 */
module Availability {
  import opened Appointments

  datatype Slot = Slot(start: Instant, end: Instant)

  /** The grid step in force: the tenant's setting, or the configured fallback when it is not positive. */
  function Step(setting: int, fallback: int): int {
    if setting < 1 then fallback else setting
  }

  /** Time a start needs before the window closes. */
  function Tail(svc: Service): int {
    (svc.duration + svc.after) * MINUTE
  }

  predicate Meets(svc: Service, s: Instant, x: Slot) {
    s - svc.before * MINUTE < x.end && s + Tail(svc) > x.start
  }

  /** The buffered range of `s` starts inside the window, after now, and meets nothing busy. */
  predicate Fits(w: Slot, busy: seq<Slot>, svc: Service, now: Instant, s: Instant) {
    && w.start <= s - svc.before * MINUTE
    && now < s
    && forall i :: 0 <= i < |busy| ==> !Meets(svc, s, busy[i])
  }

  function SlotAt(svc: Service, s: Instant): Slot {
    Slot(s, s + svc.duration * MINUTE)
  }

  /** The offered slots of one window from grid point `s` on. */
  function Scan(w: Slot, busy: seq<Slot>, svc: Service, step: int, now: Instant, s: Instant): seq<Slot>
    requires step >= 1
    decreases w.end - Tail(svc) - s
  {
    if s + Tail(svc) > w.end then []
    else
      (if Fits(w, busy, svc, now, s) then [SlotAt(svc, s)] else [])
      + Scan(w, busy, svc, step, now, s + step * MINUTE)
  }

  function Offer(ws: seq<Slot>, busy: seq<Slot>, svc: Service, step: int, now: Instant): seq<Slot>
    requires step >= 1
  {
    if ws == [] then []
    else
      var rest, w := ws[..|ws| - 1], ws[|ws| - 1];
      Offer(rest, busy, svc, step, now) + Scan(w, busy, svc, step, now, w.start)
  }

  // ---------------------------------------------------------------- what a customer may rely on, in arithmetic

  /** `s` is a grid point of the window: a whole number of steps, in minutes, after its start. */
  ghost predicate OnGrid(w: Slot, step: int, n: nat, s: Instant) {
    s == w.start + n * (step * 60_000_000_000)
  }

  /** The ranges [from, to) and x have no instant in common. */
  ghost predicate Disjoint(from: Instant, to: Instant, x: Slot) {
    to <= x.start || x.end <= from
  }

  /** `s` is still to come, and from the buffer before it to the buffer after its end it lies inside the window and
      apart from everything blocked or occupied. */
  ghost predicate Suits(w: Slot, blocked: seq<Slot>, occupied: seq<Slot>, svc: Service, now: Instant, s: Instant) {
    var from, to := s - svc.before * 60_000_000_000, s + (svc.duration + svc.after) * 60_000_000_000;
    && now < s && w.start <= from && to <= w.end
    && (forall i :: 0 <= i < |blocked| ==> Disjoint(from, to, blocked[i]))
    && (forall i :: 0 <= i < |occupied| ==> Disjoint(from, to, occupied[i]))
  }

  /** The slots are those of the suitable grid points, all of them and no others. */
  ghost predicate RightSlots(
      out: seq<Slot>, ws: seq<Slot>, blocked: seq<Slot>, occupied: seq<Slot>, svc: Service, step: int, now: Instant)
  {
    && (forall x :: x in out ==>
          && now < x.start && x.end == x.start + svc.duration * 60_000_000_000
          && exists i, n: nat ::
               0 <= i < |ws| && OnGrid(ws[i], step, n, x.start) && Suits(ws[i], blocked, occupied, svc, now, x.start))
    && (forall i, n: nat, s ::
          0 <= i < |ws| && OnGrid(ws[i], step, n, s) && Suits(ws[i], blocked, occupied, svc, now, s) ==>
            Slot(s, s + svc.duration * 60_000_000_000) in out)
  }

  /** The loops of `Available`; they terminate for every step of at least one minute. */
  method Available(ws: seq<Slot>, blocked: seq<Slot>, occupied: seq<Slot>, svc: Service, step: int, now: Instant)
    returns (out: seq<Slot>)
    requires step >= 1
    ensures out == Offer(ws, blocked + occupied, svc, step, now)
    ensures RightSlots(out, ws, blocked, occupied, svc, step, now)
  {
    out := [];
    ghost var busy := blocked + occupied;
    for i := 0 to |ws|
      invariant out == Offer(ws[..i], busy, svc, step, now)
    {
      var w := ws[i];
      assert ws[..i + 1][..i] == ws[..i];
      ghost var before := out;
      var start := w.start;
      while start + (svc.duration + svc.after) * MINUTE <= w.end
        invariant before + Scan(w, busy, svc, step, now, w.start) == out + Scan(w, busy, svc, step, now, start)
        decreases w.end - Tail(svc) - start
      {
        var occStart := start - svc.before * MINUTE;
        var occEnd := start + (svc.duration + svc.after) * MINUTE;
        if !(occStart < w.start || start <= now) {
          var all := blocked + occupied;
          var bad := false;
          for j := 0 to |all|
            invariant !bad && forall x :: 0 <= x < j ==> !Meets(svc, start, all[x])
          {
            if occStart < all[j].end && occEnd > all[j].start {
              bad := true;
              break;
            }
          }
          if !bad {
            out := out + [Slot(start, start + svc.duration * MINUTE)];
          }
        }
        start := start + step * MINUTE;
      }
    }
    assert ws[..|ws|] == ws;
    OfferIsRight(ws, blocked, occupied, svc, step, now);
  }

  // ---------------------------------------------------------------- what is offered

  /** `s` is the `k`-th grid point of the window, and its buffered range lies in the window, is later than now
      and meets nothing busy. */
  ghost predicate Offered(w: Slot, busy: seq<Slot>, svc: Service, step: int, now: Instant, k: nat, s: Instant) {
    s == w.start + k * (step * MINUTE) && s + Tail(svc) <= w.end && Fits(w, busy, svc, now, s)
  }

  lemma GridShift(k: int, g: int)
    ensures (k + 1) * g == k * g + g
  {
  }

  /** Every slot of a scan is an offered grid point at or after the starting point. */
  lemma {:induction false} ScanSound(w: Slot, busy: seq<Slot>, svc: Service, step: int, now: Instant, n: nat, x: Slot)
    returns (k: nat)
    requires step >= 1
    requires x in Scan(w, busy, svc, step, now, w.start + n * (step * MINUTE))
    ensures k >= n && Offered(w, busy, svc, step, now, k, x.start) && x == SlotAt(svc, x.start)
    decreases w.end - Tail(svc) - (w.start + n * (step * MINUTE))
  {
    var s := w.start + n * (step * MINUTE);
    if Fits(w, busy, svc, now, s) && x == SlotAt(svc, s) {
      k := n;
    } else {
      GridShift(n, step * MINUTE);
      k := ScanSound(w, busy, svc, step, now, n + 1, x);
    }
  }

  /** Every offered grid point at or after the starting point is in the scan. */
  lemma {:induction false} ScanComplete(
      w: Slot, busy: seq<Slot>, svc: Service, step: int, now: Instant, n: nat, k: nat, s: Instant)
    requires step >= 1 && n <= k
    requires Offered(w, busy, svc, step, now, k, s)
    ensures SlotAt(svc, s) in Scan(w, busy, svc, step, now, w.start + n * (step * MINUTE))
    decreases k - n
  {
    GridMonotone(n, k, step * MINUTE);
    if n < k {
      GridShift(n, step * MINUTE);
      ScanComplete(w, busy, svc, step, now, n + 1, k, s);
    }
  }

  lemma GridMonotone(n: int, k: int, g: int)
    requires n <= k && g >= 0
    ensures n * g <= k * g
  {
  }

  /** The output is exactly the offered grid points of the windows. */
  lemma {:induction false} OfferMeaning(ws: seq<Slot>, busy: seq<Slot>, svc: Service, step: int, now: Instant, x: Slot)
    requires step >= 1
    ensures x in Offer(ws, busy, svc, step, now) <==>
      x == SlotAt(svc, x.start) && exists i, k: nat :: 0 <= i < |ws| && Offered(ws[i], busy, svc, step, now, k, x.start)
  {
    if ws != [] {
      var rest, w := ws[..|ws| - 1], ws[|ws| - 1];
      OfferMeaning(rest, busy, svc, step, now, x);
      if x in Scan(w, busy, svc, step, now, w.start) {
        var k := ScanSound(w, busy, svc, step, now, 0, x);
        assert Offered(ws[|ws| - 1], busy, svc, step, now, k, x.start);
      }
      if x == SlotAt(svc, x.start)
         && exists i, k: nat :: 0 <= i < |ws| && Offered(ws[i], busy, svc, step, now, k, x.start)
      {
        var i, k: nat :| 0 <= i < |ws| && Offered(ws[i], busy, svc, step, now, k, x.start);
        if i < |rest| {
          assert Offered(rest[i], busy, svc, step, now, k, x.start);
        } else {
          ScanComplete(w, busy, svc, step, now, 0, k, x.start);
        }
      }
    }
  }

  lemma SuitsIsOffered(
      w: Slot, blocked: seq<Slot>, occupied: seq<Slot>, svc: Service, step: int, now: Instant, n: nat, s: Instant)
    ensures OnGrid(w, step, n, s) && Suits(w, blocked, occupied, svc, now, s) <==>
            Offered(w, blocked + occupied, svc, step, now, n, s)
  {
    var busy := blocked + occupied;
    assert forall i :: 0 <= i < |blocked| ==> busy[i] == blocked[i];
    assert forall i :: 0 <= i < |occupied| ==> busy[|blocked| + i] == occupied[i];
  }

  /** The offer is right in arithmetic: sound and complete. */
  lemma OfferIsRight(
      ws: seq<Slot>, blocked: seq<Slot>, occupied: seq<Slot>, svc: Service, step: int, now: Instant)
    requires step >= 1
    ensures RightSlots(Offer(ws, blocked + occupied, svc, step, now), ws, blocked, occupied, svc, step, now)
  {
    var busy := blocked + occupied;
    var out := Offer(ws, busy, svc, step, now);
    forall x | x in out
      ensures now < x.start && x.end == x.start + svc.duration * 60_000_000_000
      ensures exists i, n: nat ::
        0 <= i < |ws| && OnGrid(ws[i], step, n, x.start) && Suits(ws[i], blocked, occupied, svc, now, x.start)
    {
      OfferMeaning(ws, busy, svc, step, now, x);
      var i, n: nat :| 0 <= i < |ws| && Offered(ws[i], busy, svc, step, now, n, x.start);
      SuitsIsOffered(ws[i], blocked, occupied, svc, step, now, n, x.start);
    }
    forall i, n: nat, s | 0 <= i < |ws| && OnGrid(ws[i], step, n, s) && Suits(ws[i], blocked, occupied, svc, now, s)
      ensures Slot(s, s + svc.duration * 60_000_000_000) in out
    {
      SuitsIsOffered(ws[i], blocked, occupied, svc, step, now, n, s);
      OfferMeaning(ws, busy, svc, step, now, SlotAt(svc, s));
    }
  }

  // ---------------------------------------------------------------- order

  predicate Ascending(out: seq<Slot>) {
    forall i, j :: 0 <= i < j < |out| ==> out[i].start < out[j].start
  }

  /** Windows as the valid working hours of one day give them: non-empty, in order, possibly touching. */
  predicate ValidWindows(ws: seq<Slot>) {
    && (forall i :: 0 <= i < |ws| ==> ws[i].start < ws[i].end)
    && (forall i, j :: 0 <= i < j < |ws| ==> ws[i].end <= ws[j].start)
  }

  predicate NonNegative(svc: Service) {
    svc.duration >= 0 && svc.before >= 0 && svc.after >= 0
  }

  /** Within one window the scan is strictly ascending and stays between its first grid point and the end. */
  lemma {:induction false} ScanAscends(w: Slot, busy: seq<Slot>, svc: Service, step: int, now: Instant, s: Instant)
    requires step >= 1
    ensures
      var out := Scan(w, busy, svc, step, now, s);
      Ascending(out) && forall i :: 0 <= i < |out| ==>
        s <= out[i].start && w.start + svc.before * MINUTE <= out[i].start && out[i].start + Tail(svc) <= w.end
    decreases w.end - Tail(svc) - s
  {
    if s + Tail(svc) <= w.end {
      ScanAscends(w, busy, svc, step, now, s + step * MINUTE);
    }
  }

  /** Valid windows give a strictly ascending list whenever a booking occupies any time at all. */
  lemma {:induction false} OfferAscends(ws: seq<Slot>, busy: seq<Slot>, svc: Service, step: int, now: Instant)
    requires step >= 1 && ValidWindows(ws) && NonNegative(svc)
    requires svc.before + svc.duration + svc.after > 0
    ensures Ascending(Offer(ws, busy, svc, step, now))
    ensures forall x :: x in Offer(ws, busy, svc, step, now) ==> ws != [] && x.start + Tail(svc) <= ws[|ws| - 1].end
  {
    if ws != [] {
      var rest, w := ws[..|ws| - 1], ws[|ws| - 1];
      OfferAscends(rest, busy, svc, step, now);
      ScanAscends(w, busy, svc, step, now, w.start);
      var a, b := Offer(rest, busy, svc, step, now), Scan(w, busy, svc, step, now, w.start);
      assert rest != [] ==> rest[|rest| - 1].end <= w.start;
      var out: seq<Slot> := a + b;
      forall i, j | 0 <= i < j < |out|
        ensures out[i].start < out[j].start
      {
        if i < |a| <= j { assert out[i] in a && out[j] == b[j - |a|]; }
      }
    }
  }

  /** Touching windows offer the shared instant twice when a booking occupies no time: for every step. */
  lemma TouchingWindowsRepeat(step: int)
    requires step >= 1
    ensures
      var g := step * MINUTE;
      var ws := [Slot(0, g), Slot(g, 2 * g)];
      ValidWindows(ws) && !Ascending(Offer(ws, [], Service(0, 0, 0), step, -1))
  {
    var g, svc := step * MINUTE, Service(0, 0, 0);
    var ws := [Slot(0, g), Slot(g, 2 * g)];
    var a, b := Scan(ws[0], [], svc, step, -1, 0), Scan(ws[1], [], svc, step, -1, g);
    assert ws[..1][..0] == [] && ws[..1] == [ws[0]];
    assert Offer(ws[..1], [], svc, step, -1) == a;
    assert Offer(ws, [], svc, step, -1) == a + b;
    assert Scan(ws[0], [], svc, step, -1, g)[0] == SlotAt(svc, g);
    assert a[1] == SlotAt(svc, g) && b[0] == SlotAt(svc, g);
    assert (a + b)[1] == (a + b)[|a|];
  }
}
