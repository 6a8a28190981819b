/** Per-token evaluation leases with takeover of stuck ones, and the reservations held while a buy is in flight. */
module EvaluationGuard {
  import opened Prelude
  import opened OrderedMaps
  import opened TradeLedger
  import opened EntryRisk

  datatype Lease = Lease(mint: Mint, id: nat)

  datatype Held = Held(id: nat, startedAtMs: int)

  datatype Guard = Guard(held: map<Mint, Held>, lastId: nat, skipped: nat, takeovers: nat)

  /** The guard after an attempt to acquire, and the lease when there is one. */
  datatype Acquisition = Acquisition(guard: Guard, lease: Option<Lease>, tookOverStale: bool)

  const FRESH := Guard(map[], 0, 0, 0)

  function TryAcquire(timeoutMs: int, g: Guard, mint: Mint, now: int): Acquisition {
    if mint in g.held && now - g.held[mint].startedAtMs < timeoutMs then
      Acquisition(g.(skipped := g.skipped + 1), None, false)
    else
      var id := g.lastId + 1;
      var stale := mint in g.held;
      Acquisition(Guard(g.held[mint := Held(id, now)], id, g.skipped, g.takeovers + if stale then 1 else 0),
                  Some(Lease(mint, id)), stale)
  }

  predicate IsCurrent(g: Guard, lease: Lease) {
    lease.mint in g.held && g.held[lease.mint].id == lease.id
  }

  function Release(g: Guard, lease: Lease): Guard {
    if IsCurrent(g, lease) then g.(held := g.held - {lease.mint}) else g
  }

  class EvaluationGuard {
    const timeoutMs: int
    var held: map<Mint, Held>
    var seq_: nat
    var skipped: nat
    var takeovers: nat

    ghost function View(): Guard
      reads this
    {
      Guard(held, seq_, skipped, takeovers)
    }

    constructor (timeout: int)
      requires timeout > 0
      ensures timeoutMs == timeout && View() == FRESH
    {
      timeoutMs := timeout;
      held, seq_, skipped, takeovers := map[], 0, 0, 0;
    }

    method Acquire(mint: Mint, now: int) returns (lease: Option<Lease>, tookOverStale: bool)
      modifies this
      ensures Acquisition(View(), lease, tookOverStale) == TryAcquire(timeoutMs, old(View()), mint, now)
    {
      tookOverStale := false;
      if mint in held {
        if now - held[mint].startedAtMs < timeoutMs {
          skipped := skipped + 1;
          return None, false;
        }
        tookOverStale := true;
        takeovers := takeovers + 1;
      }
      seq_ := seq_ + 1;
      held := held[mint := Held(seq_, now)];
      lease := Some(Lease(mint, seq_));
    }

    method ReleaseLease(lease: Lease)
      modifies this
      ensures View() == Release(old(View()), lease)
    {
      if lease.mint in held && held[lease.mint].id == lease.id {
        held := held - {lease.mint};
      }
    }
  }

  /** Sizes reserved by mint, in the order they were made. */
  type Reservations = OrderedMap<Mint, Sol>

  function AsOpenPositions(r: Reservations): seq<OpenPosition> {
    seq(|r|, i requires 0 <= i < |r| => OpenPosition(r[i].0, r[i].1))
  }

  class EntryReservations {
    var pending: Reservations

    constructor ()
      ensures pending == []
    {
      pending := [];
    }

    method Reserve(mint: Mint, size: Sol) returns (made: bool)
      modifies this
      ensures made <==> !Has(old(pending), mint)
      ensures pending == if made then old(pending) + [(mint, size)] else old(pending)
    {
      made := !Has(pending, mint);
      if made {
        pending := Set(pending, mint, size);
      }
    }

    method ReleaseMint(mint: Mint)
      modifies this
      ensures pending == Delete(old(pending), mint)
    {
      pending := Delete(pending, mint);
    }
  }

  /** Every lease held was issued. */
  ghost predicate Issued(g: Guard) {
    forall m | m in g.held :: g.held[m].id <= g.lastId
  }

  /** A new lease is the live one for its mint, was never issued before, and leaves other mints' leases alone. */
  lemma AcquiringMakesCurrent(timeoutMs: int, g: Guard, mint: Mint, now: int)
    requires Issued(g)
    ensures var a := TryAcquire(timeoutMs, g, mint, now);
      && Issued(a.guard)
      && (a.lease.Some? ==> IsCurrent(a.guard, a.lease.value) && a.lease.value.id > g.lastId)
      && (a.lease.None? <==> mint in g.held && now - g.held[mint].startedAtMs < timeoutMs)
      && forall lease: Lease | lease.mint != mint :: IsCurrent(a.guard, lease) <==> IsCurrent(g, lease)
  {}

  /** A lease that was issued and is no longer current never becomes current again. */
  lemma StaleStaysStale(timeoutMs: int, g: Guard, stale: Lease, mint: Mint, now: int, released: Lease)
    requires Issued(g) && stale.id <= g.lastId && !IsCurrent(g, stale)
    ensures !IsCurrent(TryAcquire(timeoutMs, g, mint, now).guard, stale)
    ensures !IsCurrent(Release(g, released), stale)
    ensures stale.id <= TryAcquire(timeoutMs, g, mint, now).guard.lastId
  {}
}
