/** Sign-in sessions as Redis keeps them: a record under its id, dropped by Redis when its
    time to live runs out, and ended earlier by the two clocks that `get` checks. */
module SessionStore {
  import opened Prelude

  datatype Session = Session(
    staffId: string, epoch: nat, createdAt: int, lastSeenAt: int, absoluteExpiresAt: int, mfaVerified: bool)

  datatype Config = Config(idleMs: int, absoluteMs: int)

  /** Redis drops the key after `until`. */
  datatype Stored = Stored(session: Session, until: int)

  type Store = map<string, Stored>

  datatype Looked = Absent | Expired | Live(session: Session)

  const PENDING_MIN_MS := 600_000

  function IdleMs(x: Session, cfg: Config): int {
    if x.mfaVerified then cfg.idleMs else Max(cfg.idleMs, PENDING_MIN_MS)
  }

  /** The time to live `persist` asks for; it refuses to store when this is not positive. */
  function TtlMs(x: Session, now: int, cfg: Config): int {
    Min(x.absoluteExpiresAt - now, IdleMs(x, cfg))
  }

  function Look(store: Store, sid: string, now: int, cfg: Config): Looked {
    if sid !in store || now > store[sid].until then Absent
    else
      var x := store[sid].session;
      if now > x.absoluteExpiresAt || now - x.lastSeenAt > IdleMs(x, cfg) then Expired else Live(x)
  }

  function Minted(staffId: string, epoch: nat, mfaVerified: bool, now: int, cfg: Config): Session {
    Session(staffId, epoch, now, now, now + cfg.absoluteMs, mfaVerified)
  }

  /** A record that can be stored now is found again at any moment within its idle allowance and
      its absolute lifetime, and at no moment outside them. */
  lemma {:induction false} StoredUntilEitherClock(store: Store, sid: string, x: Session, now: int, later: int, cfg: Config)
    requires TtlMs(x, now, cfg) > 0 && x.lastSeenAt == now <= later
    ensures Look(store[sid := Stored(x, now + TtlMs(x, now, cfg))], sid, later, cfg) ==
      if later <= x.absoluteExpiresAt && later - now <= IdleMs(x, cfg) then Live(x) else Absent
  {
  }

  /** In plain numbers: a verified session lasts the idle time, one that still lacks its second factor
      ten minutes at least, and neither outlives its absolute lifetime. */
  lemma {:induction false} PendingLastsTenMinutes(store: Store, sid: string, x: Session, now: int, later: int, cfg: Config)
    requires x.lastSeenAt == now <= later && x.absoluteExpiresAt > now && cfg.idleMs > 0
    ensures var found := Look(store[sid := Stored(x, now + TtlMs(x, now, cfg))], sid, later, cfg);
      found == Live(x) <==> (later <= x.absoluteExpiresAt && (later - now <= cfg.idleMs || (!x.mfaVerified && later - now <= 600_000)))
  {
    StoredUntilEitherClock(store, sid, x, now, later, cfg);
  }

  class SessionService {
    const cfg: Config
    var stored: Store

    constructor (cfg: Config)
      ensures this.cfg == cfg && stored == map[]
    {
      this.cfg := cfg;
      stored := map[];
    }

    /** `get`, up to the revocation of an expired session: a record comes back only within its idle
        allowance and its absolute lifetime, and one that is stored and within both always does. */
    method Get(sid: string, now: int) returns (found: Looked)
      ensures found == Look(stored, sid, now, cfg)
      ensures found.Live? ==> now <= found.session.absoluteExpiresAt && now - found.session.lastSeenAt <= IdleMs(found.session, cfg)
      ensures found.Absent? <==> sid !in stored || now > stored[sid].until
      ensures !found.Absent? ==>
        var x := stored[sid].session;
        var inTime := now <= x.absoluteExpiresAt && (now - x.lastSeenAt <= cfg.idleMs || (!x.mfaVerified && now - x.lastSeenAt <= 600_000));
        found == if inTime then Live(x) else Expired
    {
      if sid !in stored || now > stored[sid].until { return Absent; }
      var record := stored[sid].session;
      if now > record.absoluteExpiresAt { return Expired; }
      if now - record.lastSeenAt > IdleMs(record, cfg) { return Expired; }
      found := Live(record);
    }

    /** The write `persist` awaits; Redis counts the time to live from the moment it arrives. What `touch`
        writes at once is found again exactly until either clock runs out, and no other session is
        touched. */
    method Write(sid: string, x: Session, ttlMs: int, now: int)
      modifies this
      ensures stored == old(stored)[sid := Stored(x, now + ttlMs)]
      ensures forall t :: now <= t && x.lastSeenAt == now && ttlMs == TtlMs(x, now, cfg) > 0 ==>
        Look(stored, sid, t, cfg) == if t <= x.absoluteExpiresAt && t - now <= IdleMs(x, cfg) then Live(x) else Absent
      ensures forall k, t :: k != sid ==> Look(stored, k, t, cfg) == Look(old(stored), k, t, cfg)
    {
      stored := stored[sid := Stored(x, now + ttlMs)];
    }

    /** Nobody finds the session afterwards, and every other one is found as before. */
    method Revoke(sid: string)
      modifies this
      ensures stored == old(stored) - {sid}
      ensures forall k, t :: Look(stored, k, t, cfg) == if k == sid then Absent else Look(old(stored), k, t, cfg)
    {
      stored := stored - {sid};
    }
  }
}
