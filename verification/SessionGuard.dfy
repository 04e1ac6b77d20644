/** The session guard: a request is let through when its session is live, its second factor is
    verified, the cached staff row is active with the session's own epoch, and the write that slides
    its idle window has been acknowledged.

    One action is one awaited call, or the code that runs between two of them. The clock moves only
    when no promise has work left to run, as in one JavaScript process. `born`, `loads`, `passed` and
    `admitted` are history: what was minted, loaded, judged in a request's favour and let through. */
module SessionGuard {
  import opened Prelude
  import opened SessionStore
  import TC = TtlCache

  const STAFF_TTL_MS := 10_000
  const STAFF_MAX: nat := 500

  /** What a staff query returns. */
  datatype StaffRow = Missing | Found(active: bool, epoch: nat)

  /** A staff row; its `sessionEpoch` is the number of times it was bumped. `since`: when it was last
      made active or inactive. */
  datatype Staff = Staff(active: bool, bumps: seq<int>, since: int)

  datatype Load = Load(staffId: string, began: int, row: Option<StaffRow>)

  datatype Birth = Birth(staffId: string, epoch: nat, at: int)

  /** The guard's verdict in a request's favour, at the moment its `touch` begins. */
  datatype Pass = Pass(r: nat, sid: string, staffId: string, epoch: nat, entered: int, at: int)

  /** The request goes through: the write of that `touch` was acknowledged. */
  datatype Admission = Admission(pass: nat, at: int)

  /** Where a request stands. `Saving` is a `persist` whose Redis write has not landed; `pass` is the
      verdict it follows, when it is the `touch` of one. */
  datatype Run =
    | Waiting(sid: string, session: Session, entered: int, load: nat)
    | Resumed(sid: string, session: Session, entered: int, row: StaffRow)
    | Holding(sid: string, session: Session)
    | Saving(sid: string, session: Session, ttlMs: int, pass: Option<nat>)
    | Revoking(sid: string)
    | Ended

  datatype World = World(
    now: int, staff: map<string, Staff>, cache: TC.Cache<StaffRow>, sessions: Store, runs: map<nat, Run>,
    loads: map<nat, Load>, born: map<string, Birth>, passed: seq<Pass>, admitted: seq<Admission>)

  function Start(now: int): World { World(now, map[], TC.Empty(), map[], map[], map[], map[], [], []) }

  datatype Action =
    | Tick(to: int)
    | Hire(staffId: string)
    | Bump(staffId: string)
    | SetActive(staffId: string, active: bool)
    | Login(r: nat, sid: string, staffId: string, epoch: nat, mfaVerified: bool)
    | Enter(r: nat, sid: string, csrfOk: bool)
    | Read(load: nat)
    | LoadSettles(load: nat)
    | LoadEnds(load: nat)
    | Decide(r: nat)
    | Fetch(r: nat, sid: string)
    | Update(r: nat, mfaVerified: bool)
    | Save(r: nat, write: Write)
    | Revoke(r: nat)
    | SignOut(sid: string)

  function Switched(member: Staff, active: bool, now: int): Staff {
    if member.active == active then member else member.(active := active, since := now)
  }

  function RowOf(s: World, staffId: string): StaffRow {
    if staffId in s.staff then Found(s.staff[staffId].active, |s.staff[staffId].bumps|) else Missing
  }

  /** No promise callback is waiting to run. */
  predicate Quiet(s: World) {
    && (forall r :: r in s.runs ==> !s.runs[r].Resumed?)
    && (forall i :: 0 <= i < |s.cache.log| ==> s.cache.log[i].id !in s.cache.flights)
  }

  predicate Enabled(s: World, a: Action) {
    match a
    case Tick(to) => s.now <= to && Quiet(s)
    case Hire(id) => id !in s.staff
    case Bump(id) => id in s.staff
    case SetActive(id, _) => id in s.staff
    case Login(r, sid, _, _, _) => r !in s.runs && sid !in s.born
    case Enter(r, _, _) => r !in s.runs
    case Read(id) => id in s.cache.flights && id in s.loads && s.loads[id].row.None?
    case LoadSettles(id) => id in s.cache.flights && !TC.Logged(s.cache.log, id) && id in s.loads && s.loads[id].row.Some?
    case LoadEnds(id) => id in s.cache.flights && id in s.loads
    case Decide(r) => r in s.runs && s.runs[r].Resumed?
    case Fetch(r, _) => r !in s.runs
    case Update(r, _) => r in s.runs && s.runs[r].Holding?
    case Save(r, _) => r in s.runs && s.runs[r].Saving?
    case Revoke(r) => r in s.runs && s.runs[r].Revoking?
    case SignOut(_) => true
  }

  function Goto(s: World, r: nat, run: Run): World { s.(runs := s.runs[r := run]) }

  function CacheStep(s: World, a: TC.Action<StaffRow>): World {
    s.(cache := TC.Step(s.cache, a, STAFF_TTL_MS, STAFF_MAX))
  }

  /** `persist` up to its write: it throws when nothing would be left to live. */
  function Persist(s: World, r: nat, sid: string, x: Session, pass: Option<nat>, cfg: Config): World {
    Goto(s, r, if TtlMs(x, s.now, cfg) <= 0 then Ended else Saving(sid, x, TtlMs(x, s.now, cfg), pass))
  }

  /** Its write lands, or does not. A `touch` that lands and is acknowledged lets its request through. */
  function SaveStep(s: World, r: nat, run: Run, write: Write): World
    requires run.Saving?
  {
    var s' := Goto(s, r, Ended);
    if write.Refused? then s'
    else
      s'.(sessions := s.sessions[run.sid := Stored(run.session, s.now + run.ttlMs)],
          admitted := if write.Committed? && run.pass.Some? then s.admitted + [Admission(run.pass.value, s.now)] else s.admitted)
  }

  function Admits(x: Session, row: StaffRow): bool { row == Found(true, x.epoch) }

  /** The verdict on a staff row: drop the row and revoke, or begin to slide the idle window. */
  function DecideStep(s: World, r: nat, sid: string, x: Session, entered: int, row: StaffRow, cfg: Config): World {
    if !Admits(x, row) then Goto(CacheStep(s, TC.Delete(x.staffId)), r, Revoking(sid))
    else
      var touched := x.(lastSeenAt := s.now);
      var s' := Persist(s, r, sid, touched, Some(|s.passed|), cfg);
      if TtlMs(touched, s.now, cfg) <= 0 then s'
      else s'.(passed := s.passed + [Pass(r, sid, x.staffId, x.epoch, entered, s.now)])
  }

  /** The cached staff row: the verdict at once when there is one, else the wait for a load. */
  function AskStaff(s: World, r: nat, sid: string, x: Session, cfg: Config): World {
    match TC.LookupOf(s.cache, x.staffId, s.now)
    case Hit(row) => DecideStep(s, r, sid, x, s.now, row, cfg)
    case Join(id) => Goto(s, r, Waiting(sid, x, s.now, id))
    case Load(id) =>
      var s' := CacheStep(s, TC.Get(x.staffId, s.now));
      Goto(s'.(loads := s.loads[id := Load(x.staffId, s.now, None)]), r, Waiting(sid, x, s.now, id))
  }

  /** From the session lookup on. */
  function EnterStep(s: World, r: nat, sid: string, csrfOk: bool, cfg: Config): World {
    match Look(s.sessions, sid, s.now, cfg)
    case Absent => Goto(s, r, Ended)
    case Expired => Goto(s, r, Revoking(sid))
    case Live(x) => if x.mfaVerified && csrfOk then AskStaff(s, r, sid, x, cfg) else Goto(s, r, Ended)
  }

  function FetchStep(s: World, r: nat, sid: string, cfg: Config): World {
    match Look(s.sessions, sid, s.now, cfg)
    case Absent => Goto(s, r, Ended)
    case Expired => Goto(s, r, Revoking(sid))
    case Live(x) => Goto(s, r, Holding(sid, x))
  }

  /** Everyone waiting on a load goes on with its row, or fails with it. */
  function Resume(runs: map<nat, Run>, id: nat, row: Option<StaffRow>): map<nat, Run> {
    map r | r in runs :: match runs[r]
      case Waiting(sid, x, entered, load) =>
        if load != id then runs[r] else if row.Some? then Resumed(sid, x, entered, row.value) else Ended
      case _ => runs[r]
  }

  function LoadEndsStep(s: World, id: nat): World
    requires id in s.loads
  {
    var row := if TC.Logged(s.cache.log, id) then s.loads[id].row else None;
    CacheStep(s, TC.Finally(id)).(runs := Resume(s.runs, id, row))
  }

  function Step(s: World, a: Action, cfg: Config): World {
    if !Enabled(s, a) then s else
    match a
    case Tick(to) => s.(now := to)
    case Hire(id) => s.(staff := s.staff[id := Staff(true, [], s.now)])
    case Bump(id) => s.(staff := s.staff[id := s.staff[id].(bumps := s.staff[id].bumps + [s.now])])
    case SetActive(id, active) => s.(staff := s.staff[id := Switched(s.staff[id], active, s.now)])
    case Login(r, sid, staffId, epoch, mfaVerified) =>
      Persist(s.(born := s.born[sid := Birth(staffId, epoch, s.now)]), r, sid, Minted(staffId, epoch, mfaVerified, s.now, cfg), None, cfg)
    case Enter(r, sid, csrfOk) => EnterStep(s, r, sid, csrfOk, cfg)
    case Read(id) => s.(loads := s.loads[id := s.loads[id].(row := Some(RowOf(s, s.loads[id].staffId)))])
    case LoadSettles(id) => CacheStep(s, TC.Settle(id, s.loads[id].row.value, s.now))
    case LoadEnds(id) => LoadEndsStep(s, id)
    case Decide(r) => DecideStep(s, r, s.runs[r].sid, s.runs[r].session, s.runs[r].entered, s.runs[r].row, cfg)
    case Fetch(r, sid) => FetchStep(s, r, sid, cfg)
    case Update(r, mfaVerified) => Persist(s, r, s.runs[r].sid, s.runs[r].session.(mfaVerified := mfaVerified), None, cfg)
    case Save(r, write) => SaveStep(s, r, s.runs[r], write)
    case Revoke(r) => Goto(s.(sessions := s.sessions - {s.runs[r].sid}), r, Ended)
    case SignOut(sid) => s.(sessions := s.sessions - {sid})
  }

  function RunFrom(s: World, actions: seq<Action>, cfg: Config): World
    decreases |actions|
  {
    if actions == [] then s else Step(RunFrom(s, actions[..|actions| - 1], cfg), actions[|actions| - 1], cfg)
  }

  function RunAll(now: int, actions: seq<Action>, cfg: Config): World { RunFrom(Start(now), actions, cfg) }

  // ------------------------------------------------------------ the invariant

  /** The session was last seen when it was minted, or when one of the first `n` admissions took it. */
  ghost predicate SeenThen(born: map<string, Birth>, passed: seq<Pass>, n: nat, sid: string, t: int) {
    (sid in born && born[sid].at == t) || exists j :: 0 <= j < n && j < |passed| && passed[j].sid == sid && passed[j].at == t
  }

  /** Every copy of a session, wherever it is held, still says what was minted. */
  ghost predicate Genuine(s: World, sid: string, x: Session, cfg: Config) {
    && sid in s.born && s.born[sid].staffId == x.staffId && s.born[sid].epoch == x.epoch
    && x.absoluteExpiresAt == s.born[sid].at + cfg.absoluteMs
    && SeenThen(s.born, s.passed, |s.passed|, sid, x.lastSeenAt)
  }

  /** A load of this staff member that settled less than the time to live before `at` gave this row. */
  ghost predicate Served(log: seq<TC.Settled<StaffRow>>, staffId: string, row: StaffRow, at: int) {
    exists i :: 0 <= i < |log| && log[i].key == staffId && log[i].value == row && at < log[i].at + STAFF_TTL_MS
  }

  /** Whatever the query saw, later bumps and a deactivation it missed came after the load began. */
  ghost predicate LoadOk(s: World, l: Load) {
    && l.began <= s.now
    && (l.row.Some? && l.row.value.Found? ==>
          && l.staffId in s.staff
          && (l.row.value.active && !s.staff[l.staffId].active ==> l.began <= s.staff[l.staffId].since)
          && forall k :: l.row.value.epoch <= k < |s.staff[l.staffId].bumps| ==> l.began <= s.staff[l.staffId].bumps[k])
  }

  ghost predicate LoadsOk(s: World) {
    && (forall id :: id in s.loads ==> id < s.cache.nextLoad && LoadOk(s, s.loads[id]))
    && (forall id :: id in s.cache.flights ==> id in s.loads && s.loads[id].staffId == s.cache.flights[id])
  }

  ghost predicate SettledOk(s: World, l: TC.Settled<StaffRow>) {
    && l.id in s.loads && s.loads[l.id].staffId == l.key && s.loads[l.id].row == Some(l.value)
    && (l.id in s.cache.flights ==> l.at == s.now)
  }

  ghost predicate LogOk(s: World) {
    forall i :: 0 <= i < |s.cache.log| ==> SettledOk(s, s.cache.log[i])
  }

  ghost predicate EnteredOk(x: Session, entered: int, now: int, cfg: Config) {
    entered <= now && entered - x.lastSeenAt <= cfg.idleMs
  }

  ghost predicate RunOk(s: World, run: Run, cfg: Config) {
    match run
    case Waiting(sid, x, entered, id) =>
      Genuine(s, sid, x, cfg) && EnteredOk(x, entered, s.now, cfg) && id in s.loads && s.loads[id].staffId == x.staffId
    case Resumed(sid, x, entered, row) =>
      Genuine(s, sid, x, cfg) && EnteredOk(x, entered, s.now, cfg) && Served(s.cache.log, x.staffId, row, s.now)
    case Holding(sid, x) => Genuine(s, sid, x, cfg)
    case Saving(sid, x, _, pass) =>
      Genuine(s, sid, x, cfg) && (pass.Some? ==> pass.value < |s.passed| && s.passed[pass.value].sid == sid)
    case _ => true
  }

  ghost predicate RunsOk(s: World, cfg: Config) {
    && (forall r :: r in s.runs ==> RunOk(s, s.runs[r], cfg))
    && (forall sid :: sid in s.sessions ==> Genuine(s, sid, s.sessions[sid].session, cfg))
  }

  ghost predicate PassOk(s: World, i: nat, cfg: Config)
    requires i < |s.passed|
  {
    var a := s.passed[i];
    && a.entered <= a.at <= s.now
    && a.sid in s.born && s.born[a.sid].staffId == a.staffId && s.born[a.sid].epoch == a.epoch
    && a.at < s.born[a.sid].at + cfg.absoluteMs
    && (exists seen :: SeenThen(s.born, s.passed, i, a.sid, seen) && a.entered - seen <= cfg.idleMs)
    && Served(s.cache.log, a.staffId, Found(true, a.epoch), a.at)
  }

  ghost predicate PassesOk(s: World, cfg: Config) {
    && (forall i :: 0 <= i < |s.passed| ==> PassOk(s, i, cfg))
    && (forall j :: 0 <= j < |s.admitted| ==> AdmissionOk(s, s.admitted[j]))
  }

  ghost predicate AdmissionOk(s: World, a: Admission) {
    a.pass < |s.passed| && s.passed[a.pass].at <= a.at <= s.now
  }

  ghost predicate Inv(s: World, cfg: Config) {
    && TC.Valid(s.cache, STAFF_TTL_MS, STAFF_MAX)
    && LoadsOk(s) && LogOk(s) && RunsOk(s, cfg) && PassesOk(s, cfg)
  }

  // ------------------------------------------------------------ every step keeps it

  /** History only grows. */
  ghost predicate Extends(s: World, s': World) {
    && s.now <= s'.now && s.passed <= s'.passed && s.admitted <= s'.admitted && s.cache.log <= s'.cache.log
    && (forall sid :: sid in s.born ==> sid in s'.born && s'.born[sid] == s.born[sid])
    && (forall id :: id in s.loads ==> id in s'.loads && s'.loads[id].staffId == s.loads[id].staffId)
  }

  /** A step of the cache only adds to its log. */
  lemma CacheGrows(c: TC.Cache<StaffRow>, a: TC.Action<StaffRow>)
    ensures c.log <= TC.Step(c, a, STAFF_TTL_MS, STAFF_MAX).log
  {
  }

  lemma DecideExtends(s: World, r: nat, sid: string, x: Session, entered: int, row: StaffRow, cfg: Config)
    ensures Extends(s, DecideStep(s, r, sid, x, entered, row, cfg))
  {
    CacheGrows(s.cache, TC.Delete(x.staffId));
    hide TC.Step;
  }

  lemma AskExtends(s: World, r: nat, sid: string, x: Session, cfg: Config)
    requires LoadsOk(s)
    ensures Extends(s, AskStaff(s, r, sid, x, cfg))
  {
    CacheGrows(s.cache, TC.Get(x.staffId, s.now));
    var l := TC.LookupOf(s.cache, x.staffId, s.now);
    if l.Hit? { DecideExtends(s, r, sid, x, s.now, l.value, cfg); }
    hide TC.Step, DecideStep;
  }

  lemma EnterExtends(s: World, r: nat, sid: string, csrfOk: bool, cfg: Config)
    requires LoadsOk(s)
    ensures Extends(s, EnterStep(s, r, sid, csrfOk, cfg))
  {
    var l := Look(s.sessions, sid, s.now, cfg);
    if l.Live? { AskExtends(s, r, sid, l.session, cfg); }
    hide AskStaff, LoadsOk;
  }

  lemma CacheActionExtends(s: World, a: Action, cfg: Config)
    requires Enabled(s, a) && (a.LoadSettles? || a.LoadEnds?)
    ensures Extends(s, Step(s, a, cfg))
  {
    CacheGrows(s.cache, if a.LoadEnds? then TC.Finally(a.load) else TC.Settle(a.load, s.loads[a.load].row.value, s.now));
    hide TC.Step, Resume, TC.Logged;
  }

  lemma PlainActionExtends(s: World, a: Action, cfg: Config)
    requires Enabled(s, a) && !a.Enter? && !a.Decide? && !a.LoadSettles? && !a.LoadEnds?
    ensures Extends(s, Step(s, a, cfg))
  {
    hide EnterStep, DecideStep, LoadEndsStep, CacheStep, Quiet;
  }

  lemma StepExtends(s: World, a: Action, cfg: Config)
    requires LoadsOk(s)
    ensures Extends(s, Step(s, a, cfg))
  {
    if !Enabled(s, a) { return; }
    match a
    case Enter(r, sid, csrfOk) =>
      EnterExtends(s, r, sid, csrfOk, cfg);
      assert Step(s, a, cfg) == EnterStep(s, r, sid, csrfOk, cfg) by { hide EnterStep; }
      hide Step, Extends;
    case Decide(r) =>
      DecideExtends(s, r, s.runs[r].sid, s.runs[r].session, s.runs[r].entered, s.runs[r].row, cfg);
      hide Extends, DecideStep;
    case LoadSettles(_) => CacheActionExtends(s, a, cfg); hide Step, Extends;
    case LoadEnds(_) => CacheActionExtends(s, a, cfg); hide Step, Extends;
    case _ => PlainActionExtends(s, a, cfg); hide Step, Extends;
  }

  lemma GenuineStays(s: World, s': World, sid: string, x: Session, cfg: Config)
    requires Extends(s, s') && Genuine(s, sid, x, cfg)
    ensures Genuine(s', sid, x, cfg)
  {
  }

  lemma ServedStays(log: seq<TC.Settled<StaffRow>>, log': seq<TC.Settled<StaffRow>>, staffId: string, row: StaffRow, at: int)
    requires log <= log' && Served(log, staffId, row, at)
    ensures Served(log', staffId, row, at)
  {
    var i :| 0 <= i < |log| && log[i].key == staffId && log[i].value == row && at < log[i].at + STAFF_TTL_MS;
    assert log'[i] == log[i];
  }

  lemma RunStays(s: World, s': World, run: Run, cfg: Config)
    requires Extends(s, s') && RunOk(s, run, cfg) && (run.Resumed? ==> s'.now == s.now)
    ensures RunOk(s', run, cfg)
  {
    if run.Waiting? || run.Resumed? || run.Holding? || run.Saving? { GenuineStays(s, s', run.sid, run.session, cfg); }
    if run.Resumed? { ServedStays(s.cache.log, s'.cache.log, run.session.staffId, run.row, s.now); }
  }

  lemma PassStays(s: World, s': World, i: nat, cfg: Config)
    requires Extends(s, s') && i < |s.passed| && PassOk(s, i, cfg)
    ensures PassOk(s', i, cfg)
  {
    var a := s.passed[i];
    assert s'.passed[i] == a;
    ServedStays(s.cache.log, s'.cache.log, a.staffId, Found(true, a.epoch), a.at);
    var seen :| SeenThen(s.born, s.passed, i, a.sid, seen) && a.entered - seen <= cfg.idleMs;
    assert SeenThen(s'.born, s'.passed, i, a.sid, seen);
  }

  lemma AdmissionStays(s: World, s': World, j: nat)
    requires Extends(s, s') && j < |s.admitted| && AdmissionOk(s, s.admitted[j])
    ensures AdmissionOk(s', s'.admitted[j])
  {
  }

  /** A hit serves the row of a load that settled less than the time to live ago. */
  lemma HitServed(s: World, staffId: string, cfg: Config)
    requires Inv(s, cfg) && TC.LookupOf(s.cache, staffId, s.now).Hit?
    ensures Served(s.cache.log, staffId, TC.LookupOf(s.cache, staffId, s.now).value, s.now)
  {
    var e := s.cache.entries[staffId];
    var l :| l in s.cache.log && l.key == staffId && l.value == e.value && e.expires == l.at + STAFF_TTL_MS;
    var i :| 0 <= i < |s.cache.log| && s.cache.log[i] == l;
  }

  /** The run that moved is sound, and so is the admission it added, if it added one. */
  ghost predicate Sound(s: World, s': World, r: nat, cfg: Config) {
    && r in s'.runs && RunOk(s', s'.runs[r], cfg)
    && (s'.passed == s.passed || (|s'.passed| == |s.passed| + 1 && PassOk(s', |s.passed|, cfg)))
    && (s'.admitted == s.admitted || (|s'.admitted| == |s.admitted| + 1 && AdmissionOk(s', s'.admitted[|s.admitted|])))
  }

  lemma PassIsSound(s: World, s': World, r: nat, sid: string, x: Session, entered: int, cfg: Config)
    requires Genuine(s, sid, x, cfg) && EnteredOk(x, entered, s.now, cfg)
    requires Served(s.cache.log, x.staffId, Found(true, x.epoch), s.now) && s.now < x.absoluteExpiresAt
    requires s' == s.(passed := s.passed + [Pass(r, sid, x.staffId, x.epoch, entered, s.now)],
                      runs := s.runs[r := Saving(sid, x.(lastSeenAt := s.now), TtlMs(x.(lastSeenAt := s.now), s.now, cfg), Some(|s.passed|))])
    ensures Sound(s, s', r, cfg)
  {
    var n := |s.passed|;
    assert s'.passed[n] == Pass(r, sid, x.staffId, x.epoch, entered, s.now);
    hide Served;
    if s.born[sid].at != x.lastSeenAt {
      var j :| 0 <= j < n && s.passed[j].sid == sid && s.passed[j].at == x.lastSeenAt;
      assert s'.passed[j] == s.passed[j];
    }
    assert SeenThen(s'.born, s'.passed, n, sid, x.lastSeenAt);
  }

  lemma DecideIsSound(s: World, r: nat, sid: string, x: Session, entered: int, row: StaffRow, cfg: Config)
    requires Genuine(s, sid, x, cfg) && EnteredOk(x, entered, s.now, cfg) && Served(s.cache.log, x.staffId, row, s.now)
    ensures Sound(s, DecideStep(s, r, sid, x, entered, row, cfg), r, cfg)
  {
    var s' := DecideStep(s, r, sid, x, entered, row, cfg);
    hide TC.Step, Served;
    if Admits(x, row) && TtlMs(x.(lastSeenAt := s.now), s.now, cfg) > 0 {
      PassIsSound(s, s', r, sid, x, entered, cfg);
    }
  }

  lemma AskIsSound(s: World, r: nat, sid: string, x: Session, cfg: Config)
    requires Inv(s, cfg) && Genuine(s, sid, x, cfg) && EnteredOk(x, s.now, s.now, cfg)
    ensures Sound(s, AskStaff(s, r, sid, x, cfg), r, cfg)
  {
    var l := TC.LookupOf(s.cache, x.staffId, s.now);
    if l.Hit? {
      HitServed(s, x.staffId, cfg);
      DecideIsSound(s, r, sid, x, s.now, l.value, cfg);
    } else if l.Join? {
      assert l.id in s.loads && s.loads[l.id].staffId == x.staffId;
    }
    hide Inv, DecideStep, TC.Step;
  }

  lemma EnterIsSound(s: World, r: nat, sid: string, csrfOk: bool, cfg: Config)
    requires Inv(s, cfg)
    ensures Sound(s, EnterStep(s, r, sid, csrfOk, cfg), r, cfg)
  {
    var l := Look(s.sessions, sid, s.now, cfg);
    if l.Live? && l.session.mfaVerified {
      assert Genuine(s, sid, l.session, cfg);
      AskIsSound(s, r, sid, l.session, cfg);
    }
    hide AskStaff, Inv, Genuine;
  }

  /** What the other parts of the state see of a cache step. */
  lemma CacheFrame(c: TC.Cache<StaffRow>, a: TC.Action<StaffRow>)
    requires TC.Enabled(c, a)
    ensures var c' := TC.Step(c, a, STAFF_TTL_MS, STAFF_MAX); match a
      case Get(key, now) => TC.LookupOf(c, key, now).Load? ==>
        c'.log == c.log && c'.flights == c.flights[c.nextLoad := key] && c'.nextLoad == c.nextLoad + 1
      case Settle(id, value, now) =>
        c'.log == c.log + [TC.Settled(id, c.flights[id], value, now)] && c'.flights == c.flights && c'.nextLoad == c.nextLoad
      case Finally(id) => c'.log == c.log && c'.flights == c.flights - {id} && c'.nextLoad == c.nextLoad
      case Delete(_) => c'.log == c.log && c'.flights == c.flights && c'.nextLoad == c.nextLoad
      case Clear => true
  {
  }

  /** Loads, log and flights all keep their meaning. */
  ghost predicate LoadsAndLog(s: World) { LoadsOk(s) && LogOk(s) }

  /** Nothing that loads and log depend on has changed. */
  ghost predicate NoLoadMoved(s: World, s': World) {
    && s'.loads == s.loads && s'.cache.flights == s.cache.flights && s'.cache.log == s.cache.log
    && s'.cache.nextLoad == s.cache.nextLoad && s'.staff == s.staff && s'.now == s.now
  }

  lemma SameLoads(s: World, s': World)
    requires LoadsAndLog(s) && NoLoadMoved(s, s')
    ensures LoadsAndLog(s')
  {
    forall i | 0 <= i < |s'.cache.log| ensures SettledOk(s', s'.cache.log[i]) { assert SettledOk(s, s.cache.log[i]); }
    forall id | id in s'.loads ensures LoadOk(s', s'.loads[id]) { assert LoadOk(s, s.loads[id]); }
  }

  lemma NewLoad(s: World, s': World, staffId: string)
    requires LoadsAndLog(s)
    requires s'.loads == s.loads[s.cache.nextLoad := Load(staffId, s.now, None)] && s'.cache.log == s.cache.log
    requires s'.cache.flights == s.cache.flights[s.cache.nextLoad := staffId]
    requires s'.cache.nextLoad == s.cache.nextLoad + 1 && s'.staff == s.staff && s'.now == s.now
    ensures LoadsAndLog(s')
  {
    forall i | 0 <= i < |s'.cache.log| ensures SettledOk(s', s'.cache.log[i]) { assert SettledOk(s, s.cache.log[i]); }
    forall id | id in s'.loads ensures LoadOk(s', s'.loads[id]) {
      if id != s.cache.nextLoad { assert LoadOk(s, s.loads[id]); }
    }
  }

  lemma VerdictMovesNoLoad(s: World, r: nat, sid: string, x: Session, entered: int, row: StaffRow, cfg: Config)
    ensures NoLoadMoved(s, DecideStep(s, r, sid, x, entered, row, cfg))
  {
    CacheFrame(s.cache, TC.Delete(x.staffId));
    PersistMovesNoLoad(s, r, sid, x.(lastSeenAt := s.now), Some(|s.passed|), cfg);
    hide TC.Step, TtlMs, Persist, Admits;
  }

  lemma DecideKeepsLoads(s: World, r: nat, sid: string, x: Session, entered: int, row: StaffRow, cfg: Config)
    requires LoadsAndLog(s)
    ensures LoadsAndLog(DecideStep(s, r, sid, x, entered, row, cfg))
  {
    VerdictMovesNoLoad(s, r, sid, x, entered, row, cfg);
    hide DecideStep, LoadsAndLog;
    SameLoads(s, DecideStep(s, r, sid, x, entered, row, cfg));
  }

  lemma AskKeepsLoads(s: World, r: nat, sid: string, x: Session, cfg: Config)
    requires LoadsAndLog(s)
    ensures LoadsAndLog(AskStaff(s, r, sid, x, cfg))
  {
    var s' := AskStaff(s, r, sid, x, cfg);
    hide TC.Step, DecideStep, LoadsAndLog;
    match TC.LookupOf(s.cache, x.staffId, s.now)
    case Hit(row) => DecideKeepsLoads(s, r, sid, x, s.now, row, cfg);
    case Join(_) => SameLoads(s, s');
    case Load(_) => CacheFrame(s.cache, TC.Get(x.staffId, s.now)); NewLoad(s, s', x.staffId);
  }

  lemma EnterKeepsLoads(s: World, r: nat, sid: string, csrfOk: bool, cfg: Config)
    requires LoadsAndLog(s)
    ensures LoadsAndLog(EnterStep(s, r, sid, csrfOk, cfg))
  {
    hide AskStaff, LoadsAndLog;
    var l := Look(s.sessions, sid, s.now, cfg);
    if l.Live? && l.session.mfaVerified && csrfOk { AskKeepsLoads(s, r, sid, l.session, cfg); }
    else { SameLoads(s, EnterStep(s, r, sid, csrfOk, cfg)); }
  }

  lemma SettleKeepsLoads(s: World, id: nat, cfg: Config)
    requires LoadsAndLog(s) && Enabled(s, LoadSettles(id))
    ensures LoadsAndLog(Step(s, LoadSettles(id), cfg))
  {
    var s' := Step(s, LoadSettles(id), cfg);
    CacheFrame(s.cache, TC.Settle(id, s.loads[id].row.value, s.now));
    hide TC.Step, TC.Logged;
    forall i | 0 <= i < |s'.cache.log| ensures SettledOk(s', s'.cache.log[i]) {
      if i < |s.cache.log| { assert SettledOk(s, s.cache.log[i]); }
    }
    forall l | l in s'.loads ensures LoadOk(s', s'.loads[l]) { assert LoadOk(s, s.loads[l]); }
  }

  lemma EndKeepsLoads(s: World, id: nat, cfg: Config)
    requires LoadsAndLog(s) && Enabled(s, LoadEnds(id))
    ensures LoadsAndLog(Step(s, LoadEnds(id), cfg))
  {
    var s' := Step(s, LoadEnds(id), cfg);
    CacheFrame(s.cache, TC.Finally(id));
    hide TC.Step, Resume, TC.Logged;
    forall i | 0 <= i < |s'.cache.log| ensures SettledOk(s', s'.cache.log[i]) { assert SettledOk(s, s.cache.log[i]); }
    forall l | l in s'.loads ensures LoadOk(s', s'.loads[l]) { assert LoadOk(s, s.loads[l]); }
  }

  lemma StaffActionKeepsLoads(s: World, a: Action, cfg: Config)
    requires LoadsAndLog(s) && Enabled(s, a) && (a.Tick? || a.Hire? || a.Bump? || a.SetActive? || a.Read?)
    ensures LoadsAndLog(Step(s, a, cfg))
  {
    var s' := Step(s, a, cfg);
    hide EnterStep, DecideStep, LoadEndsStep, CacheStep;
    forall i | 0 <= i < |s'.cache.log| ensures SettledOk(s', s'.cache.log[i]) { assert SettledOk(s, s.cache.log[i]); }
    forall id | id in s'.loads ensures LoadOk(s', s'.loads[id]) { assert LoadOk(s, s.loads[id]); }
  }

  lemma PersistMovesNoLoad(s: World, r: nat, sid: string, x: Session, pass: Option<nat>, cfg: Config)
    ensures NoLoadMoved(s, Persist(s, r, sid, x, pass, cfg))
  {
    hide TtlMs;
  }

  lemma FetchMovesNoLoad(s: World, r: nat, sid: string, cfg: Config)
    ensures NoLoadMoved(s, FetchStep(s, r, sid, cfg))
  {
    hide Look;
  }

  lemma PlainMovesNoLoad(s: World, a: Action, cfg: Config)
    requires Enabled(s, a) && (a.Login? || a.Fetch? || a.Update? || a.Save? || a.Revoke? || a.SignOut?)
    ensures NoLoadMoved(s, Step(s, a, cfg))
  {
    hide EnterStep, DecideStep, LoadEndsStep, CacheStep, Persist, FetchStep, Minted, Quiet;
    match a
    case Login(r, sid, staffId, epoch, mfaVerified) =>
      PersistMovesNoLoad(s.(born := s.born[sid := Birth(staffId, epoch, s.now)]), r, sid,
        Minted(staffId, epoch, mfaVerified, s.now, cfg), None, cfg);
    case Update(r, mfaVerified) =>
      PersistMovesNoLoad(s, r, s.runs[r].sid, s.runs[r].session.(mfaVerified := mfaVerified), None, cfg);
    case Fetch(r, sid) => FetchMovesNoLoad(s, r, sid, cfg);
    case _ =>
  }

  lemma PlainKeepsLoads(s: World, a: Action, cfg: Config)
    requires LoadsAndLog(s) && Enabled(s, a)
    requires a.Login? || a.Fetch? || a.Update? || a.Save? || a.Revoke? || a.SignOut?
    ensures LoadsAndLog(Step(s, a, cfg))
  {
    PlainMovesNoLoad(s, a, cfg);
    hide Step, LoadsAndLog, NoLoadMoved, Enabled;
    SameLoads(s, Step(s, a, cfg));
  }

  lemma StepKeepsLoads(s: World, a: Action, cfg: Config)
    requires LoadsAndLog(s)
    ensures LoadsAndLog(Step(s, a, cfg))
  {
    hide LoadsAndLog;
    if !Enabled(s, a) { return; }
    match a
    case Enter(r, sid, csrfOk) => EnterKeepsLoads(s, r, sid, csrfOk, cfg); hide EnterStep;
    case Decide(r) =>
      DecideKeepsLoads(s, r, s.runs[r].sid, s.runs[r].session, s.runs[r].entered, s.runs[r].row, cfg);
      hide DecideStep;
    case LoadSettles(id) => SettleKeepsLoads(s, id, cfg); hide Step;
    case LoadEnds(id) => EndKeepsLoads(s, id, cfg); hide Step;
    case Login(_, _, _, _, _) => PlainKeepsLoads(s, a, cfg); hide Step;
    case Fetch(_, _) => PlainKeepsLoads(s, a, cfg); hide Step;
    case Update(_, _) => PlainKeepsLoads(s, a, cfg); hide Step;
    case Save(_, _) => PlainKeepsLoads(s, a, cfg); hide Step;
    case Revoke(_) => PlainKeepsLoads(s, a, cfg); hide Step;
    case SignOut(_) => PlainKeepsLoads(s, a, cfg); hide Step;
    case _ => StaffActionKeepsLoads(s, a, cfg); hide Step;
  }

  // ------------------------------------------------------------ runs, sessions and admissions

  /** Copies that a step left alone stay sound. */
  lemma OthersStay(s: World, s': World, moved: set<nat>, cfg: Config)
    requires Extends(s, s') && RunsOk(s, cfg) && PassesOk(s, cfg)
    requires s'.now == s.now || forall r :: r in s.runs ==> !s.runs[r].Resumed?
    requires forall r :: r in s'.runs && r !in moved ==> r in s.runs && s'.runs[r] == s.runs[r]
    requires forall r :: r in s'.runs && r in moved ==> RunOk(s', s'.runs[r], cfg)
    requires forall sid :: sid in s'.sessions ==>
      (sid in s.sessions && s'.sessions[sid] == s.sessions[sid]) || Genuine(s', sid, s'.sessions[sid].session, cfg)
    requires forall i :: |s.passed| <= i < |s'.passed| ==> PassOk(s', i, cfg)
    requires forall j :: |s.admitted| <= j < |s'.admitted| ==> AdmissionOk(s', s'.admitted[j])
    ensures RunsOk(s', cfg) && PassesOk(s', cfg)
  {
    hide Extends, RunOk, Genuine, PassOk;
    forall r | r in s'.runs ensures RunOk(s', s'.runs[r], cfg) {
      if r !in moved { RunStays(s, s', s.runs[r], cfg); }
    }
    forall sid | sid in s'.sessions ensures Genuine(s', sid, s'.sessions[sid].session, cfg) {
      if sid in s.sessions && s'.sessions[sid] == s.sessions[sid] { GenuineStays(s, s', sid, s.sessions[sid].session, cfg); }
    }
    forall i | 0 <= i < |s'.passed| ensures PassOk(s', i, cfg) {
      if i < |s.passed| { PassStays(s, s', i, cfg); }
    }
    forall j | 0 <= j < |s'.admitted| ensures AdmissionOk(s', s'.admitted[j]) {
      if j < |s.admitted| { AdmissionStays(s, s', j); }
    }
  }

  /** The runs, the stored sessions and the admissions. */
  ghost predicate Copies(s: World, cfg: Config) { RunsOk(s, cfg) && PassesOk(s, cfg) }

  /** Run `r` moved, and whatever was stored is genuine. */
  ghost predicate OneMoved(s: World, s': World, r: nat, cfg: Config) {
    && s'.now == s.now && r in s'.runs && s'.runs == s.runs[r := s'.runs[r]]
    && forall sid :: sid in s'.sessions ==>
        (sid in s.sessions && s'.sessions[sid] == s.sessions[sid]) || Genuine(s', sid, s'.sessions[sid].session, cfg)
  }

  lemma SoundKeepsCopies(s: World, s': World, r: nat, cfg: Config)
    requires Extends(s, s') && Copies(s, cfg) && Sound(s, s', r, cfg) && OneMoved(s, s', r, cfg)
    ensures Copies(s', cfg)
  {
    hide Extends, RunOk, Genuine, PassOk;
    OthersStay(s, s', {r}, cfg);
  }

  lemma DecideMovesOne(s: World, r: nat, sid: string, x: Session, entered: int, row: StaffRow, cfg: Config)
    ensures OneMoved(s, DecideStep(s, r, sid, x, entered, row, cfg), r, cfg)
  {
    hide TC.Step, Genuine, TtlMs;
  }

  lemma EnterMovesOne(s: World, r: nat, sid: string, csrfOk: bool, cfg: Config)
    ensures OneMoved(s, EnterStep(s, r, sid, csrfOk, cfg), r, cfg)
  {
    var l := Look(s.sessions, sid, s.now, cfg);
    if l.Live? {
      var hit := TC.LookupOf(s.cache, l.session.staffId, s.now);
      if hit.Hit? { DecideMovesOne(s, r, sid, l.session, s.now, hit.value, cfg); }
    }
    hide TC.Step, Genuine, DecideStep, Look, TC.LookupOf;
  }

  lemma DecideKeepsCopies(s: World, r: nat, cfg: Config)
    requires Inv(s, cfg) && Enabled(s, Decide(r))
    ensures Copies(Step(s, Decide(r), cfg), cfg)
  {
    var run := s.runs[r];
    assert RunOk(s, run, cfg);
    DecideExtends(s, r, run.sid, run.session, run.entered, run.row, cfg);
    DecideIsSound(s, r, run.sid, run.session, run.entered, run.row, cfg);
    DecideMovesOne(s, r, run.sid, run.session, run.entered, run.row, cfg);
    hide DecideStep, OneMoved, Sound, Extends, RunsOk, PassesOk, Quiet;
    SoundKeepsCopies(s, Step(s, Decide(r), cfg), r, cfg);
  }

  lemma EnterKeepsCopies(s: World, r: nat, sid: string, csrfOk: bool, cfg: Config)
    requires Inv(s, cfg) && Enabled(s, Enter(r, sid, csrfOk))
    ensures Copies(Step(s, Enter(r, sid, csrfOk), cfg), cfg)
  {
    EnterExtends(s, r, sid, csrfOk, cfg);
    EnterIsSound(s, r, sid, csrfOk, cfg);
    EnterMovesOne(s, r, sid, csrfOk, cfg);
    hide EnterStep, OneMoved, Sound, Extends, RunsOk, PassesOk, Quiet;
    SoundKeepsCopies(s, Step(s, Enter(r, sid, csrfOk), cfg), r, cfg);
  }

  /** A waiter goes on with the row its load found, at the moment the load settled. */
  lemma ResumedIsOk(s: World, s': World, id: nat, run: Run, run': Run, cfg: Config)
    requires LogOk(s) && RunOk(s, run, cfg) && Extends(s, s') && s'.now == s.now && id in s.loads && id in s.cache.flights
    requires run.Waiting? && run.load == id && TC.Logged(s.cache.log, id) && s.loads[id].row.Some?
    requires run' == Resumed(run.sid, run.session, run.entered, s.loads[id].row.value)
    ensures RunOk(s', run', cfg)
  {
    GenuineStays(s, s', run.sid, run.session, cfg);
    var i :| 0 <= i < |s.cache.log| && s.cache.log[i].id == id;
    assert SettledOk(s, s.cache.log[i]);
    assert Served(s.cache.log, run.session.staffId, run'.row, s.now);
    ServedStays(s.cache.log, s'.cache.log, run.session.staffId, run'.row, s.now);
  }

  lemma LoadEndsKeepsCopies(s: World, id: nat, cfg: Config)
    requires Inv(s, cfg) && Enabled(s, LoadEnds(id))
    ensures Copies(Step(s, LoadEnds(id), cfg), cfg)
  {
    var s' := Step(s, LoadEnds(id), cfg);
    StepExtends(s, LoadEnds(id), cfg);
    hide TC.Step, Extends, RunOk, Genuine, PassOk, PassesOk, LoadsOk, LogOk, TC.Valid, SettledOk;
    var moved := set r | r in s.runs && s'.runs[r] != s.runs[r];
    forall r | r in moved ensures RunOk(s', s'.runs[r], cfg) {
      if s'.runs[r].Resumed? { ResumedIsOk(s, s', id, s.runs[r], s'.runs[r], cfg); }
      else { EndedIsOk(s', cfg); }
    }
    OthersStay(s, s', moved, cfg);
  }

  lemma EndedIsOk(s: World, cfg: Config)
    ensures RunOk(s, Ended, cfg)
  {
  }

  lemma SettleKeepsCopies(s: World, id: nat, cfg: Config)
    requires Inv(s, cfg) && Enabled(s, LoadSettles(id))
    ensures Copies(Step(s, LoadSettles(id), cfg), cfg)
  {
    StepExtends(s, LoadSettles(id), cfg);
    hide Extends, TC.Step, RunOk, Genuine, PassOk;
    OthersStay(s, Step(s, LoadSettles(id), cfg), {}, cfg);
  }

  lemma ClockAndStaffKeepCopies(s: World, a: Action, cfg: Config)
    requires Inv(s, cfg) && Enabled(s, a) && (a.Tick? || a.Hire? || a.Bump? || a.SetActive? || a.Read? || a.SignOut?)
    ensures Copies(Step(s, a, cfg), cfg)
  {
    StepExtends(s, a, cfg);
    hide Extends, RunOk, Genuine, PassOk, CacheStep, EnterStep, DecideStep, LoadEndsStep;
    OthersStay(s, Step(s, a, cfg), {}, cfg);
  }

  lemma LoginIsSound(s: World, a: Action, cfg: Config)
    requires Enabled(s, a) && a.Login?
    ensures Sound(s, Step(s, a, cfg), a.r, cfg) && OneMoved(s, Step(s, a, cfg), a.r, cfg)
  {
    hide TtlMs;
  }

  lemma FetchIsSound(s: World, a: Action, cfg: Config)
    requires RunsOk(s, cfg) && Enabled(s, a) && a.Fetch?
    ensures Sound(s, Step(s, a, cfg), a.r, cfg) && OneMoved(s, Step(s, a, cfg), a.r, cfg)
  {
    var l := Look(s.sessions, a.sid, s.now, cfg);
    if l.Live? {
      assert Genuine(s, a.sid, l.session, cfg);
      GenuineStays(s, Step(s, a, cfg), a.sid, l.session, cfg);
    }
    hide Look, Genuine;
  }

  lemma UpdateIsSound(s: World, a: Action, cfg: Config)
    requires RunsOk(s, cfg) && Enabled(s, a) && a.Update?
    ensures Sound(s, Step(s, a, cfg), a.r, cfg) && OneMoved(s, Step(s, a, cfg), a.r, cfg)
  {
    assert RunOk(s, s.runs[a.r], cfg);
    assert Genuine(s, s.runs[a.r].sid, s.runs[a.r].session.(mfaVerified := a.mfaVerified), cfg);
    GenuineStays(s, Step(s, a, cfg), s.runs[a.r].sid, s.runs[a.r].session.(mfaVerified := a.mfaVerified), cfg);
    hide TtlMs, Genuine;
  }

  lemma SaveIsSound(s: World, r: nat, write: Write, cfg: Config)
    requires RunsOk(s, cfg) && PassesOk(s, cfg) && r in s.runs && s.runs[r].Saving?
    ensures var s' := SaveStep(s, r, s.runs[r], write); Sound(s, s', r, cfg) && OneMoved(s, s', r, cfg)
  {
    var run := s.runs[r];
    assert RunOk(s, run, cfg);
    GenuineStays(s, SaveStep(s, r, run, write), run.sid, run.session, cfg);
    if run.pass.Some? { assert PassOk(s, run.pass.value, cfg); }
    hide Genuine, PassOk;
  }

  lemma RevokeIsSound(s: World, r: nat, cfg: Config)
    requires r in s.runs && s.runs[r].Revoking?
    ensures var s' := Goto(s.(sessions := s.sessions - {s.runs[r].sid}), r, Ended); Sound(s, s', r, cfg) && OneMoved(s, s', r, cfg)
  {
    hide Genuine;
  }

  lemma SessionActionKeepsCopies(s: World, a: Action, cfg: Config)
    requires Inv(s, cfg) && Enabled(s, a) && (a.Login? || a.Fetch? || a.Update? || a.Save? || a.Revoke?)
    ensures Copies(Step(s, a, cfg), cfg)
  {
    StepExtends(s, a, cfg);
    match a {
      case Login(_, _, _, _, _) => LoginIsSound(s, a, cfg);
      case Fetch(_, _) => FetchIsSound(s, a, cfg);
      case Update(_, _) => UpdateIsSound(s, a, cfg);
      case Save(r, write) => SaveIsSound(s, r, write, cfg); hide SaveStep;
      case Revoke(r) => RevokeIsSound(s, r, cfg);
    }
    hide Step, OneMoved, Sound, Extends, RunsOk, PassesOk;
    SoundKeepsCopies(s, Step(s, a, cfg), a.r, cfg);
  }

  lemma StepKeepsCopies(s: World, a: Action, cfg: Config)
    requires Inv(s, cfg)
    ensures Copies(Step(s, a, cfg), cfg)
  {
    if !Enabled(s, a) { return; }
    assert Enabled(s, a);
    hide Inv, Copies, Step, Enabled;
    match a
    case Enter(r, sid, csrfOk) => EnterKeepsCopies(s, r, sid, csrfOk, cfg);
    case Decide(r) => DecideKeepsCopies(s, r, cfg);
    case LoadEnds(id) => LoadEndsKeepsCopies(s, id, cfg);
    case LoadSettles(id) => SettleKeepsCopies(s, id, cfg);
    case Login(_, _, _, _, _) => SessionActionKeepsCopies(s, a, cfg);
    case Fetch(_, _) => SessionActionKeepsCopies(s, a, cfg);
    case Update(_, _) => SessionActionKeepsCopies(s, a, cfg);
    case Save(_, _) => SessionActionKeepsCopies(s, a, cfg);
    case Revoke(_) => SessionActionKeepsCopies(s, a, cfg);
    case _ => ClockAndStaffKeepCopies(s, a, cfg);
  }

  /** The cache is only ever changed by its own steps. */
  ghost predicate CacheSound(s: World) { TC.Valid(s.cache, STAFF_TTL_MS, STAFF_MAX) }

  lemma CacheStepKeepsCache(s: World, a: TC.Action<StaffRow>)
    requires CacheSound(s)
    ensures CacheSound(CacheStep(s, a))
  {
    TC.StepKeepsValid(s.cache, a, STAFF_TTL_MS, STAFF_MAX);
    hide TC.Step, TC.Valid;
  }

  lemma DecideKeepsCache(s: World, r: nat, sid: string, x: Session, entered: int, row: StaffRow, cfg: Config)
    requires CacheSound(s)
    ensures CacheSound(DecideStep(s, r, sid, x, entered, row, cfg))
  {
    CacheStepKeepsCache(s, TC.Delete(x.staffId));
    hide TC.Step, TC.Valid, TtlMs;
  }

  lemma AskKeepsCache(s: World, r: nat, sid: string, x: Session, cfg: Config)
    requires CacheSound(s)
    ensures CacheSound(AskStaff(s, r, sid, x, cfg))
  {
    CacheStepKeepsCache(s, TC.Get(x.staffId, s.now));
    var l := TC.LookupOf(s.cache, x.staffId, s.now);
    if l.Hit? { DecideKeepsCache(s, r, sid, x, s.now, l.value, cfg); }
    hide TC.Step, TC.Valid, TC.LookupOf, DecideStep;
  }

  lemma EnterKeepsCache(s: World, r: nat, sid: string, csrfOk: bool, cfg: Config)
    requires CacheSound(s)
    ensures CacheSound(EnterStep(s, r, sid, csrfOk, cfg))
  {
    var l := Look(s.sessions, sid, s.now, cfg);
    if l.Live? { AskKeepsCache(s, r, sid, l.session, cfg); }
    hide TC.Valid, AskStaff, Look;
  }

  lemma StepKeepsCache(s: World, a: Action, cfg: Config)
    requires CacheSound(s)
    ensures CacheSound(Step(s, a, cfg))
  {
    if !Enabled(s, a) { return; }
    match a {
      case Enter(r, sid, csrfOk) => EnterKeepsCache(s, r, sid, csrfOk, cfg);
      case Decide(r) =>
        DecideKeepsCache(s, r, s.runs[r].sid, s.runs[r].session, s.runs[r].entered, s.runs[r].row, cfg);
      case LoadSettles(id) => CacheStepKeepsCache(s, TC.Settle(id, s.loads[id].row.value, s.now));
      case LoadEnds(id) => CacheStepKeepsCache(s, TC.Finally(id));
      case _ =>
    }
    hide TC.Step, TC.Valid, EnterStep, DecideStep, Resume, TC.Logged, Look, TtlMs, Quiet;
  }

  lemma StepKeepsInv(s: World, a: Action, cfg: Config)
    requires Inv(s, cfg)
    ensures Inv(Step(s, a, cfg), cfg)
  {
    StepKeepsCopies(s, a, cfg);
    StepKeepsLoads(s, a, cfg);
    StepKeepsCache(s, a, cfg);
    hide Step, TC.Valid, RunsOk, PassesOk, LoadsOk, LogOk, Enabled;
  }

  lemma {:induction false} ReachableInv(now: int, actions: seq<Action>, cfg: Config)
    ensures Inv(RunAll(now, actions, cfg), cfg)
  {
    StartInv(now, cfg);
    hide Inv, RunFrom;
    RunFromKeepsInv(Start(now), actions, cfg);
  }

  lemma StartInv(now: int, cfg: Config)
    ensures Inv(Start(now), cfg)
  {
    assert Start(now).runs == map[] && Start(now).loads == map[] && Start(now).passed == [] && Start(now).admitted == [];
    hide Step, RunFrom;
  }

  lemma {:induction false} RunFromKeepsInv(s: World, actions: seq<Action>, cfg: Config)
    requires Inv(s, cfg)
    ensures Inv(RunFrom(s, actions, cfg), cfg)
    decreases |actions|
  {
    if actions != [] {
      var init := actions[..|actions| - 1];
      RunFromKeepsInv(s, init, cfg);
      StepKeepsInv(RunFrom(s, init, cfg), actions[|actions| - 1], cfg);
      hide Inv, Step;
    }
  }

  // ------------------------------------------------------------ theorems about every run

  /** Whoever is let through with an epoch that was bumped away was judged by a staff row whose load
      began no later than the bump, and before that row went stale. This holds however often a record
      is re-saved after it was revoked. */
  lemma {:induction false} StaleEpochNeedsAnOldLoad(now: int, actions: seq<Action>, cfg: Config, j: nat)
    requires j < |RunAll(now, actions, cfg).admitted|
    ensures var s := RunAll(now, actions, cfg); var a := s.admitted[j];
      a.pass < |s.passed| && s.passed[a.pass].at <= a.at && JudgedByOldLoad(s, s.passed[a.pass])
  {
    var s := RunAll(now, actions, cfg);
    ReachableInv(now, actions, cfg);
    hide RunAll;
    assert AdmissionOk(s, s.admitted[j]);
    PassNeedsAnOldLoad(s, s.admitted[j].pass, cfg);
  }

  /** If the verdict's epoch has been bumped away, some load of the member began no later than that bump
      and settled less than the time to live before the verdict. */
  ghost predicate JudgedByOldLoad(s: World, p: Pass) {
    && p.staffId in s.staff
    && (p.epoch < |s.staff[p.staffId].bumps| ==>
          exists l :: l in s.cache.log && l.key == p.staffId && l.id in s.loads && s.loads[l.id].staffId == p.staffId
            && s.loads[l.id].began <= s.staff[p.staffId].bumps[p.epoch]
            && p.at < l.at + STAFF_TTL_MS)
  }

  lemma PassNeedsAnOldLoad(s: World, i: nat, cfg: Config)
    requires Inv(s, cfg) && i < |s.passed|
    ensures JudgedByOldLoad(s, s.passed[i])
  {
    var p := s.passed[i];
    assert PassOk(s, i, cfg);
    var k :| 0 <= k < |s.cache.log| && s.cache.log[k].key == p.staffId && s.cache.log[k].value == Found(true, p.epoch)
      && p.at < s.cache.log[k].at + STAFF_TTL_MS;
    assert SettledOk(s, s.cache.log[k]);
    assert LoadOk(s, s.loads[s.cache.log[k].id]);
  }

  /** So when no load of the member takes longer than `slowestLoad`, and no write of a `touch` longer
      than `slowestTouch`, every session of an older epoch is shut out both times plus the time to live
      after the bump. */
  lemma {:induction false} BumpShutsOut(now: int, actions: seq<Action>, cfg: Config, j: nat, slowestLoad: int, slowestTouch: int)
    requires j < |RunAll(now, actions, cfg).admitted|
    requires var s := RunAll(now, actions, cfg); forall l :: l in s.cache.log && l.id in s.loads ==> l.at - s.loads[l.id].began <= slowestLoad
    requires var s := RunAll(now, actions, cfg); var a := s.admitted[j]; a.pass < |s.passed| ==> a.at - s.passed[a.pass].at <= slowestTouch
    ensures var s := RunAll(now, actions, cfg); var a := s.admitted[j];
      a.pass < |s.passed| &&
      var p := s.passed[a.pass];
      && p.staffId in s.staff
      && (p.epoch < |s.staff[p.staffId].bumps| ==>
            a.at < s.staff[p.staffId].bumps[p.epoch] + slowestLoad + STAFF_TTL_MS + slowestTouch)
  {
    StaleEpochNeedsAnOldLoad(now, actions, cfg, j);
    hide RunAll;
  }

  /** If the member has been inactive since, some load of the member began no later than that and
      settled less than the time to live before the verdict. */
  ghost predicate JudgedBeforeTheSwitch(s: World, p: Pass) {
    && p.staffId in s.staff
    && (!s.staff[p.staffId].active ==>
          exists l :: l in s.cache.log && l.key == p.staffId && l.id in s.loads && s.loads[l.id].staffId == p.staffId
            && s.loads[l.id].began <= s.staff[p.staffId].since
            && p.at < l.at + STAFF_TTL_MS)
  }

  /** A deactivation is no faster than a bump: whoever is let through was judged by a row whose load
      began before it. */
  lemma {:induction false} InactiveNeedsAnOldLoad(now: int, actions: seq<Action>, cfg: Config, j: nat)
    requires j < |RunAll(now, actions, cfg).admitted|
    ensures var s := RunAll(now, actions, cfg); var a := s.admitted[j];
      a.pass < |s.passed| && s.passed[a.pass].at <= a.at && JudgedBeforeTheSwitch(s, s.passed[a.pass])
  {
    var s := RunAll(now, actions, cfg);
    ReachableInv(now, actions, cfg);
    hide RunAll;
    assert AdmissionOk(s, s.admitted[j]);
    var p := s.passed[s.admitted[j].pass];
    assert PassOk(s, s.admitted[j].pass, cfg);
    var k :| 0 <= k < |s.cache.log| && s.cache.log[k].key == p.staffId && s.cache.log[k].value == Found(true, p.epoch)
      && p.at < s.cache.log[k].at + STAFF_TTL_MS;
    assert SettledOk(s, s.cache.log[k]);
    assert LoadOk(s, s.loads[s.cache.log[k].id]);
  }

  /** So nobody who has been inactive for longer than the slowest load, the time to live and the slowest
      `touch` together was let through in the meantime. */
  lemma {:induction false} DeactivationShutsOut(now: int, actions: seq<Action>, cfg: Config, j: nat, slowestLoad: int, slowestTouch: int)
    requires j < |RunAll(now, actions, cfg).admitted|
    requires var s := RunAll(now, actions, cfg); forall l :: l in s.cache.log && l.id in s.loads ==> l.at - s.loads[l.id].began <= slowestLoad
    requires var s := RunAll(now, actions, cfg); var a := s.admitted[j]; a.pass < |s.passed| ==> a.at - s.passed[a.pass].at <= slowestTouch
    ensures var s := RunAll(now, actions, cfg); var a := s.admitted[j];
      a.pass < |s.passed| &&
      var p := s.passed[a.pass];
      && p.staffId in s.staff
      && (!s.staff[p.staffId].active ==> a.at < s.staff[p.staffId].since + slowestLoad + STAFF_TTL_MS + slowestTouch)
  {
    InactiveNeedsAnOldLoad(now, actions, cfg, j);
    hide RunAll;
  }

  /** A request let through was judged with the epoch and staff member its session was minted for,
      within the session's absolute lifetime, and came within the idle allowance after the sign-in or
      an earlier verdict in the session's favour. */
  lemma {:induction false} AdmittedWithinBothClocks(now: int, actions: seq<Action>, cfg: Config, j: nat)
    requires j < |RunAll(now, actions, cfg).admitted|
    ensures var s := RunAll(now, actions, cfg); var i := s.admitted[j].pass;
      i < |s.passed| &&
      var p := s.passed[i];
      && p.sid in s.born && s.born[p.sid].staffId == p.staffId && s.born[p.sid].epoch == p.epoch
      && p.at < s.born[p.sid].at + cfg.absoluteMs
      && (p.entered - s.born[p.sid].at <= cfg.idleMs
          || exists k :: 0 <= k < i && s.passed[k].sid == p.sid && p.entered - s.passed[k].at <= cfg.idleMs)
  {
    ReachableInv(now, actions, cfg);
    var s := RunAll(now, actions, cfg);
    hide RunAll;
    assert AdmissionOk(s, s.admitted[j]);
    var i := s.admitted[j].pass;
    assert PassOk(s, i, cfg);
    var p := s.passed[i];
    var seen :| SeenThen(s.born, s.passed, i, p.sid, seen) && p.entered - seen <= cfg.idleMs;
  }

  // ------------------------------------------------------------ who comes in

  /** At this position of the run the request came in: its CSRF token was right, and the session it named
      was live and had its second factor. */
  ghost predicate CameIn(now: int, actions: seq<Action>, cfg: Config, p: nat, r: nat, sid: string, x: Session, entered: int) {
    p < |actions| && actions[p] == Enter(r, sid, true) &&
    var before := RunAll(now, actions[..p], cfg);
    r !in before.runs && before.now == entered && Look(before.sessions, sid, entered, cfg) == Live(x) && x.mfaVerified
  }

  /** The run is past the guard's first checks. */
  predicate PastChecks(run: Run) { run.Waiting? || run.Resumed? }

  ghost predicate RunCameIn(now: int, actions: seq<Action>, cfg: Config, r: nat, run: Run) {
    PastChecks(run) ==> exists p :: CameIn(now, actions, cfg, p, r, run.sid, run.session, run.entered)
  }

  ghost predicate PassCameIn(now: int, actions: seq<Action>, cfg: Config, a: Pass) {
    exists p, x :: CameIn(now, actions, cfg, p, a.r, a.sid, x, a.entered) && x.staffId == a.staffId && x.epoch == a.epoch
  }

  lemma CameInStays(now: int, actions: seq<Action>, a: Action, cfg: Config, p: nat, r: nat, sid: string, x: Session, entered: int)
    requires CameIn(now, actions, cfg, p, r, sid, x, entered)
    ensures CameIn(now, actions + [a], cfg, p, r, sid, x, entered)
  {
    assert (actions + [a])[..p] == actions[..p] && (actions + [a])[p] == actions[p];
    hide RunAll;
  }

  /** The action lets this request in. */
  ghost predicate LetsIn(s: World, a: Action, r: nat, sid: string, x: Session, entered: int, cfg: Config) {
    a == Enter(r, sid, true) && r !in s.runs && s.now == entered && Look(s.sessions, sid, entered, cfg) == Live(x) && x.mfaVerified
  }

  lemma LetInCameIn(now: int, actions: seq<Action>, a: Action, cfg: Config, r: nat, sid: string, x: Session, entered: int)
    requires LetsIn(RunAll(now, actions, cfg), a, r, sid, x, entered, cfg)
    ensures CameIn(now, actions + [a], cfg, |actions|, r, sid, x, entered)
  {
    assert (actions + [a])[..|actions|] == actions;
    hide RunAll, Look;
  }

  /** A verdict in a request's favour goes to one that was past its checks, or is let in now. */
  ghost predicate FromChecked(s: World, a: Action, n: Pass, cfg: Config) {
    exists x: Session :: x.staffId == n.staffId && x.epoch == n.epoch &&
      ((n.r in s.runs && PastChecks(s.runs[n.r]) && s.runs[n.r].sid == n.sid && s.runs[n.r].session == x && s.runs[n.r].entered == n.entered)
       || LetsIn(s, a, n.r, n.sid, x, n.entered, cfg))
  }

  /** Nobody gets past the checks, or is judged favourably, who was not let in. */
  ghost predicate OnlyLetIn(s: World, a: Action, s': World, cfg: Config) {
    && (forall r :: r in s'.runs && PastChecks(s'.runs[r]) ==>
          var run := s'.runs[r];
          (r in s.runs && PastChecks(s.runs[r]) && s.runs[r].sid == run.sid && s.runs[r].session == run.session && s.runs[r].entered == run.entered)
          || LetsIn(s, a, r, run.sid, run.session, run.entered, cfg))
    && (s'.passed == s.passed || (|s'.passed| == |s.passed| + 1 && s.passed <= s'.passed && FromChecked(s, a, s'.passed[|s.passed|], cfg)))
  }

  lemma DecideLetsNobodyIn(s: World, a: Action, r: nat, sid: string, x: Session, entered: int, row: StaffRow, cfg: Config)
    requires (r in s.runs && PastChecks(s.runs[r]) && s.runs[r].sid == sid && s.runs[r].session == x && s.runs[r].entered == entered)
      || LetsIn(s, a, r, sid, x, entered, cfg)
    ensures OnlyLetIn(s, a, DecideStep(s, r, sid, x, entered, row, cfg), cfg)
  {
    var s' := DecideStep(s, r, sid, x, entered, row, cfg);
    VerdictTells(s, r, sid, x, entered, row, cfg);
    hide DecideStep, Look, LetsIn, PastChecks;
    if s'.passed != s.passed { assert FromChecked(s, a, Pass(r, sid, x.staffId, x.epoch, entered, s.now), cfg); }
  }

  lemma VerdictTells(s: World, r: nat, sid: string, x: Session, entered: int, row: StaffRow, cfg: Config)
    ensures var s' := DecideStep(s, r, sid, x, entered, row, cfg);
      && r in s'.runs && s'.runs == s.runs[r := s'.runs[r]] && !PastChecks(s'.runs[r])
      && (s'.passed == s.passed || s'.passed == s.passed + [Pass(r, sid, x.staffId, x.epoch, entered, s.now)])
  {
    PersistAside(s, r, sid, x.(lastSeenAt := s.now), Some(|s.passed|), cfg);
    hide TC.Step, TtlMs, Persist, Admits;
  }

  lemma EnterLetsIn(s: World, r: nat, sid: string, csrfOk: bool, cfg: Config)
    requires r !in s.runs
    ensures OnlyLetIn(s, Enter(r, sid, csrfOk), EnterStep(s, r, sid, csrfOk, cfg), cfg)
  {
    var a, l := Enter(r, sid, csrfOk), Look(s.sessions, sid, s.now, cfg);
    if l.Live? && l.session.mfaVerified && csrfOk {
      assert LetsIn(s, a, r, sid, l.session, s.now, cfg);
      var hit := TC.LookupOf(s.cache, l.session.staffId, s.now);
      if hit.Hit? { DecideLetsNobodyIn(s, a, r, sid, l.session, s.now, hit.value, cfg); }
      hide OnlyLetIn;
      if !hit.Hit? { WaitLetsIn(s, a, r, sid, l.session, cfg); }
    } else {
      assert EnterStep(s, r, sid, csrfOk, cfg).passed == s.passed;
    }
  }

  lemma WaitLetsIn(s: World, a: Action, r: nat, sid: string, x: Session, cfg: Config)
    requires LetsIn(s, a, r, sid, x, s.now, cfg) && !TC.LookupOf(s.cache, x.staffId, s.now).Hit?
    ensures OnlyLetIn(s, a, AskStaff(s, r, sid, x, cfg), cfg)
  {
    hide TC.Step, Look;
  }

  lemma StepLetsIn(s: World, a: Action, cfg: Config)
    ensures OnlyLetIn(s, a, Step(s, a, cfg), cfg)
  {
    if !Enabled(s, a) { return; }
    match a
    case Enter(r, sid, csrfOk) => EnterLetsIn(s, r, sid, csrfOk, cfg); hide EnterStep, OnlyLetIn, Quiet;
    case Decide(r) =>
      DecideLetsNobodyIn(s, a, r, s.runs[r].sid, s.runs[r].session, s.runs[r].entered, s.runs[r].row, cfg);
      hide DecideStep, OnlyLetIn;
    case LoadEnds(_) => hide TC.Step, TC.Logged, Look;
    case LoadSettles(_) => hide TC.Step, TC.Logged, Look;
    case _ => OthersLetNobodyIn(s, a, cfg); hide Step, OnlyLetIn;
  }

  /** One run moved, not past the checks, and no verdict was added. */
  ghost predicate OneAside(s: World, s': World, r: nat) {
    r in s'.runs && s'.runs == s.runs[r := s'.runs[r]] && !PastChecks(s'.runs[r]) && s'.passed == s.passed
  }

  lemma AsideLetsNobodyIn(s: World, a: Action, s': World, r: nat, cfg: Config)
    requires OneAside(s, s', r) || (s'.runs == s.runs && s'.passed == s.passed)
    ensures OnlyLetIn(s, a, s', cfg)
  {
    hide LetsIn;
  }

  lemma PersistAside(s: World, r: nat, sid: string, x: Session, pass: Option<nat>, cfg: Config)
    ensures OneAside(s, Persist(s, r, sid, x, pass, cfg), r)
  {
    hide TtlMs;
  }

  lemma FetchAside(s: World, r: nat, sid: string, cfg: Config)
    ensures OneAside(s, FetchStep(s, r, sid, cfg), r)
  {
    hide Look;
  }

  lemma OthersLetNobodyIn(s: World, a: Action, cfg: Config)
    requires Enabled(s, a) && !a.Enter? && !a.Decide? && !a.LoadEnds? && !a.LoadSettles?
    ensures OnlyLetIn(s, a, Step(s, a, cfg), cfg)
  {
    hide EnterStep, DecideStep, LoadEndsStep, CacheStep, Quiet, Persist, FetchStep, Minted, OnlyLetIn;
    var r := if a.Login? || a.Fetch? || a.Update? || a.Save? || a.Revoke? then a.r else 0;
    match a {
      case Login(_, sid, staffId, epoch, mfaVerified) =>
        PersistAside(s.(born := s.born[sid := Birth(staffId, epoch, s.now)]), r, sid, Minted(staffId, epoch, mfaVerified, s.now, cfg), None, cfg);
      case Update(_, mfaVerified) => PersistAside(s, r, s.runs[r].sid, s.runs[r].session.(mfaVerified := mfaVerified), None, cfg);
      case Fetch(_, sid) => FetchAside(s, r, sid, cfg);
      case _ =>
    }
    AsideLetsNobodyIn(s, a, Step(s, a, cfg), r, cfg);
  }

  /** Over every run: a request that waits for a staff row, or goes on with one, and every verdict in a
      request's favour, belong to a request that entered with the right CSRF token on a session that was
      live and had its second factor at that moment. */
  lemma {:induction false} EveryoneCameIn(now: int, actions: seq<Action>, cfg: Config)
    ensures var s := RunAll(now, actions, cfg);
      && (forall r :: r in s.runs ==> RunCameIn(now, actions, cfg, r, s.runs[r]))
      && (forall i :: 0 <= i < |s.passed| ==> PassCameIn(now, actions, cfg, s.passed[i]))
    decreases |actions|
  {
    if actions == [] {
      assert RunAll(now, actions, cfg) == Start(now);
    } else {
      var init, a := actions[..|actions| - 1], actions[|actions| - 1];
      assert actions == init + [a];
      EveryoneCameIn(now, init, cfg);
      var s := RunAll(now, init, cfg);
      StepLetsIn(s, a, cfg);
      assert RunAll(now, actions, cfg) == Step(s, a, cfg) by { hide Step; }
      hide Step, CameIn, LetsIn, PastChecks;
      CarriesOver(now, init, a, s, Step(s, a, cfg), cfg);
    }
  }

  lemma CarriesOver(now: int, init: seq<Action>, a: Action, s: World, s': World, cfg: Config)
    requires s == RunAll(now, init, cfg) && OnlyLetIn(s, a, s', cfg)
    requires forall r :: r in s.runs ==> RunCameIn(now, init, cfg, r, s.runs[r])
    requires forall i :: 0 <= i < |s.passed| ==> PassCameIn(now, init, cfg, s.passed[i])
    ensures forall r :: r in s'.runs ==> RunCameIn(now, init + [a], cfg, r, s'.runs[r])
    ensures forall i :: 0 <= i < |s'.passed| ==> PassCameIn(now, init + [a], cfg, s'.passed[i])
  {
    hide RunAll, CameIn, LetsIn;
    forall r | r in s'.runs ensures RunCameIn(now, init + [a], cfg, r, s'.runs[r]) {
      var run := s'.runs[r];
      if PastChecks(run) {
        if LetsIn(s, a, r, run.sid, run.session, run.entered, cfg) {
          LetInCameIn(now, init, a, cfg, r, run.sid, run.session, run.entered);
        } else {
          assert RunCameIn(now, init, cfg, r, s.runs[r]);
          var p :| CameIn(now, init, cfg, p, r, run.sid, run.session, run.entered);
          CameInStays(now, init, a, cfg, p, r, run.sid, run.session, run.entered);
        }
      }
    }
    forall i | 0 <= i < |s'.passed| ensures PassCameIn(now, init + [a], cfg, s'.passed[i]) {
      var n := s'.passed[i];
      if i < |s.passed| {
        assert n == s.passed[i];
        var p, x :| CameIn(now, init, cfg, p, n.r, n.sid, x, n.entered) && x.staffId == n.staffId && x.epoch == n.epoch;
        CameInStays(now, init, a, cfg, p, n.r, n.sid, x, n.entered);
      } else {
        NewPassCameIn(now, init, a, s, n, cfg);
      }
    }
  }

  lemma NewPassCameIn(now: int, init: seq<Action>, a: Action, s: World, n: Pass, cfg: Config)
    requires s == RunAll(now, init, cfg) && FromChecked(s, a, n, cfg)
    requires forall r :: r in s.runs ==> RunCameIn(now, init, cfg, r, s.runs[r])
    ensures PassCameIn(now, init + [a], cfg, n)
  {
    hide RunAll, CameIn, LetsIn;
    var x: Session :| x.staffId == n.staffId && x.epoch == n.epoch &&
      ((n.r in s.runs && PastChecks(s.runs[n.r]) && s.runs[n.r].sid == n.sid && s.runs[n.r].session == x && s.runs[n.r].entered == n.entered)
       || LetsIn(s, a, n.r, n.sid, x, n.entered, cfg));
    if LetsIn(s, a, n.r, n.sid, x, n.entered, cfg) {
      LetInCameIn(now, init, a, cfg, n.r, n.sid, x, n.entered);
    } else {
      assert RunCameIn(now, init, cfg, n.r, s.runs[n.r]);
      var p :| CameIn(now, init, cfg, p, n.r, n.sid, x, n.entered);
      CameInStays(now, init, a, cfg, p, n.r, n.sid, x, n.entered);
    }
  }

  /** So everyone let through came in with the right CSRF token, a live session and a second factor. */
  lemma {:induction false} AdmittedCameIn(now: int, actions: seq<Action>, cfg: Config, j: nat)
    requires j < |RunAll(now, actions, cfg).admitted|
    ensures var s := RunAll(now, actions, cfg); var i := s.admitted[j].pass;
      i < |s.passed| && PassCameIn(now, actions, cfg, s.passed[i])
  {
    EveryoneCameIn(now, actions, cfg);
    ReachableInv(now, actions, cfg);
    var s := RunAll(now, actions, cfg);
    hide RunAll, PassCameIn;
    assert AdmissionOk(s, s.admitted[j]);
  }

  /** A request with a bad token ends there, or with the revocation of a session that had expired, and
      nothing else changes; and so does one whose session lacks its second factor. */
  lemma {:induction false} BadTokenEnds(s: World, r: nat, sid: string, csrfOk: bool, cfg: Config)
    requires r !in s.runs
    requires !csrfOk || !Look(s.sessions, sid, s.now, cfg).Live? || !Look(s.sessions, sid, s.now, cfg).session.mfaVerified
    ensures Step(s, Enter(r, sid, csrfOk), cfg) ==
      s.(runs := s.runs[r := if Look(s.sessions, sid, s.now, cfg).Expired? then Revoking(sid) else Ended])
  {
    hide AskStaff, Look, Quiet, DecideStep, LoadEndsStep, SaveStep, FetchStep;
  }

  /** And it is never judged in its favour, in any continuation. */
  lemma {:induction false} BadTokenNeverPasses(now: int, actions: seq<Action>, cfg: Config, p: nat, r: nat, sid: string, i: nat)
    requires p < |actions| && actions[p] == Enter(r, sid, false) && r !in RunAll(now, actions[..p], cfg).runs
    requires i < |RunAll(now, actions, cfg).passed|
    ensures RunAll(now, actions, cfg).passed[i].r != r
  {
    EveryoneCameIn(now, actions, cfg);
    var n := RunAll(now, actions, cfg).passed[i];
    var q, x :| CameIn(now, actions, cfg, q, n.r, n.sid, x, n.entered) && x.staffId == n.staffId && x.epoch == n.epoch;
    if n.r == r {
      EntersOnce(now, actions, cfg, r, p, q);
      EntersOnce(now, actions, cfg, r, q, p);
    }
  }

  /** A request number enters once. */
  lemma EntersOnce(now: int, actions: seq<Action>, cfg: Config, r: nat, p: nat, q: nat)
    requires p < |actions| && q < |actions| && actions[p].Enter? && actions[q].Enter? && actions[p].r == r && actions[q].r == r
    requires r !in RunAll(now, actions[..p], cfg).runs && r !in RunAll(now, actions[..q], cfg).runs
    ensures !(p < q)
  {
    if p < q {
      hide Step, RunAll;
      LastStep(now, actions, cfg, p + 1);
      EnteredIsThere(RunAll(now, actions[..p], cfg), actions[p], cfg);
      RunStaysThere(now, actions, cfg, r, p + 1, q);
    }
  }

  lemma EnteredIsThere(s: World, a: Action, cfg: Config)
    requires a.Enter?
    ensures a.r in Step(s, a, cfg).runs
  {
    EnterMovesOne(s, a.r, a.sid, a.csrfOk, cfg);
    hide EnterStep;
  }

  lemma {:induction false} RunStaysThere(now: int, actions: seq<Action>, cfg: Config, r: nat, p: nat, q: nat)
    requires p <= q <= |actions| && r in RunAll(now, actions[..p], cfg).runs
    ensures r in RunAll(now, actions[..q], cfg).runs
    decreases q
  {
    if p < q {
      hide Step, RunAll;
      RunStaysThere(now, actions, cfg, r, p, q - 1);
      LastStep(now, actions, cfg, q);
      NoRunLost(RunAll(now, actions[..q - 1], cfg), actions[q - 1], r, cfg);
    }
  }

  lemma LastStep(now: int, actions: seq<Action>, cfg: Config, q: nat)
    requires 0 < q <= |actions|
    ensures RunAll(now, actions[..q], cfg) == Step(RunAll(now, actions[..q - 1], cfg), actions[q - 1], cfg)
  {
    hide Step;
    assert actions[..q][..q - 1] == actions[..q - 1];
  }

  lemma NoRunLost(s: World, a: Action, r: nat, cfg: Config)
    requires r in s.runs
    ensures r in Step(s, a, cfg).runs
  {
    if !Enabled(s, a) { return; }
    match a
    case Enter(q, sid, csrfOk) => EnterMovesOne(s, q, sid, csrfOk, cfg); hide EnterStep, Quiet, Genuine;
    case Decide(q) =>
      VerdictTells(s, q, s.runs[q].sid, s.runs[q].session, s.runs[q].entered, s.runs[q].row, cfg);
      hide DecideStep;
    case LoadEnds(_) => hide TC.Step, TC.Logged;
    case _ => hide EnterStep, DecideStep, LoadEndsStep, CacheStep, Look, TtlMs, Quiet;
  }

  // ------------------------------------------------------------ who has a second factor

  predicate Carries(run: Run, sid: string) {
    (run.Waiting? || run.Resumed? || run.Holding? || run.Saving?) && run.sid == sid && run.session.mfaVerified
  }

  /** Some copy of the session says that its second factor was verified. */
  ghost predicate HasFactor(s: World, sid: string) {
    (sid in s.sessions && s.sessions[sid].session.mfaVerified) || exists r :: r in s.runs && Carries(s.runs[r], sid)
  }

  /** The action verifies the second factor of the session: it signs in with it, or updates a copy. */
  ghost predicate Verifies(s: World, a: Action, sid: string) {
    (a.Login? && a.sid == sid && a.mfaVerified)
    || (a.Update? && a.mfaVerified && a.r in s.runs && s.runs[a.r].Holding? && s.runs[a.r].sid == sid)
  }

  /** Each copy of the new state was there, says no more than a stored one did, or has just been verified. */
  ghost predicate FactorsWere(s: World, s': World, a: Action) {
    && (forall r, sid :: r in s'.runs && Carries(s'.runs[r], sid) ==> HasFactor(s, sid) || Verifies(s, a, sid))
    && (forall sid :: sid in s'.sessions && s'.sessions[sid].session.mfaVerified ==> HasFactor(s, sid) || Verifies(s, a, sid))
  }

  /** One run moved; what it carries now was carried or stored before, or has just been verified. */
  lemma OneFactorMoved(s: World, s': World, a: Action, r: nat)
    requires r in s'.runs && s'.runs == s.runs[r := s'.runs[r]]
    requires forall sid :: Carries(s'.runs[r], sid) ==> HasFactor(s, sid) || Verifies(s, a, sid)
    requires forall sid :: sid in s'.sessions ==>
      (sid in s.sessions && s'.sessions[sid] == s.sessions[sid]) || (s'.sessions[sid].session.mfaVerified ==> HasFactor(s, sid))
    ensures FactorsWere(s, s', a)
  {
    hide Carries, Verifies;
  }

  lemma VerdictCarries(s: World, r: nat, sid: string, x: Session, entered: int, row: StaffRow, cfg: Config)
    ensures var s' := DecideStep(s, r, sid, x, entered, row, cfg);
      && r in s'.runs && s'.runs == s.runs[r := s'.runs[r]] && s'.sessions == s.sessions
      && forall k :: Carries(s'.runs[r], k) ==> k == sid && x.mfaVerified
  {
    PersistCarries(s, r, sid, x.(lastSeenAt := s.now), Some(|s.passed|), cfg);
    hide TC.Step, Persist, TtlMs, Carries, Admits;
    RevokingCarriesNothing(sid);
  }

  lemma RevokingCarriesNothing(sid: string)
    ensures forall k :: !Carries(Revoking(sid), k)
  {
  }

  lemma DecideKeepsFactors(s: World, a: Action, r: nat, sid: string, x: Session, entered: int, row: StaffRow, cfg: Config)
    requires x.mfaVerified ==> HasFactor(s, sid)
    ensures FactorsWere(s, DecideStep(s, r, sid, x, entered, row, cfg), a)
  {
    hide DecideStep, HasFactor, Verifies, Carries, FactorsWere;
    VerdictCarries(s, r, sid, x, entered, row, cfg);
    CopyMoved(s, DecideStep(s, r, sid, x, entered, row, cfg), a, r, sid, x);
  }

  lemma OverCarriesNothing(s: World, s': World, a: Action, r: nat)
    requires r in s'.runs && s'.runs == s.runs[r := s'.runs[r]] && (s'.runs[r].Ended? || s'.runs[r].Revoking?) && s'.sessions == s.sessions
    ensures FactorsWere(s, s', a)
  {
    hide HasFactor, Verifies;
    OneFactorMoved(s, s', a, r);
  }

  /** The run that moved carries at most a copy of a session that had its factor already. */
  lemma CopyMoved(s: World, s': World, a: Action, r: nat, sid: string, x: Session)
    requires r in s'.runs && s'.runs == s.runs[r := s'.runs[r]] && s'.sessions == s.sessions
    requires forall k :: Carries(s'.runs[r], k) ==> k == sid && x.mfaVerified
    requires x.mfaVerified ==> HasFactor(s, sid)
    ensures FactorsWere(s, s', a)
  {
    hide HasFactor, Verifies, Carries;
    OneFactorMoved(s, s', a, r);
  }

  lemma WaitCarries(s: World, r: nat, sid: string, x: Session, cfg: Config)
    requires !TC.LookupOf(s.cache, x.staffId, s.now).Hit?
    ensures var s' := AskStaff(s, r, sid, x, cfg);
      && r in s'.runs && s'.runs == s.runs[r := s'.runs[r]] && s'.sessions == s.sessions
      && forall k :: Carries(s'.runs[r], k) ==> k == sid && x.mfaVerified
  {
    hide TC.Step, TC.LookupOf;
  }

  lemma AskKeepsFactors(s: World, a: Action, r: nat, sid: string, x: Session, cfg: Config)
    requires x.mfaVerified ==> HasFactor(s, sid)
    ensures FactorsWere(s, AskStaff(s, r, sid, x, cfg), a)
  {
    hide HasFactor, Verifies, Carries, FactorsWere, DecideStep, TC.LookupOf, TC.Step;
    var hit := TC.LookupOf(s.cache, x.staffId, s.now);
    if hit.Hit? {
      DecideKeepsFactors(s, a, r, sid, x, s.now, hit.value, cfg);
    } else {
      WaitCarries(s, r, sid, x, cfg);
      hide AskStaff;
      CopyMoved(s, AskStaff(s, r, sid, x, cfg), a, r, sid, x);
    }
  }

  lemma EnterKeepsFactors(s: World, r: nat, sid: string, csrfOk: bool, cfg: Config)
    ensures FactorsWere(s, EnterStep(s, r, sid, csrfOk, cfg), Enter(r, sid, csrfOk))
  {
    var a, s' := Enter(r, sid, csrfOk), EnterStep(s, r, sid, csrfOk, cfg);
    var l := Look(s.sessions, sid, s.now, cfg);
    assert l.Live? && l.session.mfaVerified ==> HasFactor(s, sid);
    hide AskStaff, Look, HasFactor, Verifies, FactorsWere;
    if l.Live? && l.session.mfaVerified && csrfOk { AskKeepsFactors(s, a, r, sid, l.session, cfg); }
    else { hide Carries; OverCarriesNothing(s, s', a, r); }
  }

  lemma PersistCarries(s: World, r: nat, sid: string, x: Session, pass: Option<nat>, cfg: Config)
    ensures var s' := Persist(s, r, sid, x, pass, cfg);
      && r in s'.runs && s'.runs == s.runs[r := s'.runs[r]] && s'.sessions == s.sessions
      && forall k :: Carries(s'.runs[r], k) ==> k == sid && x.mfaVerified
  {
    hide TtlMs;
  }

  lemma FetchKeepsFactors(s: World, r: nat, sid: string, cfg: Config)
    ensures FactorsWere(s, FetchStep(s, r, sid, cfg), Fetch(r, sid))
  {
    var s' := FetchStep(s, r, sid, cfg);
    assert forall k :: Carries(s'.runs[r], k) ==> HasFactor(s, k);
    hide Look, HasFactor, Verifies;
    OneFactorMoved(s, s', Fetch(r, sid), r);
  }

  lemma SaveKeepsFactors(s: World, r: nat, write: Write)
    requires r in s.runs && s.runs[r].Saving?
    ensures FactorsWere(s, SaveStep(s, r, s.runs[r], write), Save(r, write))
  {
    assert s.runs[r].session.mfaVerified ==> Carries(s.runs[r], s.runs[r].sid);
    hide Verifies;
    OneFactorMoved(s, SaveStep(s, r, s.runs[r], write), Save(r, write), r);
  }

  /** Waiters go on with the same copies. */
  lemma LoadEndsKeepsFactors(s: World, a: Action, id: nat)
    requires id in s.loads
    ensures FactorsWere(s, LoadEndsStep(s, id), a)
  {
    var s' := LoadEndsStep(s, id);
    hide TC.Step, TC.Logged, Verifies;
    forall r, sid | r in s'.runs && Carries(s'.runs[r], sid) ensures HasFactor(s, sid) { assert Carries(s.runs[r], sid); }
  }

  lemma NothingCarried(s: World, s': World, a: Action)
    requires s'.runs == s.runs && forall sid :: sid in s'.sessions ==> sid in s.sessions && s'.sessions[sid] == s.sessions[sid]
    ensures FactorsWere(s, s', a)
  {
    hide Carries, Verifies;
  }

  lemma StepKeepsFactors(s: World, a: Action, cfg: Config)
    ensures FactorsWere(s, Step(s, a, cfg), a)
  {
    hide FactorsWere, Quiet;
    if !Enabled(s, a) { NothingCarried(s, s, a); return; }
    match a
    case Enter(r, sid, csrfOk) => EnterKeepsFactors(s, r, sid, csrfOk, cfg); hide EnterStep;
    case Decide(r) =>
      assert s.runs[r].session.mfaVerified ==> Carries(s.runs[r], s.runs[r].sid);
      DecideKeepsFactors(s, a, r, s.runs[r].sid, s.runs[r].session, s.runs[r].entered, s.runs[r].row, cfg);
      hide DecideStep;
    case Fetch(r, sid) => FetchKeepsFactors(s, r, sid, cfg); hide FetchStep;
    case Save(r, write) => SaveKeepsFactors(s, r, write); hide SaveStep;
    case LoadEnds(id) => LoadEndsKeepsFactors(s, a, id); hide LoadEndsStep;
    case Login(_, _, _, _, _) => SignInKeepsFactors(s, a, cfg); hide Step;
    case Update(_, _) => UpdateKeepsFactors(s, a, cfg); hide Step;
    case Revoke(r) => hide Verifies, Carries; OneFactorMoved(s, Step(s, a, cfg), a, r);
    case _ => hide EnterStep, DecideStep, LoadEndsStep, Persist, SaveStep, FetchStep, CacheStep; NothingCarried(s, Step(s, a, cfg), a);
  }

  lemma SignInKeepsFactors(s: World, a: Action, cfg: Config)
    requires Enabled(s, a) && a.Login?
    ensures FactorsWere(s, Step(s, a, cfg), a)
  {
    var x := Minted(a.staffId, a.epoch, a.mfaVerified, s.now, cfg);
    PersistCarries(s.(born := s.born[a.sid := Birth(a.staffId, a.epoch, s.now)]), a.r, a.sid, x, None, cfg);
    assert x.mfaVerified == a.mfaVerified;
    hide EnterStep, DecideStep, LoadEndsStep, Persist, SaveStep, FetchStep, CacheStep, HasFactor, Minted, Carries;
    OneFactorMoved(s, Step(s, a, cfg), a, a.r);
  }

  lemma UpdateKeepsFactors(s: World, a: Action, cfg: Config)
    requires Enabled(s, a) && a.Update?
    ensures FactorsWere(s, Step(s, a, cfg), a)
  {
    PersistCarries(s, a.r, s.runs[a.r].sid, s.runs[a.r].session.(mfaVerified := a.mfaVerified), None, cfg);
    hide EnterStep, DecideStep, LoadEndsStep, Persist, SaveStep, FetchStep, CacheStep, HasFactor, Carries;
    OneFactorMoved(s, Step(s, a, cfg), a, a.r);
  }

  /** How an action verifies it: a live copy is fetched, marked and stored again, and is then found with its
      second factor and otherwise as it was. */
  lemma {:induction false} SecondFactorIsUpdated(s: World, r: nat, sid: string, x: Session, cfg: Config)
    requires r !in s.runs && Look(s.sessions, sid, s.now, cfg) == Live(x) && x.absoluteExpiresAt > s.now && cfg.idleMs > 0
    requires s.now - x.lastSeenAt <= cfg.idleMs
    ensures var fetched := Step(s, Fetch(r, sid), cfg);
      var saved := Step(Step(fetched, Update(r, true), cfg), Save(r, Committed), cfg);
      && r in fetched.runs && fetched.runs[r] == Holding(sid, x)
      && Look(saved.sessions, sid, saved.now, cfg) == Live(x.(mfaVerified := true)) && saved.passed == s.passed
  {
    hide EnterStep, DecideStep, LoadEndsStep, CacheStep, Quiet;
    var fetched := Step(s, Fetch(r, sid), cfg);
    assert fetched == Goto(s, r, Holding(sid, x)) by { hide SaveStep, Persist; }
    var y := x.(mfaVerified := true);
    var updated := Step(fetched, Update(r, true), cfg);
    assert updated == Goto(s, r, Saving(sid, y, TtlMs(y, s.now, cfg), None)) by { hide SaveStep, FetchStep; }
    assert Step(updated, Save(r, Committed), cfg) == SaveStep(updated, r, updated.runs[r], Committed) by { hide FetchStep, Persist, SaveStep; }
  }

  /** Over every run: no copy of a session, stored or held, says that its second factor was verified
      unless some action of the run verified it. */
  lemma {:induction false} FactorWasVerified(now: int, actions: seq<Action>, cfg: Config, sid: string)
    requires HasFactor(RunAll(now, actions, cfg), sid)
    ensures exists p :: 0 <= p < |actions| && Verifies(RunAll(now, actions[..p], cfg), actions[p], sid)
    decreases |actions|
  {
    if actions != [] {
      var n := |actions| - 1;
      var s := RunAll(now, actions[..n], cfg);
      StepKeepsFactors(s, actions[n], cfg);
      assert actions[..|actions|] == actions;
      LastStep(now, actions, cfg, |actions|);
      hide Step, RunAll, Carries, Verifies;
      if !Verifies(s, actions[n], sid) {
        FactorWasVerified(now, actions[..n], cfg, sid);
        var p :| 0 <= p < n && Verifies(RunAll(now, actions[..n][..p], cfg), actions[..n][p], sid);
        assert actions[..n][..p] == actions[..p];
      }
    }
  }

  // ------------------------------------------------------------ the guard

  /** Asking for a key that is cached, or being loaded, leaves the cache as it is. */
  lemma GetOnlyStartsLoads(c: TC.Cache<StaffRow>, key: string, now: int)
    ensures !TC.LookupOf(c, key, now).Load? ==> TC.Step(c, TC.Get(key, now), STAFF_TTL_MS, STAFF_MAX) == c
  {
  }

  /** A bad token, a session that is not live, or one without its second factor is turned away at once. */
  ghost predicate AtTheDoor(l: Looked, csrfOk: bool, before: map<nat, Run>, after: map<nat, Run>,
                            passes: seq<Pass>, passes': seq<Pass>, r: nat, sid: string) {
    !csrfOk || !l.Live? || !l.session.mfaVerified ==>
      passes' == passes && after == before[r := if l.Expired? then Revoking(sid) else Ended]
  }

  lemma EntersAtTheDoor(s: World, r: nat, sid: string, csrfOk: bool, cfg: Config)
    requires r !in s.runs
    ensures var s' := Step(s, Enter(r, sid, csrfOk), cfg);
      s' == EnterStep(s, r, sid, csrfOk, cfg) && AtTheDoor(Look(s.sessions, sid, s.now, cfg), csrfOk, s.runs, s'.runs, s.passed, s'.passed, r, sid)
  {
    var l := Look(s.sessions, sid, s.now, cfg);
    if !csrfOk || !l.Live? || !l.session.mfaVerified { BadTokenEnds(s, r, sid, csrfOk, cfg); }
    hide EnterStep, DecideStep, LoadEndsStep, SaveStep, FetchStep, Quiet, Look;
  }

  /** Everyone who waited for the load goes on with its row, or fails with it; nobody else moves. */
  ghost predicate WaitersGoOn(before: map<nat, Run>, after: map<nat, Run>, id: nat, row: Option<StaffRow>) {
    after.Keys == before.Keys && forall q :: q in after ==>
      if !(before[q].Waiting? && before[q].load == id) then after[q] == before[q]
      else if row.Some? then after[q] == Resumed(before[q].sid, before[q].session, before[q].entered, row.value)
      else after[q] == Ended
  }

  lemma ResumeTells(runs: map<nat, Run>, id: nat, row: Option<StaffRow>)
    ensures WaitersGoOn(runs, Resume(runs, id, row), id, row)
  {
  }

  /** The fields after a method's statements are the state after its action. */
  lemma Performed(s: World, s': World, a: Action, cfg: Config)
    requires Inv(s, cfg) && Enabled(s, a)
    requires match a
      case Decide(r) => s' == DecideStep(s, r, s.runs[r].sid, s.runs[r].session, s.runs[r].entered, s.runs[r].row, cfg)
      case LoadSettles(id) => s' == CacheStep(s, TC.Settle(id, s.loads[id].row.value, s.now))
      case LoadEnds(id) => s' == LoadEndsStep(s, id)
      case Save(r, write) => s' == SaveStep(s, r, s.runs[r], write)
      case Revoke(r) => s' == s.(sessions := s.sessions - {s.runs[r].sid}, runs := s.runs[r := Ended])
      case _ => false
    ensures s' == Step(s, a, cfg) && Inv(s', cfg)
  {
    hide Inv, DecideStep, LoadEndsStep, CacheStep, EnterStep, FetchStep, SaveStep, Persist, Minted, RowOf, Quiet;
    assert s' == Step(s, a, cfg);
    hide Step;
    StepKeepsInv(s, a, cfg);
  }

  class Guard {
    const cache: TC.TtlCache<StaffRow>
    const service: SessionService
    var now: int
    var runs: map<nat, Run>
    ghost var staff: map<string, Staff>
    ghost var loads: map<nat, Load>
    ghost var born: map<string, Birth>
    var passed: seq<Pass>
    ghost var admitted: seq<Admission>

    ghost function Model(): World
      reads this, cache, service
    {
      World(now, staff, cache.Model(), service.stored, runs, loads, born, passed, admitted)
    }

    ghost predicate Ok()
      reads this, cache, service
    {
      cache.ttlMs == STAFF_TTL_MS && cache.maxEntries == STAFF_MAX && Inv(Model(), service.cfg)
    }

    constructor (cfg: Config, now: int)
      ensures Ok() && Model() == Start(now) && fresh(cache) && fresh(service)
    {
      cache := new TC.TtlCache(STAFF_TTL_MS, STAFF_MAX);
      service := new SessionService(cfg);
      this.now, runs, staff, loads, born, passed, admitted := now, map[], map[], map[], map[], [], [];
    }

    /** The verdict on a staff row, up to the write or the revocation it awaits. */
    method Verdict(r: nat, sid: string, x: Session, entered: int, row: StaffRow)
      requires cache.ttlMs == STAFF_TTL_MS && cache.maxEntries == STAFF_MAX && cache.Ok()
      modifies this`runs, this`passed, cache
      ensures Model() == DecideStep(old(Model()), r, sid, x, entered, row, service.cfg)
      ensures Judged(old(runs), runs, old(passed), passed, r, sid, x, entered, row)
      ensures !(row.Found? && row.active && row.epoch == x.epoch) ==> x.staffId !in cache.entries
    {
      hide TC.Step, TC.Valid;
      if row != Found(true, x.epoch) {
        cache.Remove(x.staffId);
        runs := runs[r := Revoking(sid)];
        return;
      }
      var touched := x.(lastSeenAt := now);
      var ttl := TtlMs(touched, now, service.cfg);
      if ttl <= 0 { runs := runs[r := Ended]; return; }
      runs := runs[r := Saving(sid, touched, ttl, Some(|passed|))];
      passed := passed + [Pass(r, sid, x.staffId, x.epoch, entered, now)];
    }

    /** Turned away on a missing or inactive member or another epoch: the session is about to be revoked.
        Otherwise the idle window is about to slide, to now, unless nothing would be left of it. */
    ghost predicate Judged(before: map<nat, Run>, after: map<nat, Run>, passes: seq<Pass>, passes': seq<Pass>,
                           r: nat, sid: string, x: Session, entered: int, row: StaffRow)
      reads this, service
    {
      if !(row.Found? && row.active && row.epoch == x.epoch) then after == before[r := Revoking(sid)] && passes' == passes
      else if x.absoluteExpiresAt <= now || IdleMs(x, service.cfg) <= 0 then after == before[r := Ended] && passes' == passes
      else
        && r in after && after[r].Saving? && after[r].sid == sid && after[r].session == x.(lastSeenAt := now)
        && after[r].ttlMs == Min(x.absoluteExpiresAt - now, IdleMs(x, service.cfg)) && after[r].pass == Some(|passes|) && after == before[r := after[r]]
        && passes' == passes + [Pass(r, sid, x.staffId, x.epoch, entered, now)]
    }

    /** `staffCache.get`: the verdict on a cached row, or the wait for a load. */
    method Ask(r: nat, sid: string, x: Session)
      requires cache.ttlMs == STAFF_TTL_MS && cache.maxEntries == STAFF_MAX && cache.Ok()
      modifies this`runs, this`passed, this`loads, cache
      ensures Model() == AskStaff(old(Model()), r, sid, x, service.cfg)
    {
      GetOnlyStartsLoads(cache.Model(), x.staffId, now);
      hide TC.Step, TC.Valid, DecideStep;
      var asked := cache.BeginGet(x.staffId, now);
      match asked
      case Hit(row) => Verdict(r, sid, x, now, row);
      case Join(id) => runs := runs[r := Waiting(sid, x, now, id)];
      case Load(id) =>
        runs := runs[r := Waiting(sid, x, now, id)];
        loads := loads[id := Load(x.staffId, now, None)];
    }

    /** `canActivate` from the cookie to its first wait after the session lookup. */
    method Enter(r: nat, sid: string, csrfOk: bool)
      requires Ok() && r !in runs
      modifies this, cache
      ensures Ok() && Model() == Step(old(Model()), Action.Enter(r, sid, csrfOk), service.cfg)
      ensures AtTheDoor(Look(service.stored, sid, now, service.cfg), csrfOk, old(runs), runs, old(passed), passed, r, sid)
    {
      ghost var before := Model();
      StepKeepsInv(before, Action.Enter(r, sid, csrfOk), service.cfg);
      EntersAtTheDoor(before, r, sid, csrfOk, service.cfg);
      assert cache.Ok();
      hide Inv, TC.Valid, AskStaff, AtTheDoor, Step, Quiet, Look;
      var found := service.Get(sid, now);
      match found
      case Absent => runs := runs[r := Ended];
      case Expired => runs := runs[r := Revoking(sid)];
      case Live(x) =>
        if x.mfaVerified && csrfOk { Ask(r, sid, x); } else { runs := runs[r := Ended]; }
    }

    /** A waiting request goes on once its load has ended. */
    method Decide(r: nat)
      requires Ok() && r in runs && runs[r].Resumed?
      modifies this, cache
      ensures Ok() && Model() == Step(old(Model()), Action.Decide(r), service.cfg)
      ensures var run := old(runs)[r]; Judged(old(runs), runs, old(passed), passed, r, run.sid, run.session, run.entered, run.row)
    {
      ghost var before := Model();
      assert cache.Ok();
      hide Inv, TC.Valid, DecideStep, Step;
      Verdict(r, runs[r].sid, runs[r].session, runs[r].entered, runs[r].row);
      Performed(before, Model(), Action.Decide(r), service.cfg);
    }

    /** The staff query came back with `row`. */
    method LoadSettles(id: nat, row: StaffRow)
      requires Ok() && id in cache.flights && !TC.Logged(cache.log, id) && id in loads && loads[id].row == Some(row)
      modifies this, cache
      ensures Ok() && Model() == Step(old(Model()), Action.LoadSettles(id), service.cfg)
      ensures var key := cache.flights[id]; key in cache.entries && cache.entries[key] == TC.Entry(row, now + 10_000)
    {
      ghost var before := Model();
      assert cache.Ok();
      hide Inv, TC.Valid, TC.Step, TC.Logged, Step;
      cache.LoadSettles(id, row, now);
      Performed(before, Model(), Action.LoadSettles(id), service.cfg);
    }

    /** The load's promise is over: `row` when it settled, nothing when the query failed. */
    method LoadEnds(id: nat, row: Option<StaffRow>)
      requires Ok() && id in cache.flights && id in loads
      requires row == if TC.Logged(cache.log, id) then loads[id].row else None
      modifies this, cache
      ensures Ok() && Model() == Step(old(Model()), Action.LoadEnds(id), service.cfg)
      ensures WaitersGoOn(old(runs), runs, id, row) && id !in cache.flights
    {
      ResumeTells(runs, id, row);
      hide WaitersGoOn;
      ghost var before := Model();
      assert cache.Ok();
      hide Inv, TC.Valid, TC.Step, TC.Logged, Resume, Step;
      cache.LoadEnds(id);
      runs := Resume(runs, id, row);
      Performed(before, Model(), Action.LoadEnds(id), service.cfg);
    }

    /** The Redis write of a `persist` ends. A request goes through only when it was acknowledged. */
    method Save(r: nat, write: Write)
      requires Ok() && r in runs && runs[r].Saving?
      modifies this, service
      ensures Ok() && Model() == Step(old(Model()), Action.Save(r, write), service.cfg)
      ensures runs == old(runs)[r := Ended]
      ensures var run := old(runs)[r];
        && service.stored == (if write.Refused? then old(service.stored) else old(service.stored)[run.sid := Stored(run.session, now + run.ttlMs)])
        && admitted == (if write.Committed? && run.pass.Some? then old(admitted) + [Admission(run.pass.value, now)] else old(admitted))
    {
      ghost var before := Model();
      hide Inv, Step;
      if !write.Refused? {
        service.Write(runs[r].sid, runs[r].session, runs[r].ttlMs, now);
        if write.Committed? && runs[r].pass.Some? { admitted := admitted + [Admission(runs[r].pass.value, now)]; }
      }
      runs := runs[r := Ended];
      Performed(before, Model(), Action.Save(r, write), service.cfg);
    }

    /** A rejected or expired session is deleted. */
    method Revoke(r: nat)
      requires Ok() && r in runs && runs[r].Revoking?
      modifies this, service
      ensures Ok() && Model() == Step(old(Model()), Action.Revoke(r), service.cfg)
      ensures service.stored == old(service.stored) - {old(runs)[r].sid} && runs == old(runs)[r := Ended]
    {
      ghost var before := Model();
      hide Inv, Step;
      service.Revoke(runs[r].sid);
      runs := runs[r := Ended];
      Performed(before, Model(), Action.Revoke(r), service.cfg);
    }
  }
}
