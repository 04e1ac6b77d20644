/** What ending a session is worth: a request that still holds a copy of the record can store it again.
    When it can, exactly, and a run in which it does. */
module SignOut {
  import opened Prelude
  import opened SessionStore
  import opened SessionGuard
  import TC = TtlCache

  /** Some continuation stores the session again. */
  ghost predicate CanReturn(s: World, sid: string, cfg: Config) { exists more :: sid in RunFrom(s, more, cfg).sessions }

  /** A staff query that has not run yet can still find this epoch; one that has run found what it found. */
  predicate CanAdmit(s: World, x: Session, load: Load) {
    if load.row.Some? then Admits(x, load.row.value)
    else x.staffId !in s.staff || |s.staff[x.staffId].bumps| <= x.epoch
  }

  /** The run holds a copy of the session that it may still store: a write on its way; a copy held for an
      update, before the absolute lifetime is over; or a request still to be judged on a row that admits
      it, while `touch` would not refuse. */
  predicate HoldsCopy(s: World, run: Run, sid: string, cfg: Config) {
    match run
    case Saving(q, _, _, _) => q == sid
    case Holding(q, x) => q == sid && x.absoluteExpiresAt > s.now
    case Resumed(q, x, _, row) => q == sid && Admits(x, row) && TtlMs(x, s.now, cfg) > 0
    case Waiting(q, x, _, id) =>
      q == sid && id in s.cache.flights && id in s.loads && CanAdmit(s, x, s.loads[id]) && TtlMs(x, s.now, cfg) > 0
    case _ => false
  }

  predicate SomeoneHolds(s: World, sid: string, cfg: Config) {
    exists r :: r in s.runs && HoldsCopy(s, s.runs[r], sid, cfg)
  }

  /** The session was minted, is stored nowhere, and nobody can store it. */
  ghost predicate Gone(s: World, sid: string, cfg: Config) {
    sid in s.born && sid !in s.sessions && !SomeoneHolds(s, sid, cfg)
  }

  // ------------------------------------------------------------ gone is gone

  /** Time passes, epochs rise, queries run on the staff row of their moment, and no load is taken up
      again once it has ended. */
  ghost predicate Ages(s: World, s': World) {
    && s.now <= s'.now
    && (forall id :: id in s.staff ==> id in s'.staff && |s.staff[id].bumps| <= |s'.staff[id].bumps|)
    && (forall id :: id in s.loads ==>
          && id in s'.loads && s'.loads[id].staffId == s.loads[id].staffId
          && (s'.loads[id].row == s.loads[id].row || (s.loads[id].row.None? && s'.loads[id].row == Some(RowOf(s, s.loads[id].staffId))))
          && (id in s'.cache.flights ==> id in s.cache.flights))
  }

  lemma IdleRunStaysIdle(s: World, s': World, run: Run, sid: string, cfg: Config)
    requires Ages(s, s') && RunOk(s, run, cfg) && !HoldsCopy(s, run, sid, cfg)
    ensures !HoldsCopy(s', run, sid, cfg)
  {
  }

  /** The loads and flights of the other runs are left alone by every verdict. */
  lemma DecideAges(s: World, r: nat, sid: string, x: Session, entered: int, row: StaffRow, cfg: Config)
    ensures Ages(s, DecideStep(s, r, sid, x, entered, row, cfg))
  {
    VerdictMovesNoLoad(s, r, sid, x, entered, row, cfg);
    hide DecideStep;
  }

  lemma AskAges(s: World, r: nat, sid: string, x: Session, cfg: Config)
    requires LoadsOk(s)
    ensures Ages(s, AskStaff(s, r, sid, x, cfg))
  {
    var l := TC.LookupOf(s.cache, x.staffId, s.now);
    if l.Hit? { DecideAges(s, r, sid, x, s.now, l.value, cfg); }
    if l.Load? { CacheFrame(s.cache, TC.Get(x.staffId, s.now)); }
    hide TC.Step, DecideStep;
  }

  lemma CacheActionAges(s: World, a: Action, cfg: Config)
    requires Enabled(s, a) && (a.LoadSettles? || a.LoadEnds?)
    ensures Ages(s, Step(s, a, cfg))
  {
    CacheFrame(s.cache, if a.LoadEnds? then TC.Finally(a.load) else TC.Settle(a.load, s.loads[a.load].row.value, s.now));
    hide TC.Step, Resume, TC.Logged;
  }

  lemma PlainActionAges(s: World, a: Action, cfg: Config)
    requires Enabled(s, a) && !a.Enter? && !a.Decide? && !a.LoadSettles? && !a.LoadEnds?
    ensures Ages(s, Step(s, a, cfg))
  {
    hide EnterStep, DecideStep, LoadEndsStep, CacheStep, Quiet;
  }

  lemma StepAges(s: World, a: Action, cfg: Config)
    requires LoadsOk(s)
    ensures Ages(s, Step(s, a, cfg))
  {
    if !Enabled(s, a) { return; }
    match a
    case Enter(r, sid, csrfOk) =>
      var l := Look(s.sessions, sid, s.now, cfg);
      if l.Live? { AskAges(s, r, sid, l.session, cfg); }
      hide AskStaff, LoadsOk, Quiet;
    case Decide(r) =>
      DecideAges(s, r, s.runs[r].sid, s.runs[r].session, s.runs[r].entered, s.runs[r].row, cfg);
      hide Ages, DecideStep;
    case LoadSettles(_) => CacheActionAges(s, a, cfg); hide Step, Ages;
    case LoadEnds(_) => CacheActionAges(s, a, cfg); hide Step, Ages;
    case _ => PlainActionAges(s, a, cfg); hide Step, Ages;
  }

  /** No verdict in favour of the session was added. */
  ghost predicate NoNewPass(s: World, s': World, sid: string) {
    |s.passed| <= |s'.passed| && forall i :: |s.passed| <= i < |s'.passed| ==> s'.passed[i].sid != sid
  }

  /** Every run of the new state was there and idle, or is new to the session. */
  ghost predicate RunsIdle(s: World, s': World, sid: string, cfg: Config) {
    forall r :: r in s'.runs ==> (r in s.runs && s'.runs[r] == s.runs[r]) || !HoldsCopy(s', s'.runs[r], sid, cfg)
  }

  lemma DecideKeepsIdle(s: World, r: nat, q: string, x: Session, entered: int, row: StaffRow, sid: string, cfg: Config)
    requires q != sid || !Admits(x, row) || TtlMs(x, s.now, cfg) <= 0
    ensures var s' := DecideStep(s, r, q, x, entered, row, cfg);
      RunsIdle(s, s', sid, cfg) && s'.sessions == s.sessions && NoNewPass(s, s', sid)
  {
    hide TC.Step;
  }

  lemma AskKeepsIdle(s: World, r: nat, q: string, x: Session, sid: string, cfg: Config)
    requires q != sid
    ensures var s' := AskStaff(s, r, q, x, cfg);
      RunsIdle(s, s', sid, cfg) && s'.sessions == s.sessions && NoNewPass(s, s', sid)
  {
    var l := TC.LookupOf(s.cache, x.staffId, s.now);
    if l.Hit? { DecideKeepsIdle(s, r, q, x, s.now, l.value, sid, cfg); }
    hide TC.Step, DecideStep;
  }

  lemma EnterKeepsIdle(s: World, r: nat, q: string, csrfOk: bool, sid: string, cfg: Config)
    requires sid !in s.sessions
    ensures var s' := EnterStep(s, r, q, csrfOk, cfg);
      RunsIdle(s, s', sid, cfg) && s'.sessions == s.sessions && NoNewPass(s, s', sid)
  {
    var l := Look(s.sessions, q, s.now, cfg);
    if l.Live? { AskKeepsIdle(s, r, q, l.session, sid, cfg); }
    hide AskStaff;
  }

  lemma LoadEndsKeepsIdle(s: World, id: nat, sid: string, cfg: Config)
    requires Enabled(s, LoadEnds(id)) && !SomeoneHolds(s, sid, cfg)
    ensures var s' := LoadEndsStep(s, id);
      RunsIdle(s, s', sid, cfg) && s'.sessions == s.sessions && NoNewPass(s, s', sid)
  {
    var s' := LoadEndsStep(s, id);
    hide TC.Step, TC.Logged;
    forall r | r in s'.runs && !(r in s.runs && s'.runs[r] == s.runs[r]) ensures !HoldsCopy(s', s'.runs[r], sid, cfg) {
      assert !HoldsCopy(s, s.runs[r], sid, cfg);
    }
  }

  lemma WriteKeepsIdle(s: World, a: Action, sid: string, cfg: Config)
    requires Enabled(s, a) && sid !in s.sessions && !SomeoneHolds(s, sid, cfg) && (a.Save? || a.Revoke?)
    ensures var s' := Step(s, a, cfg); RunsIdle(s, s', sid, cfg) && sid !in s'.sessions && NoNewPass(s, s', sid)
  {
    assert !HoldsCopy(s, s.runs[a.r], sid, cfg);
    hide EnterStep, DecideStep, LoadEndsStep, CacheStep, CanAdmit, SomeoneHolds, Persist, FetchStep;
  }

  lemma SessionActionKeepsIdle(s: World, a: Action, sid: string, cfg: Config)
    requires Enabled(s, a) && sid in s.born && sid !in s.sessions && !SomeoneHolds(s, sid, cfg)
    requires a.Login? || a.Fetch? || a.Update?
    ensures var s' := Step(s, a, cfg); RunsIdle(s, s', sid, cfg) && sid !in s'.sessions && NoNewPass(s, s', sid)
  {
    if a.Update? { assert !HoldsCopy(s, s.runs[a.r], sid, cfg); }
    hide EnterStep, DecideStep, LoadEndsStep, CacheStep, CanAdmit, SomeoneHolds, SaveStep;
  }

  lemma OtherActionKeepsIdle(s: World, a: Action, sid: string, cfg: Config)
    requires Enabled(s, a) && sid !in s.sessions
    requires a.Tick? || a.Hire? || a.Bump? || a.SetActive? || a.Read? || a.SignOut?
    ensures var s' := Step(s, a, cfg); RunsIdle(s, s', sid, cfg) && sid !in s'.sessions && NoNewPass(s, s', sid)
  {
    hide EnterStep, DecideStep, LoadEndsStep, CacheStep, Quiet, HoldsCopy;
  }

  lemma StepKeepsIdle(s: World, a: Action, sid: string, cfg: Config)
    requires sid in s.born && sid !in s.sessions && !SomeoneHolds(s, sid, cfg)
    ensures var s' := Step(s, a, cfg); RunsIdle(s, s', sid, cfg) && sid !in s'.sessions && NoNewPass(s, s', sid)
  {
    if !Enabled(s, a) { return; }
    match a
    case Enter(r, q, csrfOk) => EnterKeepsIdle(s, r, q, csrfOk, sid, cfg); hide EnterStep, RunsIdle, Quiet;
    case Decide(r) =>
      assert !HoldsCopy(s, s.runs[r], sid, cfg);
      DecideKeepsIdle(s, r, s.runs[r].sid, s.runs[r].session, s.runs[r].entered, s.runs[r].row, sid, cfg);
      hide DecideStep, RunsIdle;
    case LoadSettles(_) => hide TC.Step;
    case LoadEnds(id) => LoadEndsKeepsIdle(s, id, sid, cfg); hide LoadEndsStep, RunsIdle;
    case Login(_, _, _, _, _) => SessionActionKeepsIdle(s, a, sid, cfg); hide Step, RunsIdle;
    case Fetch(_, _) => SessionActionKeepsIdle(s, a, sid, cfg); hide Step, RunsIdle;
    case Update(_, _) => SessionActionKeepsIdle(s, a, sid, cfg); hide Step, RunsIdle;
    case Save(_, _) => WriteKeepsIdle(s, a, sid, cfg); hide Step, RunsIdle;
    case Revoke(_) => WriteKeepsIdle(s, a, sid, cfg); hide Step, RunsIdle;
    case _ => OtherActionKeepsIdle(s, a, sid, cfg); hide Step, RunsIdle;
  }

  lemma StepKeepsGone(s: World, a: Action, sid: string, cfg: Config)
    requires Inv(s, cfg) && Gone(s, sid, cfg)
    ensures var s' := Step(s, a, cfg); Gone(s', sid, cfg) && NoNewPass(s, s', sid)
  {
    var s' := Step(s, a, cfg);
    StepKeepsIdle(s, a, sid, cfg);
    StepAges(s, a, cfg);
    StepExtends(s, a, cfg);
    assert forall r :: r in s.runs ==> RunOk(s, s.runs[r], cfg);
    hide Inv, Step, HoldsCopy, Ages, RunOk;
    forall r | r in s'.runs ensures !HoldsCopy(s', s'.runs[r], sid, cfg) {
      if r in s.runs && s'.runs[r] == s.runs[r] { IdleRunStaysIdle(s, s', s.runs[r], sid, cfg); }
    }
  }

  /** A session that nobody holds stays gone in every continuation, and no request is judged in its
      favour again. */
  lemma {:induction false} GoneForGood(s: World, more: seq<Action>, sid: string, cfg: Config)
    requires Inv(s, cfg) && Gone(s, sid, cfg)
    ensures Gone(RunFrom(s, more, cfg), sid, cfg) && NoNewPass(s, RunFrom(s, more, cfg), sid)
    decreases |more|
  {
    if more != [] {
      var init := more[..|more| - 1];
      GoneForGood(s, init, sid, cfg);
      RunFromKeepsInv(s, init, cfg);
      hide Inv, Gone, Step;
      StepKeepsGone(RunFrom(s, init, cfg), more[|more| - 1], sid, cfg);
      PassesStay(RunFrom(s, init, cfg), more[|more| - 1], cfg);
    }
  }

  lemma PassesStay(s: World, a: Action, cfg: Config)
    requires Inv(s, cfg)
    ensures s.passed <= Step(s, a, cfg).passed
  {
    StepExtends(s, a, cfg);
    hide Step;
  }

  // ------------------------------------------------------------ a copy can come back

  lemma {:induction false} RunPrepend(s: World, a: Action, more: seq<Action>, cfg: Config)
    ensures RunFrom(s, [a] + more, cfg) == RunFrom(Step(s, a, cfg), more, cfg)
    decreases |more|
  {
    hide Step;
    if more == [] {
      assert [a] + more == [a] && [a][..0] == [];
      assert RunFrom(s, [], cfg) == s;
    } else {
      RunPrepend(s, a, more[..|more| - 1], cfg);
      assert ([a] + more)[..|more|] == [a] + more[..|more| - 1];
    }
  }

  lemma CanReturnAfter(s: World, a: Action, sid: string, cfg: Config)
    requires CanReturn(Step(s, a, cfg), sid, cfg)
    ensures CanReturn(s, sid, cfg)
  {
    hide Step;
    var more :| sid in RunFrom(Step(s, a, cfg), more, cfg).sessions;
    RunPrepend(s, a, more, cfg);
  }

  lemma SavingReturns(s: World, r: nat, sid: string, cfg: Config)
    requires r in s.runs && s.runs[r].Saving? && s.runs[r].sid == sid
    ensures CanReturn(s, sid, cfg)
  {
    var after := Step(s, Save(r, Committed), cfg);
    assert RunFrom(after, [], cfg) == after;
    assert sid in after.sessions;
    hide Step;
    CanReturnAfter(s, Save(r, Committed), sid, cfg);
  }

  lemma HoldingReturns(s: World, r: nat, sid: string, cfg: Config)
    requires r in s.runs && s.runs[r].Holding? && HoldsCopy(s, s.runs[r], sid, cfg)
    ensures CanReturn(s, sid, cfg)
  {
    var after := Step(s, Update(r, false), cfg);
    assert after.runs[r].Saving? && after.runs[r].sid == sid;
    hide Step;
    SavingReturns(after, r, sid, cfg);
    CanReturnAfter(s, Update(r, false), sid, cfg);
  }

  lemma ResumedReturns(s: World, r: nat, sid: string, cfg: Config)
    requires r in s.runs && s.runs[r].Resumed? && HoldsCopy(s, s.runs[r], sid, cfg)
    ensures CanReturn(s, sid, cfg)
  {
    var after := Step(s, Decide(r), cfg);
    assert after.runs[r].Saving? && after.runs[r].sid == sid;
    hide Step;
    SavingReturns(after, r, sid, cfg);
    CanReturnAfter(s, Decide(r), sid, cfg);
  }

  /** A request waiting for a load that found its session's epoch. */
  ghost predicate AwaitsRow(s: World, r: nat, sid: string, cfg: Config) {
    && r in s.runs && s.runs[r].Waiting? && s.runs[r].sid == sid && TtlMs(s.runs[r].session, s.now, cfg) > 0
    && s.runs[r].load in s.cache.flights && s.runs[r].load in s.loads
    && s.loads[s.runs[r].load].row == Some(Found(true, s.runs[r].session.epoch))
  }

  lemma EndedLoadReturns(s: World, r: nat, sid: string, cfg: Config)
    requires AwaitsRow(s, r, sid, cfg) && TC.Logged(s.cache.log, s.runs[r].load)
    ensures CanReturn(s, sid, cfg)
  {
    var id := s.runs[r].load;
    var after := Step(s, LoadEnds(id), cfg);
    assert after == LoadEndsStep(s, id) by { hide LoadEndsStep; }
    assert after.runs[r] == Resumed(sid, s.runs[r].session, s.runs[r].entered, Found(true, s.runs[r].session.epoch)) && after.now == s.now
      by { hide TC.Step, TC.Logged; }
    hide Step, LoadEndsStep;
    ResumedReturns(after, r, sid, cfg);
    CanReturnAfter(s, LoadEnds(id), sid, cfg);
  }

  lemma RowReturns(s: World, r: nat, sid: string, cfg: Config)
    requires AwaitsRow(s, r, sid, cfg)
    ensures CanReturn(s, sid, cfg)
  {
    var id := s.runs[r].load;
    if TC.Logged(s.cache.log, id) {
      EndedLoadReturns(s, r, sid, cfg);
    } else {
      SettlesToLogged(s, r, sid, cfg);
      hide Step, TC.Logged, AwaitsRow;
      EndedLoadReturns(Step(s, LoadSettles(id), cfg), r, sid, cfg);
      CanReturnAfter(s, LoadSettles(id), sid, cfg);
    }
  }

  lemma SettlesToLogged(s: World, r: nat, sid: string, cfg: Config)
    requires AwaitsRow(s, r, sid, cfg) && !TC.Logged(s.cache.log, s.runs[r].load)
    ensures var after := Step(s, LoadSettles(s.runs[r].load), cfg);
      && AwaitsRow(after, r, sid, cfg) && after.runs[r].load == s.runs[r].load && TC.Logged(after.cache.log, s.runs[r].load)
  {
    var id := s.runs[r].load;
    var after := Step(s, LoadSettles(id), cfg);
    CacheFrame(s.cache, TC.Settle(id, s.loads[id].row.value, s.now));
    hide TC.Step;
    assert after.cache.log[|s.cache.log|].id == id;
  }

  /** A request waiting for a load whose query has not run, on a member who can still have the epoch. */
  ghost predicate AwaitsQuery(s: World, r: nat, sid: string, cfg: Config) {
    && r in s.runs && s.runs[r].Waiting? && s.runs[r].sid == sid && TtlMs(s.runs[r].session, s.now, cfg) > 0
    && s.runs[r].load in s.cache.flights && s.runs[r].load in s.loads
    && s.loads[s.runs[r].load].row.None? && s.loads[s.runs[r].load].staffId == s.runs[r].session.staffId
    && CanAdmit(s, s.runs[r].session, s.loads[s.runs[r].load])
  }

  lemma ReadReturns(s: World, r: nat, sid: string, cfg: Config)
    requires AwaitsQuery(s, r, sid, cfg) && RowOf(s, s.runs[r].session.staffId) == Found(true, s.runs[r].session.epoch)
    ensures CanReturn(s, sid, cfg)
  {
    var after := Step(s, Read(s.runs[r].load), cfg);
    assert AwaitsRow(after, r, sid, cfg);
    hide Step, AwaitsRow;
    RowReturns(after, r, sid, cfg);
    CanReturnAfter(s, Read(s.runs[r].load), sid, cfg);
  }

  /** The staff row can be brought to the session's epoch before the query runs. */
  lemma {:induction false} QueryReturns(s: World, r: nat, sid: string, cfg: Config)
    requires AwaitsQuery(s, r, sid, cfg) && s.runs[r].session.staffId in s.staff
    ensures CanReturn(s, sid, cfg)
    decreases s.runs[r].session.epoch - |s.staff[s.runs[r].session.staffId].bumps|
  {
    var staffId := s.runs[r].session.staffId;
    if |s.staff[staffId].bumps| < s.runs[r].session.epoch {
      var after := Step(s, Bump(staffId), cfg);
      assert AwaitsQuery(after, r, sid, cfg) && after.runs[r] == s.runs[r];
      assert |after.staff[staffId].bumps| == |s.staff[staffId].bumps| + 1;
      hide Step, AwaitsQuery;
      QueryReturns(after, r, sid, cfg);
      CanReturnAfter(s, Bump(staffId), sid, cfg);
    } else {
      var after := Step(s, SetActive(staffId, true), cfg);
      assert AwaitsQuery(after, r, sid, cfg) && after.runs[r] == s.runs[r];
      hide Step, AwaitsQuery;
      ReadReturns(after, r, sid, cfg);
      CanReturnAfter(s, SetActive(staffId, true), sid, cfg);
    }
  }

  lemma WaitingReturns(s: World, r: nat, sid: string, cfg: Config)
    requires Inv(s, cfg) && r in s.runs && s.runs[r].Waiting? && HoldsCopy(s, s.runs[r], sid, cfg)
    ensures CanReturn(s, sid, cfg)
  {
    assert RunOk(s, s.runs[r], cfg);
    var x, load := s.runs[r].session, s.loads[s.runs[r].load];
    if load.row.Some? {
      RowReturns(s, r, sid, cfg);
    } else if x.staffId in s.staff {
      QueryReturns(s, r, sid, cfg);
    } else {
      var after := Step(s, Hire(x.staffId), cfg);
      assert AwaitsQuery(after, r, sid, cfg) && after.runs[r] == s.runs[r];
      hide Step, AwaitsQuery, Inv;
      QueryReturns(after, r, sid, cfg);
      CanReturnAfter(s, Hire(x.staffId), sid, cfg);
    }
  }

  /** A session that is no longer stored can be stored again exactly while some request holds a copy of
      it that it may still store. Otherwise it is gone in every continuation, and nobody is ever judged
      by it again. */
  lemma {:induction false} RevokedReturnsExactlyWhen(now: int, actions: seq<Action>, sid: string, cfg: Config)
    requires var s := RunAll(now, actions, cfg); sid in s.born && sid !in s.sessions
    ensures var s := RunAll(now, actions, cfg);
      && (CanReturn(s, sid, cfg) <==> SomeoneHolds(s, sid, cfg))
      && (!SomeoneHolds(s, sid, cfg) ==> forall more :: NoNewPass(s, RunFrom(s, more, cfg), sid))
  {
    var s := RunAll(now, actions, cfg);
    ReachableInv(now, actions, cfg);
    hide RunAll, RunFrom, Inv;
    if SomeoneHolds(s, sid, cfg) {
      var r :| r in s.runs && HoldsCopy(s, s.runs[r], sid, cfg);
      match s.runs[r] {
        case Saving(_, _, _, _) => SavingReturns(s, r, sid, cfg);
        case Holding(_, _) => HoldingReturns(s, r, sid, cfg);
        case Resumed(_, _, _, _) => ResumedReturns(s, r, sid, cfg);
        case Waiting(_, _, _, _) => WaitingReturns(s, r, sid, cfg);
        case _ =>
      }
    } else {
      forall more ensures NoNewPass(s, RunFrom(s, more, cfg), sid) && sid !in RunFrom(s, more, cfg).sessions {
        GoneForGood(s, more, sid, cfg);
      }
    }
  }

  // ------------------------------------------------------------ a run in which it does

  lemma RunSnoc(s: World, actions: seq<Action>, a: Action, cfg: Config)
    ensures RunFrom(s, actions + [a], cfg) == Step(RunFrom(s, actions, cfg), a, cfg)
  {
    hide Step;
    assert (actions + [a])[..|actions|] == actions;
  }

  function Ann(cfg: Config): Session { Minted("ann", 0, true, 0, cfg) }

  /** Ann has signed in. */
  function SignedIn(cfg: Config): World {
    World(0, map["ann" := Staff(true, [], 0)], TC.Empty(), map["s" := Stored(Ann(cfg), TtlMs(Ann(cfg), 0, cfg))], map[0 := Ended],
          map[], map["s" := Birth("ann", 0, 0)], [], [])
  }

  /** Ann exists, and her sign-in is on its way to the store. */
  function Hired(): World { Start(0).(staff := map["ann" := Staff(true, [], 0)]) }

  function SigningIn(cfg: Config): World {
    Hired().(born := map["s" := Birth("ann", 0, 0)], runs := map[0 := Saving("s", Ann(cfg), TtlMs(Ann(cfg), 0, cfg), None)])
  }

  lemma LogsIn(cfg: Config)
    requires cfg.idleMs > 0 && cfg.absoluteMs > 0
    ensures Step(Hired(), Login(0, "s", "ann", 0, true), cfg) == SigningIn(cfg)
  {
    hide EnterStep, DecideStep, LoadEndsStep, SaveStep, CacheStep;
  }

  lemma LogInLands(cfg: Config)
    ensures Step(SigningIn(cfg), Save(0, Committed), cfg) == SignedIn(cfg)
  {
    hide EnterStep, DecideStep, LoadEndsStep, CacheStep, TtlMs;
  }

  lemma SignsIn(cfg: Config) returns (actions: seq<Action>)
    requires cfg.idleMs > 0 && cfg.absoluteMs > 0
    ensures RunAll(0, actions, cfg) == SignedIn(cfg)
  {
    assert Step(Start(0), Hire("ann"), cfg) == Hired();
    LogsIn(cfg);
    LogInLands(cfg);
    assert RunFrom(Start(0), [], cfg) == Start(0);
    hide Step, Hired, SigningIn, SignedIn;
    var a1 := [] + [Hire("ann")];
    var a2 := a1 + [Login(0, "s", "ann", 0, true)];
    actions := a2 + [Save(0, Committed)];
    RunSnoc(Start(0), [], Hire("ann"), cfg);
    RunSnoc(Start(0), a1, Login(0, "s", "ann", 0, true), cfg);
    RunSnoc(Start(0), a2, Save(0, Committed), cfg);
  }

  /** A request of hers waits for the staff row. */
  function Asking(cfg: Config): World {
    SignedIn(cfg).(cache := TC.Cache([], map[], map["ann" := 0], map[0 := "ann"], 1, []),
                   loads := map[0 := Load("ann", 0, None)],
                   runs := map[0 := Ended, 1 := Waiting("s", Ann(cfg), 0, 0)])
  }

  lemma Asks(cfg: Config)
    requires cfg.idleMs > 0 && cfg.absoluteMs > 0
    ensures Step(SignedIn(cfg), Enter(1, "s", true), cfg) == Asking(cfg)
  {
    assert Look(SignedIn(cfg).sessions, "s", 0, cfg) == Live(Ann(cfg));
    assert TC.LookupOf(SignedIn(cfg).cache, "ann", 0) == TC.Load(0);
  }

  lemma Reads(cfg: Config)
    ensures Step(Asking(cfg), Read(0), cfg) == Asking(cfg).(loads := map[0 := Load("ann", 0, Some(Found(true, 0)))])
  {
    hide EnterStep, DecideStep, LoadEndsStep, SaveStep, CacheStep;
  }

  lemma Settles(s: World, cfg: Config)
    requires 0 in s.cache.flights && s.cache.log == [] && 0 in s.loads && s.loads[0].row.Some?
    ensures var s' := Step(s, LoadSettles(0), cfg);
      s' == s.(cache := s'.cache) && 0 in s'.cache.flights && TC.Logged(s'.cache.log, 0)
  {
    CacheFrame(s.cache, TC.Settle(0, s.loads[0].row.value, s.now));
    hide TC.Step, EnterStep, DecideStep, LoadEndsStep, SaveStep;
    assert Step(s, LoadSettles(0), cfg).cache.log[0].id == 0;
  }

  lemma Ends(s: World, cfg: Config)
    requires 0 in s.cache.flights && TC.Logged(s.cache.log, 0) && 0 in s.loads
    ensures var s' := Step(s, LoadEnds(0), cfg);
      s' == s.(cache := s'.cache, runs := Resume(s.runs, 0, s.loads[0].row))
  {
    hide TC.Step, TC.Logged, Resume, EnterStep, DecideStep, SaveStep;
  }

  /** The row has come back, active and with her epoch. */
  lemma Answered(cfg: Config) returns (s: World)
    ensures s == Step(Step(Step(Asking(cfg), Read(0), cfg), LoadSettles(0), cfg), LoadEnds(0), cfg)
    ensures s.runs == map[0 := Ended, 1 := Resumed("s", Ann(cfg), 0, Found(true, 0))]
    ensures s.now == 0 && s.sessions == SignedIn(cfg).sessions && s.born == SignedIn(cfg).born && s.passed == [] && s.admitted == []
  {
    Reads(cfg);
    var s1 := Asking(cfg).(loads := map[0 := Load("ann", 0, Some(Found(true, 0)))]);
    Settles(s1, cfg);
    var s2 := Step(s1, LoadSettles(0), cfg);
    hide Step, TC.Logged, TtlMs;
    Ends(s2, cfg);
    s := Step(s2, LoadEnds(0), cfg);
  }

  lemma Judges(s: World, cfg: Config)
    requires cfg.idleMs > 0 && cfg.absoluteMs > 0
    requires s.runs == map[0 := Ended, 1 := Resumed("s", Ann(cfg), 0, Found(true, 0))] && s.now == 0 && s.passed == []
    ensures Step(s, Decide(1), cfg) ==
      s.(runs := map[0 := Ended, 1 := Saving("s", Ann(cfg), TtlMs(Ann(cfg), 0, cfg), Some(0))], passed := [Pass(1, "s", "ann", 0, 0, 0)])
  {
    hide EnterStep, LoadEndsStep, SaveStep, CacheStep;
  }

  /** The verdict, the sign-out, and then the `touch` of that verdict. */
  lemma TouchesAfterSignOut(s: World, cfg: Config)
    requires cfg.idleMs > 0 && cfg.absoluteMs > 0
    requires s.runs == map[0 := Ended, 1 := Resumed("s", Ann(cfg), 0, Found(true, 0))] && s.now == 0 && s.passed == [] && s.admitted == []
    ensures var out := Step(Step(s, Decide(1), cfg), SignOut("s"), cfg);
      var back := Step(out, Save(1, Committed), cfg);
      && "s" !in out.sessions && out.born == s.born
      && Look(back.sessions, "s", back.now, cfg) == Live(Ann(cfg)) && back.admitted == [Admission(0, 0)]
  {
    Judges(s, cfg);
    var judged := s.(runs := map[0 := Ended, 1 := Saving("s", Ann(cfg), TtlMs(Ann(cfg), 0, cfg), Some(0))], passed := [Pass(1, "s", "ann", 0, 0, 0)]);
    var out := Step(judged, SignOut("s"), cfg);
    hide EnterStep, DecideStep, LoadEndsStep, CacheStep;
    assert out == judged.(sessions := judged.sessions - {"s"});
    assert Enabled(out, Save(1, Committed));
  }

  /** The comment on the guard says a revoked session ends at once. A run from an empty system in which
      it does not: a request is judged, its session is signed out, and the write of the request's `touch`
      stores the session again, live. */
  lemma {:induction false} TouchUndoesSignOut(cfg: Config) returns (actions: seq<Action>)
    requires cfg.idleMs > 0 && cfg.absoluteMs > 0
    ensures var out := RunAll(0, actions, cfg); "s" in out.born && "s" !in out.sessions
    ensures var back := RunAll(0, actions + [Save(1, Committed)], cfg);
      Look(back.sessions, "s", back.now, cfg) == Live(Ann(cfg)) && |back.admitted| == 1
  {
    var a0 := SignsIn(cfg);
    Asks(cfg);
    var s := Answered(cfg);
    TouchesAfterSignOut(s, cfg);
    hide Step, SignedIn, Asking;
    var a1 := a0 + [Enter(1, "s", true)];
    var a2 := a1 + [Read(0)];
    var a3 := a2 + [LoadSettles(0)];
    var a4 := a3 + [LoadEnds(0)];
    var a5 := a4 + [Decide(1)];
    actions := a5 + [SignOut("s")];
    RunSnoc(Start(0), a0, Enter(1, "s", true), cfg);
    RunSnoc(Start(0), a1, Read(0), cfg);
    RunSnoc(Start(0), a2, LoadSettles(0), cfg);
    RunSnoc(Start(0), a3, LoadEnds(0), cfg);
    RunSnoc(Start(0), a4, Decide(1), cfg);
    RunSnoc(Start(0), a5, SignOut("s"), cfg);
    RunSnoc(Start(0), actions, Save(1, Committed), cfg);
    assert "s" in s.born by { BornIn(cfg); }
  }

  lemma BornIn(cfg: Config)
    ensures "s" in SignedIn(cfg).born
  {
  }
}
