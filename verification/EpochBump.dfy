/** What bumping a staff member's epoch is worth: a request with the old epoch can still be judged
    favourably while some copy of the row from before the bump can be served. When that is, exactly,
    and two runs in which it happens. A sign-in may carry an old epoch too: the one it read before. */
module EpochBump {
  import opened Prelude
  import opened SessionStore
  import opened SessionGuard
  import opened SignOut
  import TC = TtlCache

  /** A verdict in favour of this member and epoch was added. */
  ghost predicate JudgesAgain(s: World, s': World, staffId: string, epoch: nat) {
    exists i :: |s.passed| <= i < |s'.passed| && s'.passed[i].staffId == staffId && s'.passed[i].epoch == epoch
  }

  /** Some continuation judges a request of this member with this epoch in its favour. */
  ghost predicate CanPass(s: World, staffId: string, epoch: nat, cfg: Config) {
    exists more :: JudgesAgain(s, RunFrom(s, more, cfg), staffId, epoch)
  }

  /** The row is cached and has not expired. */
  predicate Cached(s: World, staffId: string, epoch: nat) {
    TC.LookupOf(s.cache, staffId, s.now) == TC.Hit(Found(true, epoch))
  }

  /** A load in flight has read the row. */
  predicate ReadBy(s: World, id: nat, staffId: string, epoch: nat) {
    id in s.cache.flights && id in s.loads && s.loads[id].staffId == staffId && s.loads[id].row == Some(Found(true, epoch))
  }

  /** A request was resumed with the row, and its `touch` would not refuse. */
  predicate ResumedWith(s: World, run: Run, staffId: string, epoch: nat, cfg: Config) {
    && run.Resumed? && run.session.staffId == staffId && run.session.epoch == epoch
    && run.row == Found(true, epoch) && TtlMs(run.session, s.now, cfg) > 0
  }

  predicate LoadHasIt(s: World, staffId: string, epoch: nat) { exists id :: id in s.loads && ReadBy(s, id, staffId, epoch) }

  predicate RequestHasIt(s: World, staffId: string, epoch: nat, cfg: Config) {
    exists r :: r in s.runs && ResumedWith(s, s.runs[r], staffId, epoch, cfg)
  }

  /** Some copy of the row with this epoch can still be served. */
  predicate StillServed(s: World, staffId: string, epoch: nat, cfg: Config) {
    Cached(s, staffId, epoch) || LoadHasIt(s, staffId, epoch) || RequestHasIt(s, staffId, epoch, cfg)
  }

  /** The epoch was bumped away. */
  predicate BumpedAway(s: World, staffId: string, epoch: nat) {
    staffId in s.staff && epoch < |s.staff[staffId].bumps|
  }

  // ------------------------------------------------------------ forgotten is forgotten

  /** No copy is added by a step, and no verdict. */
  ghost predicate Forgets(s: World, s': World, staffId: string, epoch: nat, cfg: Config) {
    && BumpedAway(s', staffId, epoch) && !JudgesAgain(s, s', staffId, epoch)
    && (StillServed(s', staffId, epoch, cfg) ==> StillServed(s, staffId, epoch, cfg))
  }

  /** Where a copy can be found now, one could be found before. */
  ghost predicate CopiesWere(s: World, s': World, staffId: string, epoch: nat, cfg: Config) {
    && (Cached(s', staffId, epoch) ==> Cached(s, staffId, epoch) || LoadHasIt(s, staffId, epoch))
    && (forall id :: id in s'.loads && ReadBy(s', id, staffId, epoch) ==> id in s.loads && ReadBy(s, id, staffId, epoch))
    && (forall r :: r in s'.runs && ResumedWith(s', s'.runs[r], staffId, epoch, cfg) ==>
          (r in s.runs && ResumedWith(s, s.runs[r], staffId, epoch, cfg)) || LoadHasIt(s, staffId, epoch))
  }

  lemma NoNewCopy(s: World, s': World, staffId: string, epoch: nat, cfg: Config)
    requires CopiesWere(s, s', staffId, epoch, cfg) && BumpedAway(s', staffId, epoch) && !JudgesAgain(s, s', staffId, epoch)
    ensures Forgets(s, s', staffId, epoch, cfg)
  {
    hide Cached, ReadBy, ResumedWith, BumpedAway, JudgesAgain;
  }

  ghost predicate Forgotten(s: World, staffId: string, epoch: nat, cfg: Config) {
    BumpedAway(s, staffId, epoch) && !StillServed(s, staffId, epoch, cfg)
  }

  lemma DecideForgets(s: World, r: nat, sid: string, x: Session, entered: int, row: StaffRow, staffId: string, epoch: nat, cfg: Config)
    requires BumpedAway(s, staffId, epoch)
    requires x.staffId == staffId && x.epoch == epoch ==> row != Found(true, epoch) || TtlMs(x, s.now, cfg) <= 0
    ensures Forgets(s, DecideStep(s, r, sid, x, entered, row, cfg), staffId, epoch, cfg)
  {
    var s' := DecideStep(s, r, sid, x, entered, row, cfg);
    VerdictMovesNoLoad(s, r, sid, x, entered, row, cfg);
    assert s'.runs == s.runs[r := s'.runs[r]] && !s'.runs[r].Resumed? by { hide TC.Step; }
    VerdictServesNothing(s, r, sid, x, entered, row, staffId, cfg);
    VerdictOnRow(s, r, sid, x, entered, row, cfg);
    hide DecideStep, TC.LookupOf, TtlMs;
    SameRest(s, s', r, staffId, epoch, cfg);
  }

  lemma VerdictServesNothing(s: World, r: nat, sid: string, x: Session, entered: int, row: StaffRow, key: string, cfg: Config)
    ensures var s' := DecideStep(s, r, sid, x, entered, row, cfg);
      TC.LookupOf(s'.cache, key, s.now).Hit? ==> TC.LookupOf(s'.cache, key, s.now) == TC.LookupOf(s.cache, key, s.now)
  {
  }

  lemma VerdictOnRow(s: World, r: nat, sid: string, x: Session, entered: int, row: StaffRow, cfg: Config)
    ensures var s' := DecideStep(s, r, sid, x, entered, row, cfg);
      s'.passed == s.passed || (row == Found(true, x.epoch) && TtlMs(x, s.now, cfg) > 0
                                && s'.passed == s.passed + [Pass(r, sid, x.staffId, x.epoch, entered, s.now)])
  {
    hide TC.Step;
  }

  /** Loads, staff and clock as before, one run moved, and it was not resumed. */
  lemma SameRest(s: World, s': World, r: nat, staffId: string, epoch: nat, cfg: Config)
    requires BumpedAway(s, staffId, epoch) && NoLoadMoved(s, s')
    requires r in s'.runs && s'.runs == s.runs[r := s'.runs[r]] && !s'.runs[r].Resumed?
    requires Cached(s', staffId, epoch) ==> Cached(s, staffId, epoch)
    requires s'.passed == s.passed
      || exists p: Pass :: s'.passed == s.passed + [p] && (p.staffId != staffId || p.epoch != epoch)
    ensures Forgets(s, s', staffId, epoch, cfg)
  {
    NoNewCopy(s, s', staffId, epoch, cfg);
  }

  lemma AskForgets(s: World, r: nat, sid: string, x: Session, staffId: string, epoch: nat, cfg: Config)
    requires Forgotten(s, staffId, epoch, cfg) && LoadsOk(s)
    ensures Forgets(s, AskStaff(s, r, sid, x, cfg), staffId, epoch, cfg)
  {
    var l := TC.LookupOf(s.cache, x.staffId, s.now);
    if l.Hit? {
      DecideForgets(s, r, sid, x, s.now, l.value, staffId, epoch, cfg);
      hide DecideStep, StillServed, Forgets;
    } else if l.Join? {
      SameRest(s, AskStaff(s, r, sid, x, cfg), r, staffId, epoch, cfg);
    } else {
      NewLoadForgets(s, r, sid, x, staffId, epoch, cfg);
      hide StillServed, Forgets;
    }
  }

  lemma NewLoadForgets(s: World, r: nat, sid: string, x: Session, staffId: string, epoch: nat, cfg: Config)
    requires BumpedAway(s, staffId, epoch) && TC.LookupOf(s.cache, x.staffId, s.now).Load?
    ensures Forgets(s, AskStaff(s, r, sid, x, cfg), staffId, epoch, cfg)
  {
    var s' := AskStaff(s, r, sid, x, cfg);
    assert s'.cache.entries == s.cache.entries && s'.now == s.now;
    CacheFrame(s.cache, TC.Get(x.staffId, s.now));
    hide TC.Step;
    NoNewCopy(s, s', staffId, epoch, cfg);
  }

  lemma EnterForgets(s: World, r: nat, sid: string, csrfOk: bool, staffId: string, epoch: nat, cfg: Config)
    requires Forgotten(s, staffId, epoch, cfg) && LoadsOk(s)
    ensures Forgets(s, EnterStep(s, r, sid, csrfOk, cfg), staffId, epoch, cfg)
  {
    var l := Look(s.sessions, sid, s.now, cfg);
    if l.Live? && l.session.mfaVerified && csrfOk {
      AskForgets(s, r, sid, l.session, staffId, epoch, cfg);
      hide AskStaff, Forgets;
    } else {
      hide AskStaff, Look, TC.LookupOf;
      SameRest(s, EnterStep(s, r, sid, csrfOk, cfg), r, staffId, epoch, cfg);
    }
  }

  /** What is served after a load has settled was served before, or is what it brought. */
  lemma SettledServes(c: TC.Cache<StaffRow>, id: nat, row: StaffRow, key: string, now: int)
    requires TC.Enabled(c, TC.Settle(id, row, now))
    ensures var l := TC.LookupOf(TC.Step(c, TC.Settle(id, row, now), STAFF_TTL_MS, STAFF_MAX), key, now);
      && (key == c.flights[id] ==> l == TC.Hit(row))
      && (key != c.flights[id] && l.Hit? ==> l == TC.LookupOf(c, key, now))
  {
  }

  lemma SettleForgets(s: World, id: nat, staffId: string, epoch: nat, cfg: Config)
    requires BumpedAway(s, staffId, epoch) && LoadsOk(s) && Enabled(s, LoadSettles(id))
    ensures Forgets(s, Step(s, LoadSettles(id), cfg), staffId, epoch, cfg)
  {
    var s' := Step(s, LoadSettles(id), cfg);
    var row := s.loads[id].row.value;
    CacheFrame(s.cache, TC.Settle(id, row, s.now));
    SettledServes(s.cache, id, row, staffId, s.now);
    assert s' == CacheStep(s, TC.Settle(id, row, s.now)) by { hide CacheStep; }
    hide Step, TC.Step, TC.LookupOf;
    assert staffId == s.cache.flights[id] && row == Found(true, epoch) ==> ReadBy(s, id, staffId, epoch);
    NoNewCopy(s, s', staffId, epoch, cfg);
  }

  /** Whoever goes on with the row got it from a load in flight. */
  lemma ResumedFromLoad(s: World, id: nat, q: nat, staffId: string, epoch: nat, cfg: Config)
    requires Inv(s, cfg) && Enabled(s, LoadEnds(id)) && q in s.runs
    ensures var s' := LoadEndsStep(s, id);
      q in s'.runs && (ResumedWith(s', s'.runs[q], staffId, epoch, cfg) ==>
        ResumedWith(s, s.runs[q], staffId, epoch, cfg) || ReadBy(s, id, staffId, epoch))
  {
    assert RunOk(s, s.runs[q], cfg);
    hide Inv, TC.Step, TC.Logged, Genuine, EnteredOk, SessionGuard.Served, TtlMs;
  }

  lemma LoadEndsFrame(s: World, id: nat)
    requires id in s.loads && TC.Enabled(s.cache, TC.Finally(id))
    ensures var s' := LoadEndsStep(s, id);
      && s'.cache.entries == s.cache.entries && s'.now == s.now && s'.loads == s.loads && s'.staff == s.staff && s'.passed == s.passed
      && s'.runs.Keys == s.runs.Keys && forall l :: l in s'.cache.flights ==> l in s.cache.flights
  {
    hide TC.Logged;
  }

  lemma FewerFlights(s: World, s': World, staffId: string, epoch: nat)
    requires s'.cache.entries == s.cache.entries && s'.now == s.now && s'.loads == s.loads
    requires forall l :: l in s'.cache.flights ==> l in s.cache.flights
    ensures Cached(s', staffId, epoch) <==> Cached(s, staffId, epoch)
    ensures forall id :: id in s'.loads && ReadBy(s', id, staffId, epoch) ==> id in s.loads && ReadBy(s, id, staffId, epoch)
  {
  }

  lemma LoadEndsForgets(s: World, id: nat, staffId: string, epoch: nat, cfg: Config)
    requires BumpedAway(s, staffId, epoch) && Inv(s, cfg) && Enabled(s, LoadEnds(id))
    ensures Forgets(s, LoadEndsStep(s, id), staffId, epoch, cfg)
  {
    var s' := LoadEndsStep(s, id);
    LoadEndsFrame(s, id);
    hide LoadEndsStep, ResumedWith, Inv, CacheStep;
    FewerFlights(s, s', staffId, epoch);
    hide Cached, ReadBy;
    forall q | q in s'.runs
      ensures ResumedWith(s', s'.runs[q], staffId, epoch, cfg) ==>
        ResumedWith(s, s.runs[q], staffId, epoch, cfg) || LoadHasIt(s, staffId, epoch)
    {
      ResumedFromLoad(s, id, q, staffId, epoch, cfg);
    }
    NoNewCopy(s, s', staffId, epoch, cfg);
  }

  lemma ClockAndStaffForget(s: World, a: Action, staffId: string, epoch: nat, cfg: Config)
    requires BumpedAway(s, staffId, epoch) && Enabled(s, a)
    requires a.Tick? || a.Hire? || a.Bump? || a.SetActive? || a.Read? || a.SignOut?
    ensures Forgets(s, Step(s, a, cfg), staffId, epoch, cfg)
  {
    var s' := Step(s, a, cfg);
    hide EnterStep, DecideStep, LoadEndsStep, CacheStep, SaveStep, FetchStep, Persist;
    assert s'.cache == s.cache && s'.runs == s.runs && s'.passed == s.passed && s.now <= s'.now;
    assert Cached(s', staffId, epoch) ==> Cached(s, staffId, epoch);
    NoNewCopy(s, s', staffId, epoch, cfg);
  }

  /** One run moved, and it was not resumed; the verdicts and everything about the staff stayed. */
  ghost predicate QuietlyMoved(s: World, s': World, r: nat) {
    && s'.cache == s.cache && s'.passed == s.passed && NoLoadMoved(s, s')
    && r in s'.runs && s'.runs == s.runs[r := s'.runs[r]] && !s'.runs[r].Resumed?
  }

  lemma PersistMovesQuietly(s: World, r: nat, sid: string, x: Session, pass: Option<nat>, cfg: Config)
    ensures QuietlyMoved(s, Persist(s, r, sid, x, pass, cfg), r)
  {
    hide TtlMs;
  }

  lemma FetchMovesQuietly(s: World, r: nat, sid: string, cfg: Config)
    ensures QuietlyMoved(s, FetchStep(s, r, sid, cfg), r)
  {
    hide Look;
  }

  lemma SaveMovesQuietly(s: World, r: nat, write: Write)
    requires r in s.runs && s.runs[r].Saving?
    ensures QuietlyMoved(s, SaveStep(s, r, s.runs[r], write), r)
  {
  }

  lemma SessionActionMovesQuietly(s: World, a: Action, cfg: Config)
    requires Enabled(s, a) && (a.Login? || a.Fetch? || a.Update? || a.Save? || a.Revoke?)
    ensures QuietlyMoved(s, Step(s, a, cfg), a.r)
  {
    hide Persist, EnterStep, DecideStep, LoadEndsStep, CacheStep, Look, TtlMs, Minted, FetchStep, SaveStep, Quiet;
    match a
    case Login(r, sid, staffId, epoch, mfaVerified) =>
      PersistMovesQuietly(s.(born := s.born[sid := Birth(staffId, epoch, s.now)]), r, sid,
        Minted(staffId, epoch, mfaVerified, s.now, cfg), None, cfg);
    case Update(r, mfaVerified) =>
      PersistMovesQuietly(s, r, s.runs[r].sid, s.runs[r].session.(mfaVerified := mfaVerified), None, cfg);
    case Fetch(r, sid) => FetchMovesQuietly(s, r, sid, cfg);
    case Save(r, write) => SaveMovesQuietly(s, r, write);
    case Revoke(_) =>
  }

  lemma SessionActionForgets(s: World, a: Action, staffId: string, epoch: nat, cfg: Config)
    requires BumpedAway(s, staffId, epoch) && Enabled(s, a)
    requires a.Login? || a.Fetch? || a.Update? || a.Save? || a.Revoke?
    ensures Forgets(s, Step(s, a, cfg), staffId, epoch, cfg)
  {
    SessionActionMovesQuietly(s, a, cfg);
    hide Step, Forgets, Enabled;
    SameRest(s, Step(s, a, cfg), a.r, staffId, epoch, cfg);
  }

  lemma StepForgets(s: World, a: Action, staffId: string, epoch: nat, cfg: Config)
    requires Forgotten(s, staffId, epoch, cfg) && Inv(s, cfg)
    ensures Forgets(s, Step(s, a, cfg), staffId, epoch, cfg)
  {
    hide StillServed;
    if !Enabled(s, a) { return; }
    match a
    case Enter(r, sid, csrfOk) => EnterForgets(s, r, sid, csrfOk, staffId, epoch, cfg); hide EnterStep, Forgets, Quiet;
    case Decide(r) =>
      NotResumedWith(s, r, staffId, epoch, cfg);
      DecideForgets(s, r, s.runs[r].sid, s.runs[r].session, s.runs[r].entered, s.runs[r].row, staffId, epoch, cfg);
      hide DecideStep, Forgets;
    case LoadSettles(id) => SettleForgets(s, id, staffId, epoch, cfg); hide Step, Forgets;
    case LoadEnds(id) => LoadEndsForgets(s, id, staffId, epoch, cfg); hide LoadEndsStep, Forgets;
    case Login(_, _, _, _, _) => SessionActionForgets(s, a, staffId, epoch, cfg); hide Step, Forgets;
    case Fetch(_, _) => SessionActionForgets(s, a, staffId, epoch, cfg); hide Step, Forgets;
    case Update(_, _) => SessionActionForgets(s, a, staffId, epoch, cfg); hide Step, Forgets;
    case Save(_, _) => SessionActionForgets(s, a, staffId, epoch, cfg); hide Step, Forgets;
    case Revoke(_) => SessionActionForgets(s, a, staffId, epoch, cfg); hide Step, Forgets;
    case _ => ClockAndStaffForget(s, a, staffId, epoch, cfg); hide Step, Forgets;
  }

  lemma NotResumedWith(s: World, r: nat, staffId: string, epoch: nat, cfg: Config)
    requires Forgotten(s, staffId, epoch, cfg) && r in s.runs && s.runs[r].Resumed?
    ensures var run := s.runs[r];
      run.session.staffId == staffId && run.session.epoch == epoch ==> run.row != Found(true, epoch) || TtlMs(run.session, s.now, cfg) <= 0
  {
    assert !ResumedWith(s, s.runs[r], staffId, epoch, cfg);
  }

  lemma {:induction false} ForgottenForGood(s: World, more: seq<Action>, staffId: string, epoch: nat, cfg: Config)
    requires Inv(s, cfg) && Forgotten(s, staffId, epoch, cfg)
    ensures var s' := RunFrom(s, more, cfg);
      && Forgotten(s', staffId, epoch, cfg) && s.passed <= s'.passed && !JudgesAgain(s, s', staffId, epoch)
    decreases |more|
  {
    if more != [] {
      var init := more[..|more| - 1];
      ForgottenForGood(s, init, staffId, epoch, cfg);
      RunFromKeepsInv(s, init, cfg);
      hide Inv, Step, StillServed, BumpedAway;
      StepForgets(RunFrom(s, init, cfg), more[|more| - 1], staffId, epoch, cfg);
      PassesStay(RunFrom(s, init, cfg), more[|more| - 1], cfg);
    }
  }

  // ------------------------------------------------------------ a copy can be served

  lemma CanPassAfter(s: World, a: Action, staffId: string, epoch: nat, cfg: Config)
    requires Inv(s, cfg) && CanPass(Step(s, a, cfg), staffId, epoch, cfg)
    ensures CanPass(s, staffId, epoch, cfg)
  {
    PassesStay(s, a, cfg);
    hide Step, Inv;
    var more :| JudgesAgain(Step(s, a, cfg), RunFrom(Step(s, a, cfg), more, cfg), staffId, epoch);
    RunPrepend(s, a, more, cfg);
    assert JudgesAgain(s, RunFrom(s, [a] + more, cfg), staffId, epoch);
  }

  lemma PassesNow(s: World, a: Action, staffId: string, epoch: nat, cfg: Config)
    requires Inv(s, cfg) && JudgesAgain(s, Step(s, a, cfg), staffId, epoch)
    ensures CanPass(s, staffId, epoch, cfg)
  {
    hide Step, Inv;
    RunPrepend(s, a, [], cfg);
    assert RunFrom(Step(s, a, cfg), [], cfg) == Step(s, a, cfg);
    assert JudgesAgain(s, RunFrom(s, [a] + [], cfg), staffId, epoch);
  }

  lemma ResumedPasses(s: World, r: nat, staffId: string, epoch: nat, cfg: Config)
    requires Inv(s, cfg) && r in s.runs && ResumedWith(s, s.runs[r], staffId, epoch, cfg)
    ensures CanPass(s, staffId, epoch, cfg)
  {
    var s' := Step(s, Decide(r), cfg);
    assert s'.passed == s.passed + [Pass(r, s.runs[r].sid, staffId, epoch, s.runs[r].entered, s.now)] by { hide CacheStep, Inv; }
    assert s'.passed[|s.passed|].staffId == staffId && s'.passed[|s.passed|].epoch == epoch;
    hide Step, Inv;
    PassesNow(s, Decide(r), staffId, epoch, cfg);
  }

  lemma {:induction false} UnusedText(taken: set<string>) returns (text: string)
    ensures text !in taken && forall k :: k in taken ==> |k| < |text|
    decreases taken
  {
    if taken == {} {
      text := "s";
    } else {
      var k :| k in taken;
      var above := UnusedText(taken - {k});
      text := above + k + "s";
      assert forall j :: j in taken ==> j == k || j in taken - {k};
    }
  }

  /** A verified session of the member, stored and live, and two numbers for new requests. */
  ghost predicate Stands(s: World, r: nat, sid: string, x: Session, staffId: string, epoch: nat, cfg: Config) {
    && r !in s.runs && Look(s.sessions, sid, s.now, cfg) == Live(x) && x.mfaVerified
    && x.staffId == staffId && x.epoch == epoch && TtlMs(x, s.now, cfg) > 0
  }

  /** Signing in leaves cache, loads, staff and verdicts alone. */
  ghost predicate OnlySignedIn(s: World, s': World) {
    s'.cache == s.cache && s'.loads == s.loads && s'.staff == s.staff && s'.now == s.now && s'.passed == s.passed
  }

  lemma SignInStands(s: World, r: nat, sid: string, staffId: string, epoch: nat, cfg: Config)
    requires cfg.idleMs > 0 && cfg.absoluteMs > 0 && r !in s.runs && r + 1 !in s.runs && sid !in s.born
    ensures var s' := Step(Step(s, Login(r, sid, staffId, epoch, true), cfg), Save(r, Committed), cfg);
      OnlySignedIn(s, s') && Stands(s', r + 1, sid, Minted(staffId, epoch, true, s.now, cfg), staffId, epoch, cfg)
  {
    hide EnterStep, DecideStep, LoadEndsStep, CacheStep, FetchStep, Quiet;
    var x := Minted(staffId, epoch, true, s.now, cfg);
    var s1 := Step(s, Login(r, sid, staffId, epoch, true), cfg);
    assert s1 == s.(born := s.born[sid := Birth(staffId, epoch, s.now)], runs := s.runs[r := Saving(sid, x, TtlMs(x, s.now, cfg), None)]);
    assert Step(s1, Save(r, Committed), cfg) == SaveStep(s1, r, s1.runs[r], Committed);
  }

  /** Whatever can be done with such a session can be done from here. */
  lemma SignsInFirst(s: World, staffId: string, epoch: nat, cfg: Config) returns (s': World, r: nat, sid: string, x: Session)
    requires Inv(s, cfg) && cfg.idleMs > 0 && cfg.absoluteMs > 0
    ensures Inv(s', cfg) && OnlySignedIn(s, s') && Stands(s', r, sid, x, staffId, epoch, cfg)
    ensures CanPass(s', staffId, epoch, cfg) ==> CanPass(s, staffId, epoch, cfg)
  {
    hide Step, Inv, CanPass, Stands;
    var q := UnusedNat(s.runs.Keys);
    sid := UnusedText(s.born.Keys);
    var login, save := Login(q, sid, staffId, epoch, true), Save(q, Committed);
    SignInStands(s, q, sid, staffId, epoch, cfg);
    StepKeepsInv(s, login, cfg);
    StepKeepsInv(Step(s, login, cfg), save, cfg);
    s', r, x := Step(Step(s, login, cfg), save, cfg), q + 1, Minted(staffId, epoch, true, s.now, cfg);
    if CanPass(s', staffId, epoch, cfg) {
      CanPassAfter(Step(s, login, cfg), save, staffId, epoch, cfg);
      CanPassAfter(s, login, staffId, epoch, cfg);
    }
  }

  /** With the row cached, a request of such a session is judged in its favour at once. */
  lemma HitJudges(s: World, r: nat, sid: string, x: Session, cfg: Config)
    requires Stands(s, r, sid, x, x.staffId, x.epoch, cfg) && Cached(s, x.staffId, x.epoch)
    ensures Step(s, Enter(r, sid, true), cfg) ==
      Goto(s, r, Saving(sid, x.(lastSeenAt := s.now), TtlMs(x, s.now, cfg), Some(|s.passed|)))
        .(passed := s.passed + [Pass(r, sid, x.staffId, x.epoch, s.now, s.now)])
  {
    hide TC.Step, TC.LookupOf, LoadEndsStep, FetchStep, SaveStep, Quiet;
  }

  lemma CachedPasses(s: World, staffId: string, epoch: nat, cfg: Config)
    requires Inv(s, cfg) && cfg.idleMs > 0 && cfg.absoluteMs > 0 && Cached(s, staffId, epoch)
    ensures CanPass(s, staffId, epoch, cfg)
  {
    hide Inv, Step;
    var s1, r, sid, x := SignsInFirst(s, staffId, epoch, cfg);
    HitJudges(s1, r, sid, x, cfg);
    var s2 := Step(s1, Enter(r, sid, true), cfg);
    assert s2.passed[|s1.passed|] == Pass(r, sid, staffId, epoch, s1.now, s1.now);
    assert JudgesAgain(s1, s2, staffId, epoch);
    hide CanPass;
    PassesNow(s1, Enter(r, sid, true), staffId, epoch, cfg);
  }

  lemma UnsettledPasses(s: World, id: nat, staffId: string, epoch: nat, cfg: Config)
    requires Inv(s, cfg) && cfg.idleMs > 0 && cfg.absoluteMs > 0
    requires ReadBy(s, id, staffId, epoch) && !TC.Logged(s.cache.log, id)
    ensures CanPass(s, staffId, epoch, cfg)
  {
    SettledServes(s.cache, id, Found(true, epoch), staffId, s.now);
    var s1 := Step(s, LoadSettles(id), cfg);
    assert Cached(s1, staffId, epoch) by { hide TC.Step, TC.LookupOf, TC.Logged; }
    StepKeepsInv(s, LoadSettles(id), cfg);
    hide Inv, Step, Cached;
    CachedPasses(s1, staffId, epoch, cfg);
    CanPassAfter(s, LoadSettles(id), staffId, epoch, cfg);
  }

  /** Its load has settled and is about to end, and nothing is cached: a request joins it, and goes on
      with its row. */
  lemma JoinsAndResumes(s: World, r: nat, sid: string, x: Session, id: nat, cfg: Config)
    requires Inv(s, cfg) && Stands(s, r, sid, x, x.staffId, x.epoch, cfg)
    requires ReadBy(s, id, x.staffId, x.epoch) && TC.Logged(s.cache.log, id) && !TC.LookupOf(s.cache, x.staffId, s.now).Hit?
    ensures var s' := Step(Step(s, Enter(r, sid, true), cfg), LoadEnds(id), cfg);
      r in s'.runs && ResumedWith(s', s'.runs[r], x.staffId, x.epoch, cfg)
  {
    JoinsTheFlight(s, id, x.staffId, x.epoch, cfg);
    hide Inv, TC.LookupOf, TC.Logged, LoadEndsStep, Step, Look;
    EntersWaiting(s, r, sid, x, id, cfg);
    var s1 := Goto(s, r, Waiting(sid, x, s.now, id));
    EndingStep(s1, id, cfg);
    WaiterResumes(s1, r, id, cfg);
  }

  lemma EndingStep(s: World, id: nat, cfg: Config)
    requires id in s.cache.flights && id in s.loads
    ensures Step(s, LoadEnds(id), cfg) == LoadEndsStep(s, id)
  {
    hide EnterStep, DecideStep, LoadEndsStep, CacheStep, SaveStep, FetchStep, Persist, Quiet;
  }

  lemma JoinsTheFlight(s: World, id: nat, staffId: string, epoch: nat, cfg: Config)
    requires Inv(s, cfg) && ReadBy(s, id, staffId, epoch) && !TC.LookupOf(s.cache, staffId, s.now).Hit?
    ensures TC.LookupOf(s.cache, staffId, s.now) == TC.Join(id)
  {
  }

  lemma EntersWaiting(s: World, r: nat, sid: string, x: Session, id: nat, cfg: Config)
    requires Stands(s, r, sid, x, x.staffId, x.epoch, cfg) && TC.LookupOf(s.cache, x.staffId, s.now) == TC.Join(id)
    ensures Step(s, Enter(r, sid, true), cfg) == Goto(s, r, Waiting(sid, x, s.now, id))
  {
    hide TC.Step, TC.LookupOf, LoadEndsStep, FetchStep, SaveStep, DecideStep, Quiet, Look, TtlMs;
  }

  lemma WaiterResumes(s: World, r: nat, id: nat, cfg: Config)
    requires r in s.runs && s.runs[r].Waiting? && s.runs[r].load == id && TtlMs(s.runs[r].session, s.now, cfg) > 0
    requires ReadBy(s, id, s.runs[r].session.staffId, s.runs[r].session.epoch) && TC.Logged(s.cache.log, id)
    ensures var s' := LoadEndsStep(s, id);
      r in s'.runs && ResumedWith(s', s'.runs[r], s.runs[r].session.staffId, s.runs[r].session.epoch, cfg)
  {
    hide TC.Step, TC.Logged, TtlMs;
  }

  lemma UncachedPasses(s: World, id: nat, staffId: string, epoch: nat, cfg: Config)
    requires Inv(s, cfg) && cfg.idleMs > 0 && cfg.absoluteMs > 0
    requires ReadBy(s, id, staffId, epoch) && TC.Logged(s.cache.log, id) && !TC.LookupOf(s.cache, staffId, s.now).Hit?
    ensures CanPass(s, staffId, epoch, cfg)
  {
    hide Inv, Step, CanPass, TC.LookupOf, TC.Logged, ResumedWith;
    var s1, r, sid, x := SignsInFirst(s, staffId, epoch, cfg);
    var enter := Enter(r, sid, true);
    JoinsAndResumes(s1, r, sid, x, id, cfg);
    StepKeepsInv(s1, enter, cfg);
    StepKeepsInv(Step(s1, enter, cfg), LoadEnds(id), cfg);
    ResumedPasses(Step(Step(s1, enter, cfg), LoadEnds(id), cfg), r, staffId, epoch, cfg);
    CanPassAfter(Step(s1, enter, cfg), LoadEnds(id), staffId, epoch, cfg);
    CanPassAfter(s1, enter, staffId, epoch, cfg);
  }

  /** Another row is cached: the request is turned away, and drops it. */
  lemma RejectionDrops(s: World, r: nat, sid: string, x: Session, id: nat, cfg: Config)
    requires Stands(s, r, sid, x, x.staffId, x.epoch, cfg) && !Cached(s, x.staffId, x.epoch)
    requires TC.LookupOf(s.cache, x.staffId, s.now).Hit? && ReadBy(s, id, x.staffId, x.epoch) && TC.Logged(s.cache.log, id)
    ensures var s' := Step(s, Enter(r, sid, true), cfg);
      && ReadBy(s', id, x.staffId, x.epoch) && TC.Logged(s'.cache.log, id) && !TC.LookupOf(s'.cache, x.staffId, s'.now).Hit?
  {
    var s' := Step(s, Enter(r, sid, true), cfg);
    var row := TC.LookupOf(s.cache, x.staffId, s.now).value;
    hide LoadEndsStep, FetchStep, SaveStep, Quiet, TC.Logged;
    assert s' == Goto(CacheStep(s, TC.Delete(x.staffId)), r, Revoking(sid)) by { hide CacheStep; }
    CacheFrame(s.cache, TC.Delete(x.staffId));
  }

  lemma SettledPasses(s: World, id: nat, staffId: string, epoch: nat, cfg: Config)
    requires Inv(s, cfg) && cfg.idleMs > 0 && cfg.absoluteMs > 0
    requires ReadBy(s, id, staffId, epoch) && TC.Logged(s.cache.log, id)
    ensures CanPass(s, staffId, epoch, cfg)
  {
    if Cached(s, staffId, epoch) {
      CachedPasses(s, staffId, epoch, cfg);
    } else if TC.LookupOf(s.cache, staffId, s.now).Hit? {
      hide Inv, Step, CanPass, TC.LookupOf, TC.Logged;
      var s1, r, sid, x := SignsInFirst(s, staffId, epoch, cfg);
      var enter := Enter(r, sid, true);
      RejectionDrops(s1, r, sid, x, id, cfg);
      StepKeepsInv(s1, enter, cfg);
      UncachedPasses(Step(s1, enter, cfg), id, staffId, epoch, cfg);
      CanPassAfter(s1, enter, staffId, epoch, cfg);
    } else {
      UncachedPasses(s, id, staffId, epoch, cfg);
    }
  }

  lemma ServedPasses(s: World, staffId: string, epoch: nat, cfg: Config)
    requires Inv(s, cfg) && cfg.idleMs > 0 && cfg.absoluteMs > 0 && StillServed(s, staffId, epoch, cfg)
    ensures CanPass(s, staffId, epoch, cfg)
  {
    hide Inv, Cached, CanPass, ResumedWith, ReadBy, TC.Logged;
    if Cached(s, staffId, epoch) {
      CachedPasses(s, staffId, epoch, cfg);
    } else if RequestHasIt(s, staffId, epoch, cfg) {
      var r :| r in s.runs && ResumedWith(s, s.runs[r], staffId, epoch, cfg);
      ResumedPasses(s, r, staffId, epoch, cfg);
    } else {
      var id :| id in s.loads && ReadBy(s, id, staffId, epoch);
      if TC.Logged(s.cache.log, id) { SettledPasses(s, id, staffId, epoch, cfg); }
      else { UnsettledPasses(s, id, staffId, epoch, cfg); }
    }
  }

  /** An epoch that was bumped away can still be judged in favour of exactly while its row is cached and
      fresh, has been read by a load in flight, or was handed to a request about to be judged. */
  lemma {:induction false} OldEpochPassesExactlyWhen(now: int, actions: seq<Action>, staffId: string, epoch: nat, cfg: Config)
    requires cfg.idleMs > 0 && cfg.absoluteMs > 0 && BumpedAway(RunAll(now, actions, cfg), staffId, epoch)
    ensures var s := RunAll(now, actions, cfg); CanPass(s, staffId, epoch, cfg) <==> StillServed(s, staffId, epoch, cfg)
  {
    var s := RunAll(now, actions, cfg);
    ReachableInv(now, actions, cfg);
    hide RunAll, RunFrom, Inv, StillServed, JudgesAgain;
    if StillServed(s, staffId, epoch, cfg) {
      ServedPasses(s, staffId, epoch, cfg);
    } else {
      forall more ensures !JudgesAgain(s, RunFrom(s, more, cfg), staffId, epoch) {
        ForgottenForGood(s, more, staffId, epoch, cfg);
      }
    }
  }

  // ------------------------------------------------------------ two runs in which it happens

  lemma Bumps(s: World, staffId: string, cfg: Config)
    requires staffId in s.staff
    ensures Step(s, Bump(staffId), cfg) == s.(staff := s.staff[staffId := s.staff[staffId].(bumps := s.staff[staffId].bumps + [s.now])])
  {
    hide EnterStep, DecideStep, LoadEndsStep, CacheStep, SaveStep, FetchStep, Persist;
  }

  lemma Ticks(s: World, to: int, cfg: Config)
    requires s.now <= to && Quiet(s)
    ensures Step(s, Tick(to), cfg) == s.(now := to)
  {
    hide EnterStep, DecideStep, LoadEndsStep, CacheStep, SaveStep, FetchStep, Persist, Quiet;
  }

  /** A verdict in favour and the acknowledged write of its `touch`. */
  lemma JudgedAndTouched(s: World, r: nat, sid: string, x: Session, entered: int, cfg: Config)
    requires r in s.runs && s.runs[r] == Resumed(sid, x, entered, Found(true, x.epoch)) && TtlMs(x, s.now, cfg) > 0
    ensures var s' := Step(Step(s, Decide(r), cfg), Save(r, Committed), cfg);
      s' == s.(passed := s.passed + [Pass(r, sid, x.staffId, x.epoch, entered, s.now)],
               admitted := s.admitted + [Admission(|s.passed|, s.now)], runs := s.runs[r := Ended],
               sessions := s.sessions[sid := Stored(x.(lastSeenAt := s.now), s.now + TtlMs(x, s.now, cfg))])
  {
    Judged(s, r, sid, x, entered, cfg);
    hide EnterStep, LoadEndsStep, CacheStep, FetchStep, Quiet, DecideStep, TtlMs, Persist;
    var judged := Step(s, Decide(r), cfg);
    assert Step(judged, Save(r, Committed), cfg) == SaveStep(judged, r, judged.runs[r], Committed);
  }

  lemma Judged(s: World, r: nat, sid: string, x: Session, entered: int, cfg: Config)
    requires r in s.runs && s.runs[r] == Resumed(sid, x, entered, Found(true, x.epoch)) && TtlMs(x, s.now, cfg) > 0
    ensures Step(s, Decide(r), cfg) ==
      Goto(s, r, Saving(sid, x.(lastSeenAt := s.now), TtlMs(x, s.now, cfg), Some(|s.passed|)))
        .(passed := s.passed + [Pass(r, sid, x.staffId, x.epoch, entered, s.now)])
  {
    hide EnterStep, LoadEndsStep, CacheStep, FetchStep, SaveStep, Quiet;
  }

  /** The query has read Ann's row, her epoch is bumped, and time passes before the answer arrives. */
  function ReadBeforeTheBump(cfg: Config, delay: int): World {
    Asking(cfg).(loads := map[0 := Load("ann", 0, Some(Found(true, 0)))], staff := map["ann" := Staff(true, [0], 0)], now := delay)
  }

  lemma ReadsThenBumped(cfg: Config, delay: int)
    requires 0 <= delay
    ensures Step(Step(Step(Asking(cfg), Read(0), cfg), Bump("ann"), cfg), Tick(delay), cfg) == ReadBeforeTheBump(cfg, delay)
  {
    Reads(cfg);
    var read := Asking(cfg).(loads := map[0 := Load("ann", 0, Some(Found(true, 0)))]);
    Bumps(read, "ann", cfg);
    assert read.staff == map["ann" := Staff(true, [], 0)] && read.now == 0;
    assert read.staff["ann"].bumps + [read.now] == [0];
    var bumped := read.(staff := map["ann" := Staff(true, [0], 0)]);
    hide Step, TtlMs;
    assert Quiet(bumped);
    Ticks(bumped, delay, cfg);
  }

  /** Its answer settles and ends, and the request is let through. */
  lemma AnswersLate(cfg: Config, delay: int)
    requires cfg.idleMs > 0 && 0 <= delay < cfg.absoluteMs
    ensures var s := Step(Step(ReadBeforeTheBump(cfg, delay), LoadSettles(0), cfg), LoadEnds(0), cfg);
      var s' := Step(Step(s, Decide(1), cfg), Save(1, Committed), cfg);
      && s'.passed == [Pass(1, "s", "ann", 0, 0, delay)] && s'.admitted == [Admission(0, delay)]
      && s'.staff == map["ann" := Staff(true, [0], 0)]
  {
    var s0 := ReadBeforeTheBump(cfg, delay);
    Settles(s0, cfg);
    var s1 := Step(s0, LoadSettles(0), cfg);
    Ends(s1, cfg);
    var s2 := Step(s1, LoadEnds(0), cfg);
    assert TtlMs(Ann(cfg), delay, cfg) > 0;
    hide Step, TC.Logged, TtlMs;
    assert s2.runs[1] == Resumed("s", Ann(cfg), 0, Found(true, 0));
    JudgedAndTouched(s2, 1, "s", Ann(cfg), 0, cfg);
  }

  /** The comment on the guard says a role change arrives within the time to live. Here it does not: the
      staff query read the row before the bump at 0 and is answered `delay` later, and the request is let
      through then with the old epoch, however long that is. */
  lemma {:induction false} LateLoadOutlivesTheBump(cfg: Config, delay: int) returns (actions: seq<Action>)
    requires cfg.idleMs > 0 && 0 <= delay < cfg.absoluteMs
    ensures var s := RunAll(0, actions, cfg);
      && s.staff == map["ann" := Staff(true, [0], 0)]
      && s.passed == [Pass(1, "s", "ann", 0, 0, delay)] && s.admitted == [Admission(0, delay)]
  {
    var a0 := SignsIn(cfg);
    Asks(cfg);
    ReadsThenBumped(cfg, delay);
    AnswersLate(cfg, delay);
    hide Step, SignedIn, Asking, ReadBeforeTheBump;
    var asked := a0 + [Enter(1, "s", true)];
    RunSnoc(Start(0), a0, Enter(1, "s", true), cfg);
    var late := FollowedBy(asked, Read(0), Bump("ann"), Tick(delay), cfg);
    var ended := late + [LoadSettles(0)];
    RunSnoc(Start(0), late, LoadSettles(0), cfg);
    actions := FollowedBy(ended, LoadEnds(0), Decide(1), Save(1, Committed), cfg);
  }

  lemma FollowedBy(actions: seq<Action>, a: Action, b: Action, c: Action, cfg: Config) returns (more: seq<Action>)
    ensures RunAll(0, more, cfg) == Step(Step(Step(RunAll(0, actions, cfg), a, cfg), b, cfg), c, cfg)
  {
    hide Step;
    var one := actions + [a];
    var two := one + [b];
    more := two + [c];
    RunSnoc(Start(0), actions, a, cfg);
    RunSnoc(Start(0), one, b, cfg);
    RunSnoc(Start(0), two, c, cfg);
  }

  /** The entry of a settled load is served until the time to live is over. */
  lemma SettledLasts(c: TC.Cache<StaffRow>, id: nat, row: StaffRow, now: int, t: int)
    requires TC.Enabled(c, TC.Settle(id, row, now)) && t < now + STAFF_TTL_MS
    ensures TC.LookupOf(TC.Step(c, TC.Settle(id, row, now), STAFF_TTL_MS, STAFF_MAX), c.flights[id], t) == TC.Hit(row)
  {
  }

  lemma EndKeepsHit(c: TC.Cache<StaffRow>, id: nat, key: string, t: int)
    requires TC.LookupOf(c, key, t).Hit?
    ensures TC.LookupOf(TC.Step(c, TC.Finally(id), STAFF_TTL_MS, STAFF_MAX), key, t) == TC.LookupOf(c, key, t)
  {
  }

  /** Ann's row is in the cache, and her first request was let through. */
  ghost predicate RowCached(s: World, cfg: Config) {
    && s.now == 0 && s.staff == map["ann" := Staff(true, [], 0)] && s.runs == map[0 := Ended, 1 := Ended]
    && s.sessions == map["s" := Stored(Ann(cfg), TtlMs(Ann(cfg), 0, cfg))]
    && |s.passed| == 1 && |s.admitted| == 1 && s.cache.flights == map[]
    && forall t :: t < STAFF_TTL_MS ==> TC.LookupOf(s.cache, "ann", t) == TC.Hit(Found(true, 0))
  }

  /** Her row has been read, and the cache as its settled load and its end leave it. */
  function ReadNow(cfg: Config): World { Asking(cfg).(loads := map[0 := Load("ann", 0, Some(Found(true, 0)))]) }

  function SettledCache(cfg: Config): TC.Cache<StaffRow> {
    TC.Step(ReadNow(cfg).cache, TC.Settle(0, Found(true, 0), 0), STAFF_TTL_MS, STAFF_MAX)
  }

  function EndedCache(cfg: Config): TC.Cache<StaffRow> {
    TC.Step(SettledCache(cfg), TC.Finally(0), STAFF_TTL_MS, STAFF_MAX)
  }

  lemma SettledCacheHolds(cfg: Config)
    ensures var c := SettledCache(cfg);
      && c.flights == map[0 := "ann"] && TC.Logged(c.log, 0)
      && forall t :: t < STAFF_TTL_MS ==> TC.LookupOf(c, "ann", t) == TC.Hit(Found(true, 0))
  {
    var c := ReadNow(cfg).cache;
    CacheFrame(c, TC.Settle(0, Found(true, 0), 0));
    forall t | t < STAFF_TTL_MS ensures TC.LookupOf(SettledCache(cfg), "ann", t) == TC.Hit(Found(true, 0)) {
      SettledLasts(c, 0, Found(true, 0), 0, t);
    }
    hide TC.Step, TC.LookupOf;
    assert SettledCache(cfg).log == [] + [TC.Settled(0, "ann", Found(true, 0), 0)];
    assert SettledCache(cfg).log[0].id == 0;
  }

  lemma EndedCacheHolds(cfg: Config)
    ensures var c := EndedCache(cfg);
      c.flights == map[] && forall t :: t < STAFF_TTL_MS ==> TC.LookupOf(c, "ann", t) == TC.Hit(Found(true, 0))
  {
    SettledCacheHolds(cfg);
    var c := SettledCache(cfg);
    hide SettledCache;
    CacheFrame(c, TC.Finally(0));
    forall t | t < STAFF_TTL_MS ensures TC.LookupOf(EndedCache(cfg), "ann", t) == TC.Hit(Found(true, 0)) {
      EndKeepsHit(c, 0, "ann", t);
    }
    hide TC.Step, TC.LookupOf;
    assert EndedCache(cfg).flights == map[];
  }

  lemma SettlesNow(cfg: Config)
    ensures Step(ReadNow(cfg), LoadSettles(0), cfg) == ReadNow(cfg).(cache := SettledCache(cfg))
  {
    hide TC.Step, EnterStep, DecideStep, LoadEndsStep, SaveStep, FetchStep, TtlMs;
  }

  lemma EndsNow(cfg: Config)
    ensures Step(ReadNow(cfg).(cache := SettledCache(cfg)), LoadEnds(0), cfg) ==
      ReadNow(cfg).(cache := EndedCache(cfg), runs := map[0 := Ended, 1 := Resumed("s", Ann(cfg), 0, Found(true, 0))])
  {
    var s := ReadNow(cfg).(cache := SettledCache(cfg));
    SettledCacheHolds(cfg);
    Ends(s, cfg);
    EndingStep(s, 0, cfg);
    assert LoadEndsStep(s, 0).cache == EndedCache(cfg) by { hide TC.Step, TC.Logged, Resume, Step; }
    hide Step, TC.Step, TC.Logged, TtlMs, SettledCache, LoadEndsStep, EndedCache, TC.LookupOf;
    assert Resume(s.runs, 0, s.loads[0].row) == map[0 := Ended, 1 := Resumed("s", Ann(cfg), 0, Found(true, 0))];
  }

  lemma AnswersAtOnce(cfg: Config) returns (s: World)
    ensures s == Step(Step(Step(Asking(cfg), Read(0), cfg), LoadSettles(0), cfg), LoadEnds(0), cfg)
    ensures s == ReadNow(cfg).(cache := EndedCache(cfg), runs := map[0 := Ended, 1 := Resumed("s", Ann(cfg), 0, Found(true, 0))])
  {
    hide Step, SettledCache, EndedCache;
    Reads(cfg);
    SettlesNow(cfg);
    EndsNow(cfg);
    s := Step(ReadNow(cfg).(cache := SettledCache(cfg)), LoadEnds(0), cfg);
  }

  lemma FirstRequestPasses(cfg: Config) returns (s: World)
    requires cfg.idleMs > 0 && cfg.absoluteMs > 0
    ensures RowCached(s, cfg)
    ensures var answered := Step(Step(Step(Asking(cfg), Read(0), cfg), LoadSettles(0), cfg), LoadEnds(0), cfg);
      s == Step(Step(answered, Decide(1), cfg), Save(1, Committed), cfg)
  {
    hide Step, EndedCache, Asking, TtlMs, RowCached;
    var answered := AnswersAtOnce(cfg);
    AnsweredHolds(cfg, answered);
    PassesFirst(cfg, answered);
    s := Step(Step(answered, Decide(1), cfg), Save(1, Committed), cfg);
  }

  lemma AnsweredHolds(cfg: Config, s: World)
    requires s == ReadNow(cfg).(cache := EndedCache(cfg), runs := map[0 := Ended, 1 := Resumed("s", Ann(cfg), 0, Found(true, 0))])
    ensures AnnAnswered(s, cfg)
  {
    EndedCacheHolds(cfg);
    hide EndedCache, TC.LookupOf, TtlMs;
  }

  /** Ann's row is in the cache, and her first request is about to be judged on it. */
  ghost predicate AnnAnswered(s: World, cfg: Config) {
    && s.now == 0 && s.staff == map["ann" := Staff(true, [], 0)]
    && s.runs == map[0 := Ended, 1 := Resumed("s", Ann(cfg), 0, Found(true, 0))]
    && s.sessions == map["s" := Stored(Ann(cfg), TtlMs(Ann(cfg), 0, cfg))]
    && s.passed == [] && s.admitted == [] && s.cache.flights == map[]
    && forall t :: t < STAFF_TTL_MS ==> TC.LookupOf(s.cache, "ann", t) == TC.Hit(Found(true, 0))
  }

  lemma PassesFirst(cfg: Config, s: World)
    requires cfg.idleMs > 0 && cfg.absoluteMs > 0 && AnnAnswered(s, cfg)
    ensures RowCached(Step(Step(s, Decide(1), cfg), Save(1, Committed), cfg), cfg)
  {
    assert TtlMs(Ann(cfg), 0, cfg) > 0;
    assert Ann(cfg).(lastSeenAt := 0) == Ann(cfg) && Ann(cfg).staffId == "ann" && Ann(cfg).epoch == 0;
    hide Step, TC.LookupOf, TtlMs, Ann;
    JudgedAndTouched(s, 1, "s", Ann(cfg), 0, cfg);
    assert s.runs[1 := Ended] == map[0 := Ended, 1 := Ended];
  }

  /** After the bump, the next request finds the row in the cache. */
  lemma HitAfterTheBump(s: World, cfg: Config, delay: int)
    requires RowCached(s, cfg) && 0 <= delay < STAFF_TTL_MS && delay <= cfg.idleMs && delay < cfg.absoluteMs && cfg.idleMs > 0
    ensures var later := Step(Step(s, Bump("ann"), cfg), Tick(delay), cfg);
      var s' := Step(Step(later, Enter(2, "s", true), cfg), Save(2, Committed), cfg);
      && s'.staff == map["ann" := Staff(true, [0], 0)]
      && s'.passed == s.passed + [Pass(2, "s", "ann", 0, delay, delay)] && s'.admitted == s.admitted + [Admission(1, delay)]
  {
    Bumps(s, "ann", cfg);
    var bumped := Step(s, Bump("ann"), cfg);
    assert s.staff["ann"].bumps + [s.now] == [0];
    assert bumped.staff == map["ann" := Staff(true, [0], 0)];
    assert Quiet(bumped);
    Ticks(bumped, delay, cfg);
    var later := Step(bumped, Tick(delay), cfg);
    assert later.cache == s.cache && later.now == delay;
    assert Cached(later, "ann", 0) && TtlMs(Ann(cfg), delay, cfg) > 0;
    assert Stands(later, 2, "s", Ann(cfg), "ann", 0, cfg);
    hide Step, TC.LookupOf, TtlMs, Look, Quiet;
    HitJudges(later, 2, "s", Ann(cfg), cfg);
    var asked := Step(later, Enter(2, "s", true), cfg);
    Touched(asked, 2, cfg);
  }

  lemma Touched(s: World, r: nat, cfg: Config)
    requires r in s.runs && s.runs[r].Saving? && s.runs[r].pass.Some?
    ensures var s' := Step(s, Save(r, Committed), cfg);
      s'.passed == s.passed && s'.staff == s.staff && s'.admitted == s.admitted + [Admission(s.runs[r].pass.value, s.now)]
  {
    hide EnterStep, DecideStep, LoadEndsStep, CacheStep, FetchStep, Persist;
  }

  /** Nor does it without a slow query: for as long as the row is fresh, a request that comes after the
      bump is let through with the old epoch. */
  lemma {:induction false} CachedRowOutlivesTheBump(cfg: Config, delay: int) returns (actions: seq<Action>)
    requires 0 <= delay < STAFF_TTL_MS && delay <= cfg.idleMs && delay < cfg.absoluteMs && cfg.idleMs > 0
    ensures var s := RunAll(0, actions, cfg);
      && s.staff == map["ann" := Staff(true, [0], 0)]
      && |s.passed| == 2 && s.passed[1] == Pass(2, "s", "ann", 0, delay, delay)
      && |s.admitted| == 2 && s.admitted[1] == Admission(1, delay)
  {
    var a0 := SignsIn(cfg);
    Asks(cfg);
    var s := FirstRequestPasses(cfg);
    assert |s.passed| == 1 && |s.admitted| == 1;
    HitAfterTheBump(s, cfg, delay);
    hide Step, SignedIn, Asking, RowCached;
    var asked := a0 + [Enter(1, "s", true)];
    RunSnoc(Start(0), a0, Enter(1, "s", true), cfg);
    var answered := FollowedBy(asked, Read(0), LoadSettles(0), LoadEnds(0), cfg);
    var bumped := FollowedBy(answered, Decide(1), Save(1, Committed), Bump("ann"), cfg);
    actions := FollowedBy(bumped, Tick(delay), Enter(2, "s", true), Save(2, Committed), cfg);
  }
}
