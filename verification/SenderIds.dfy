/** Sender ID review across two databases with no shared transaction.

    The product owns the application and its status; the console owns the review. A decision writes
    the product first and the review second, and a sync brings every review back to what the product
    says. An action is one awaited call; runs overlap freely and may stop anywhere. `reopens`,
    `passed` and `console` are history. */
module SenderIds {
  import opened Prelude
  import opened SenderIdState

  /** The items of the review checklist. */
  function Checklist(): set<string> { {"business_registration_matches", "loa_signed", "matches_brand", "sample_content_ok"} }

  datatype Application = Application(
    status: string, reason: Option<string>, reviewedAt: Option<int>, submittedAt: Option<int>, createdAt: int)

  datatype Review = Review(
    status: ReviewStatus, submittedAt: int, decidedAt: Option<int>, reason: Option<string>,
    assignee: Option<string>, checklist: map<string, Option<bool>>)

  /** What the reviewer asks for; asking for changes is a rejection that says what to fix. */
  datatype Asked = AskApprove | AskReject | AskChanges

  datatype Run =
    | Syncing(apps: map<string, Application>, seen: map<string, ReviewStatus>)
    | Importing(apps: map<string, Application>, seen: map<string, ReviewStatus>, id: string, read: Application)
    | Checked(id: string, from: ReviewStatus, decision: Decision, reason: Option<string>, reopens: nat)
    | Confirmed(id: string, from: ReviewStatus, decision: Decision, reason: Option<string>, reopens: nat)
    | Written(id: string, decision: Decision, reason: Option<string>)
    | Ended

  /** A status the console wrote into the product. `reopened`: the review was reopened between the
      reviewer's reading and this write. `vetted`: every checklist item was marked passed since the
      review was created or last reopened. */
  datatype ConsoleWrite = ConsoleWrite(id: string, status: string, reason: Option<string>, reopened: bool, vetted: bool)

  datatype World = World(
    now: int, apps: map<string, Application>, reviews: map<string, Review>, runs: map<nat, Run>,
    reopens: map<string, nat>, passed: map<string, set<string>>, console: seq<ConsoleWrite>)

  datatype Mark = Mark(key: string, passed: bool)

  datatype Action =
    | Tick(to: int)
    | Product(id: string, application: Application)
    | Assign(id: string, assignee: string)
    | UpdateChecklist(id: string, items: seq<Mark>)
    | SyncRead(r: nat)
    | Refresh(r: nat, id: string)
    | ImportRead(r: nat, id: string)
    | ImportCreate(r: nat)
    | DecideRead(r: nat, id: string, asked: Asked, reason: Option<string>)
    | DecideLive(r: nat)
    | DecideWrite(r: nat, write: Write)
    | DecideRecord(r: nat, write: Write)
    | Crash(r: nat)

  // ------------------------------------------------------------ pieces of the steps

  /** The product has moved on: its filed status reads differently from the review's. */
  predicate Drifted(application: Application, status: ReviewStatus) {
    var mapped := ToReviewStatus(application.status);
    mapped.Some? && PresentStatus(mapped.value) != PresentStatus(status)
  }

  function Or(at: Option<int>, other: int): int { if at.Some? then at.value else other }

  function Unmarked(): map<string, Option<bool>> { map k | k in Checklist() :: None }

  predicate Decided(status: ReviewStatus) { status.Approved? || status.Rejected? }

  /** The review after a refresh; back to waiting it is a new review in all but name. */
  function Refreshed(review: Review, application: Application, mapped: ReviewStatus, now: int): Review {
    if Decided(mapped) then
      review.(status := mapped, decidedAt := Some(Or(application.reviewedAt, now)), reason := application.reason)
    else
      review.(status := mapped, decidedAt := None, reason := None, submittedAt := Or(application.submittedAt, now),
              assignee := None, checklist := map k | k in review.checklist :: None)
  }

  function Created(application: Application, mapped: ReviewStatus, now: int): Review {
    Review(mapped, Or(application.submittedAt, application.createdAt),
           if Decided(mapped) then Some(Or(application.reviewedAt, now)) else None, application.reason, None, Unmarked())
  }

  function Marked(checklist: map<string, Option<bool>>, items: seq<Mark>): map<string, Option<bool>>
    decreases |items|
  {
    if items == [] then checklist else Marked(checklist[items[0].key := Some(items[0].passed)], items[1..])
  }

  function PassedKeys(items: seq<Mark>): set<string> { set m | m in items && m.passed :: m.key }

  function DecisionOf(asked: Asked): Decision { if asked.AskApprove? then Approve else Reject }

  /** The reason as it is stored and shown: trimmed, and labelled when changes were asked for. */
  function ReasonOf(asked: Asked, reason: Option<string>): Option<string> {
    if reason.None? then None
    else if asked.AskChanges? && Trim(reason.value) != "" then Some("Changes requested: " + Trim(reason.value))
    else Some(Trim(reason.value))
  }

  predicate AllPassed(review: Review) { forall k :: k in review.checklist ==> review.checklist[k] == Some(true) }

  /** The checks of `decide` on the review it read. */
  predicate MayDecide(review: Review, decision: Decision, reason: Option<string>) {
    && decision in AllowedDecisions(review.status)
    && (decision.Reject? ==> reason.Some? && reason.value != "")
    && (decision.Approve? ==> AllPassed(review))
  }

  function Reopens(s: World, id: string): nat { if id in s.reopens then s.reopens[id] else 0 }

  function PassedSince(s: World, id: string): set<string> { if id in s.passed then s.passed[id] else {} }

  function Goto(s: World, r: nat, run: Run): World { s.(runs := s.runs[r := run]) }

  // ------------------------------------------------------------ the steps

  predicate Enabled(s: World, a: Action) {
    match a
    case Tick(to) => s.now <= to
    case Product(_, _) => true
    case Assign(id, _) => id in s.reviews
    case UpdateChecklist(id, items) => id in s.reviews && forall m :: m in items ==> m.key in Checklist()
    case SyncRead(r) => r !in s.runs
    case Refresh(r, id) => r in s.runs && s.runs[r].Syncing? && id in s.runs[r].apps && id in s.runs[r].seen && id in s.reviews
    case ImportRead(r, _) => r in s.runs && s.runs[r].Syncing?
    case ImportCreate(r) => r in s.runs && s.runs[r].Importing?
    case DecideRead(r, _, _, _) => r !in s.runs
    case DecideLive(r) => r in s.runs && s.runs[r].Checked?
    case DecideWrite(r, _) => r in s.runs && s.runs[r].Confirmed?
    case DecideRecord(r, _) => r in s.runs && s.runs[r].Written?
    case Crash(r) => r in s.runs
  }

  /** One turn of the refresh loop, on what this sync read before. */
  function RefreshStep(s: World, id: string, application: Application, seen: ReviewStatus): World
    requires id in s.reviews
  {
    if !Drifted(application, seen) then s
    else
      var mapped := ToReviewStatus(application.status).value;
      var s' := s.(reviews := s.reviews[id := Refreshed(s.reviews[id], application, mapped, s.now)]);
      if Decided(mapped) then s'
      else s'.(reopens := s.reopens[id := Reopens(s, id) + 1], passed := s.passed[id := {}])
  }

  /** `ensureReview`, up to the insert. */
  function ImportReadStep(s: World, r: nat, apps: map<string, Application>, seen: map<string, ReviewStatus>, id: string): World {
    if id in s.reviews || id !in s.apps || ToReviewStatus(s.apps[id].status).None? then s
    else Goto(s, r, Importing(apps, seen, id, s.apps[id]))
  }

  /** The insert; the unique index on the application refuses a second review, and the loser goes on. */
  function ImportCreateStep(s: World, id: string, read: Application): World {
    if id in s.reviews || ToReviewStatus(read.status).None? then s
    else s.(reviews := s.reviews[id := Created(read, ToReviewStatus(read.status).value, s.now)], passed := s.passed[id := {}])
  }

  function DecideReadStep(s: World, r: nat, id: string, asked: Asked, reason: Option<string>): World {
    var decision := DecisionOf(asked);
    if id in s.reviews && MayDecide(s.reviews[id], decision, ReasonOf(asked, reason)) then
      Goto(s, r, Checked(id, s.reviews[id].status, decision, ReasonOf(asked, reason), Reopens(s, id)))
    else Goto(s, r, Ended)
  }

  /** The application as the product has it now must still read as the review did. */
  function DecideLiveStep(s: World, r: nat, run: Run): World
    requires run.Checked?
  {
    if run.id in s.apps && ToReviewStatus(s.apps[run.id].status).Some?
       && PresentStatus(ToReviewStatus(s.apps[run.id].status).value) == PresentStatus(run.from)
    then Goto(s, r, Confirmed(run.id, run.from, run.decision, run.reason, run.reopens))
    else Goto(s, r, Ended)
  }

  /** The application and the review once a decision is written to them. */
  function DecidedApplication(application: Application, decision: Decision, reason: Option<string>, now: int): Application {
    application.(status := Word(decision), reason := if decision.Reject? then reason else None, reviewedAt := Some(now))
  }

  function DecidedReview(review: Review, decision: Decision, reason: Option<string>, now: int): Review {
    review.(status := Stored(decision), reason := reason, decidedAt := Some(now))
  }

  /** The product transaction. */
  function DecideWriteStep(s: World, r: nat, run: Run, write: Write): World
    requires run.Confirmed?
  {
    if write.Refused? || run.id !in s.apps then Goto(s, r, Ended)
    else
      var written := DecidedApplication(s.apps[run.id], run.decision, run.reason, s.now);
      var s' := s.(
        apps := s.apps[run.id := written],
        console := s.console + [ConsoleWrite(run.id, written.status, written.reason, Reopens(s, run.id) != run.reopens,
                                             Checklist() <= PassedSince(s, run.id))]);
      Goto(s', r, if write.AckLost? then Ended else Written(run.id, run.decision, run.reason))
  }

  function DecideRecordStep(s: World, r: nat, run: Run, write: Write): World
    requires run.Written?
  {
    var s' := Goto(s, r, Ended);
    if write.Refused? || run.id !in s.reviews then s'
    else s'.(reviews := s.reviews[run.id := DecidedReview(s.reviews[run.id], run.decision, run.reason, s.now)])
  }

  function Step(s: World, a: Action): World {
    if !Enabled(s, a) then s else
    match a
    case Tick(to) => s.(now := to)
    case Product(id, application) => s.(apps := s.apps[id := application])
    case Assign(id, assignee) => s.(reviews := s.reviews[id := s.reviews[id].(assignee := Some(assignee))])
    case UpdateChecklist(id, items) =>
      s.(reviews := s.reviews[id := s.reviews[id].(checklist := Marked(s.reviews[id].checklist, items))],
         passed := s.passed[id := PassedSince(s, id) + PassedKeys(items)])
    case SyncRead(r) => Goto(s, r, Syncing(s.apps, map id | id in s.reviews :: s.reviews[id].status))
    case Refresh(r, id) => RefreshStep(s, id, s.runs[r].apps[id], s.runs[r].seen[id])
    case ImportRead(r, id) => ImportReadStep(s, r, s.runs[r].apps, s.runs[r].seen, id)
    case ImportCreate(r) =>
      Goto(ImportCreateStep(s, s.runs[r].id, s.runs[r].read), r, Syncing(s.runs[r].apps, s.runs[r].seen))
    case DecideRead(r, id, asked, reason) => DecideReadStep(s, r, id, asked, reason)
    case DecideLive(r) => DecideLiveStep(s, r, s.runs[r])
    case DecideWrite(r, write) => DecideWriteStep(s, r, s.runs[r], write)
    case DecideRecord(r, write) => DecideRecordStep(s, r, s.runs[r], write)
    case Crash(r) => Goto(s, r, Ended)
  }

  function RunAll(s: World, actions: seq<Action>): World
    decreases |actions|
  {
    if actions == [] then s else Step(RunAll(s, actions[..|actions| - 1]), actions[|actions| - 1])
  }

  // ------------------------------------------------------------ the invariant

  ghost predicate ReviewOk(review: Review, passed: set<string>) {
    && (review.decidedAt.None? <==> PresentStatus(review.status).PendingReview?)
    && review.checklist.Keys == Checklist()
    && forall k :: k in Checklist() && review.checklist[k] == Some(true) ==> k in passed
  }

  ghost predicate ReviewsOk(s: World) {
    forall id :: id in s.reviews ==> ReviewOk(s.reviews[id], PassedSince(s, id))
  }

  /** What a decision carries from its checks to its write. */
  ghost predicate DecisionOk(s: World, id: string, decision: Decision, reason: Option<string>, reopens: nat) {
    && id in s.reviews && reopens <= Reopens(s, id)
    && (decision.Reject? ==> reason.Some? && reason.value != "")
    && (decision.Approve? && reopens == Reopens(s, id) ==> Checklist() <= PassedSince(s, id))
  }

  ghost predicate RunOk(s: World, run: Run) {
    match run
    case Checked(id, _, decision, reason, reopens) => DecisionOk(s, id, decision, reason, reopens)
    case Confirmed(id, _, decision, reason, reopens) => DecisionOk(s, id, decision, reason, reopens)
    case _ => true
  }

  ghost predicate RunsOk(s: World) { forall r :: r in s.runs ==> RunOk(s, s.runs[r]) }

  ghost predicate ConsoleOk(w: ConsoleWrite) {
    && (w.status == "APPROVED" || w.status == "REJECTED")
    && (w.status == "REJECTED" ==> w.reason.Some? && w.reason.value != "")
    && (w.status == "APPROVED" && !w.reopened ==> w.vetted)
  }

  ghost predicate Inv(s: World) {
    ReviewsOk(s) && RunsOk(s) && forall i :: 0 <= i < |s.console| ==> ConsoleOk(s.console[i])
  }

  /** Before the console's first action: old reviews of any status, with nothing in flight. */
  ghost predicate Initial(s: World) { s.runs == map[] && s.console == [] && ReviewsOk(s) }

  // ------------------------------------------------------------ every step keeps it

  /** Reviews stay, and what was passed stays passed until the review is reopened. */
  ghost predicate Advances(s: World, s': World) {
    forall id :: id in s.reviews ==>
      && id in s'.reviews && Reopens(s, id) <= Reopens(s', id)
      && (Reopens(s, id) == Reopens(s', id) ==> PassedSince(s, id) <= PassedSince(s', id))
  }

  /** Only these actions touch a review or its history. */
  predicate TouchesReviews(a: Action) { a.Refresh? || a.ImportCreate? || a.Assign? || a.UpdateChecklist? || a.DecideRecord? }

  lemma OthersLeaveReviews(s: World, a: Action)
    requires Enabled(s, a) && !TouchesReviews(a)
    ensures var s' := Step(s, a); s'.reviews == s.reviews && s'.passed == s.passed && s'.reopens == s.reopens
  {
    hide Checklist, MayDecide, ReasonOf, ToReviewStatus, RefreshStep, ImportCreateStep, DecideRecordStep, Marked;
  }

  lemma RefreshAdvances(s: World, id: string, application: Application, seen: ReviewStatus)
    requires id in s.reviews
    ensures Advances(s, RefreshStep(s, id, application, seen))
  {
    hide Checklist, Refreshed, ToReviewStatus, Drifted;
  }

  lemma TouchAdvances(s: World, a: Action)
    requires Enabled(s, a) && TouchesReviews(a) && !a.Refresh?
    ensures Advances(s, Step(s, a))
  {
    hide Checklist, Created, Marked, ToReviewStatus, DecideReadStep, DecideLiveStep, DecideWriteStep, ImportReadStep, RefreshStep;
  }

  lemma StepAdvances(s: World, a: Action)
    ensures Advances(s, Step(s, a))
  {
    if !Enabled(s, a) { return; }
    if a.Refresh? {
      RefreshAdvances(s, a.id, s.runs[a.r].apps[a.id], s.runs[a.r].seen[a.id]);
      hide RefreshStep, Advances;
    } else if TouchesReviews(a) {
      TouchAdvances(s, a);
      hide Step, Advances;
    } else {
      OthersLeaveReviews(s, a);
      hide Step;
    }
  }

  lemma RunStays(s: World, s': World, run: Run)
    requires Advances(s, s') && RunOk(s, run)
    ensures RunOk(s', run)
  {
    hide Checklist;
  }

  lemma {:induction false} MarkedHolds(checklist: map<string, Option<bool>>, items: seq<Mark>)
    requires forall m :: m in items ==> m.key in checklist
    ensures var after := Marked(checklist, items);
      && after.Keys == checklist.Keys
      && forall k :: k in after && after[k] == Some(true) ==> k in PassedKeys(items) || (checklist[k] == Some(true))
    decreases |items|
  {
    hide Checklist;
    if items != [] {
      var first := checklist[items[0].key := Some(items[0].passed)];
      assert items[0] in items;
      MarkedHolds(first, items[1..]);
      var after := Marked(first, items[1..]);
      forall k | k in after && after[k] == Some(true) ensures k in PassedKeys(items) || checklist[k] == Some(true) {
        if k in PassedKeys(items[1..]) {
          var m :| m in items[1..] && m.passed && m.key == k;
          assert m in items;
        }
      }
    }
  }

  lemma RefreshedOk(review: Review, passed: set<string>, application: Application, mapped: ReviewStatus, now: int)
    requires ReviewOk(review, passed) && ToReviewStatus(application.status) == Some(mapped)
    ensures ReviewOk(Refreshed(review, application, mapped, now), if Decided(mapped) then passed else {})
  {
    hide Upper, Trim;
  }

  lemma CreatedOk(application: Application, mapped: ReviewStatus, now: int)
    requires ToReviewStatus(application.status) == Some(mapped)
    ensures ReviewOk(Created(application, mapped, now), {})
  {
    hide Upper, Trim;
  }

  /** One review changed and the others kept theirs. */
  lemma OneReviewChanged(s: World, s': World, id: string)
    requires ReviewsOk(s) && (id in s'.reviews ==> ReviewOk(s'.reviews[id], PassedSince(s', id)))
    requires forall k :: k in s'.reviews && k != id ==> k in s.reviews && s'.reviews[k] == s.reviews[k] && PassedSince(s', k) == PassedSince(s, k)
    ensures ReviewsOk(s')
  {
    hide Checklist;
    hide ReviewOk;
  }

  lemma RefreshKeepsReviews(s: World, id: string, application: Application, seen: ReviewStatus)
    requires ReviewsOk(s) && id in s.reviews
    ensures ReviewsOk(RefreshStep(s, id, application, seen))
  {
    hide Checklist;
    if !Drifted(application, seen) { return; }
    var s' := RefreshStep(s, id, application, seen);
    var mapped := ToReviewStatus(application.status).value;
    RefreshedOk(s.reviews[id], PassedSince(s, id), application, mapped, s.now);
    hide ReviewOk, ReviewsOk, Refreshed, ToReviewStatus, Drifted, PresentStatus;
    assert PassedSince(s', id) == if Decided(mapped) then PassedSince(s, id) else {};
    assert s'.reviews == s.reviews[id := Refreshed(s.reviews[id], application, mapped, s.now)];
    hide RefreshStep, Decided;
    OneReviewChanged(s, s', id);
  }

  lemma ImportKeepsReviews(s: World, id: string, read: Application)
    requires ReviewsOk(s)
    ensures ReviewsOk(ImportCreateStep(s, id, read))
  {
    hide Checklist;
    var mapped := ToReviewStatus(read.status);
    if mapped.Some? { CreatedOk(read, mapped.value, s.now); }
    hide ReviewOk, Created, ToReviewStatus;
    OneReviewChanged(s, ImportCreateStep(s, id, read), id);
  }

  lemma ChecklistKeepsReviews(s: World, id: string, items: seq<Mark>)
    requires ReviewsOk(s) && Enabled(s, UpdateChecklist(id, items))
    ensures ReviewsOk(Step(s, UpdateChecklist(id, items)))
  {
    hide Checklist;
    MarkedHolds(s.reviews[id].checklist, items);
    var after := s.reviews[id].(checklist := Marked(s.reviews[id].checklist, items));
    assert ReviewOk(after, PassedSince(s, id) + PassedKeys(items)) by { hide Marked, PassedKeys; }
    hide ReviewOk, ReviewsOk, Marked, PassedKeys;
    OneReviewChanged(s, Step(s, UpdateChecklist(id, items)), id);
  }

  lemma ReviewReplaced(s: World, s': World, id: string, review: Review)
    requires ReviewsOk(s) && id in s.reviews && s'.reviews == s.reviews[id := review] && s'.passed == s.passed
    requires review.checklist == s.reviews[id].checklist
    requires review.decidedAt.None? <==> PresentStatus(review.status).PendingReview?
    ensures ReviewsOk(s')
  {
    hide Checklist;
    assert ReviewOk(s.reviews[id], PassedSince(s, id));
    assert ReviewOk(review, PassedSince(s', id));
    hide ReviewOk, PresentStatus;
    OneReviewChanged(s, s', id);
  }

  lemma RecordKeepsReviews(s: World, r: nat, run: Run, write: Write)
    requires ReviewsOk(s) && run.Written?
    ensures ReviewsOk(DecideRecordStep(s, r, run, write))
  {
    hide Checklist;
    if run.id in s.reviews && !write.Refused? {
      var review := DecidedReview(s.reviews[run.id], run.decision, run.reason, s.now);
      hide ReviewOk, ReviewsOk;
      ReviewReplaced(s, DecideRecordStep(s, r, run, write), run.id, review);
    }
  }

  lemma AssignKeepsReviews(s: World, id: string, assignee: string)
    requires ReviewsOk(s) && id in s.reviews
    ensures ReviewsOk(Step(s, Assign(id, assignee)))
  {
    hide Checklist;
    assert ReviewOk(s.reviews[id], PassedSince(s, id));
    hide ReviewsOk;
    ReviewReplaced(s, Step(s, Assign(id, assignee)), id, s.reviews[id].(assignee := Some(assignee)));
  }

  lemma SameReviews(s: World, s': World)
    requires ReviewsOk(s) && s'.reviews == s.reviews && s'.passed == s.passed
    ensures ReviewsOk(s')
  {
    hide Checklist;
    hide ReviewOk;
    OneReviewChanged(s, s', "");
  }

  lemma OthersKeepReviews(s: World, a: Action)
    requires ReviewsOk(s) && Enabled(s, a) && !TouchesReviews(a)
    ensures ReviewsOk(Step(s, a))
  {
    OthersLeaveReviews(s, a);
    hide Step, ReviewsOk;
    SameReviews(s, Step(s, a));
  }

  lemma StepKeepsReviews(s: World, a: Action)
    requires ReviewsOk(s)
    ensures ReviewsOk(Step(s, a))
  {
    hide Checklist;
    if !Enabled(s, a) { return; }
    hide ReviewsOk;
    match a
    case Refresh(r, id) => RefreshKeepsReviews(s, id, s.runs[r].apps[id], s.runs[r].seen[id]); hide RefreshStep;
    case ImportCreate(r) =>
      ImportKeepsReviews(s, s.runs[r].id, s.runs[r].read);
      hide ImportCreateStep;
      SameReviews(ImportCreateStep(s, s.runs[r].id, s.runs[r].read), Step(s, a));
    case Assign(id, assignee) => AssignKeepsReviews(s, id, assignee); hide Step;
    case UpdateChecklist(id, items) => ChecklistKeepsReviews(s, id, items); hide Step;
    case DecideRecord(r, write) => RecordKeepsReviews(s, r, s.runs[r], write); hide DecideRecordStep;
    case _ => OthersKeepReviews(s, a); hide Step;
  }

  /** A decision that passes its checks on a review is sound. */
  lemma CheckedIsOk(s: World, id: string, asked: Asked, reason: Option<string>)
    requires id in s.reviews && ReviewOk(s.reviews[id], PassedSince(s, id))
    ensures var decision := DecisionOf(asked);
      MayDecide(s.reviews[id], decision, ReasonOf(asked, reason)) ==>
        DecisionOk(s, id, decision, ReasonOf(asked, reason), Reopens(s, id))
  {
    hide Checklist;
    hide Trim;
  }

  lemma MovedRunOk(s: World, s': World, r: nat)
    requires RunsOk(s) && Advances(s, s') && r in s'.runs && s'.runs == s.runs[r := s'.runs[r]] && RunOk(s', s'.runs[r])
    ensures RunsOk(s')
  {
    hide Checklist;
    hide Advances, RunOk;
    forall q | q in s'.runs ensures RunOk(s', s'.runs[q]) {
      if q != r { RunStays(s, s', s.runs[q]); }
    }
  }

  lemma SameRunsOk(s: World, s': World)
    requires RunsOk(s) && Advances(s, s') && s'.runs == s.runs
    ensures RunsOk(s')
  {
    hide Checklist;
    hide Advances, RunOk;
    forall q | q in s'.runs ensures RunOk(s', s'.runs[q]) { RunStays(s, s', s.runs[q]); }
  }

  lemma DecideReadKeepsRuns(s: World, r: nat, id: string, asked: Asked, reason: Option<string>)
    requires RunsOk(s) && ReviewsOk(s)
    ensures var s' := DecideReadStep(s, r, id, asked, reason); RunOk(s', s'.runs[r])
  {
    hide Checklist;
    if id in s.reviews { CheckedIsOk(s, id, asked, reason); }
    hide MayDecide, ReasonOf;
  }

  /** Which run an action moves, if it moves one. */
  function MovedRun(a: Action): Option<nat> {
    match a
    case SyncRead(r) => Some(r)
    case ImportRead(r, _) => Some(r)
    case ImportCreate(r) => Some(r)
    case DecideRead(r, _, _, _) => Some(r)
    case DecideLive(r) => Some(r)
    case DecideWrite(r, _) => Some(r)
    case DecideRecord(r, _) => Some(r)
    case Crash(r) => Some(r)
    case _ => None
  }

  lemma StepMovesOneRun(s: World, a: Action)
    requires Enabled(s, a)
    ensures var s' := Step(s, a); match MovedRun(a)
      case None => s'.runs == s.runs
      case Some(r) => r in s'.runs && s'.runs == s.runs[r := s'.runs[r]]
  {
    hide Checklist;
    hide MayDecide, ReasonOf, ToReviewStatus, Drifted, Refreshed, Created, Marked;
  }

  lemma MovedRunIsOk(s: World, a: Action)
    requires RunsOk(s) && ReviewsOk(s) && Enabled(s, a) && MovedRun(a).Some?
    ensures var s', r := Step(s, a), MovedRun(a).value; r in s'.runs && RunOk(s', s'.runs[r])
  {
    hide Checklist;
    if a.DecideRead? {
      DecideReadKeepsRuns(s, a.r, a.id, a.asked, a.reason);
      hide RunOk;
    } else if a.DecideLive? {
      assert RunOk(s, s.runs[a.r]);
      hide ToReviewStatus;
    } else {
      if a.ImportRead? { assert RunOk(s, s.runs[a.r]); }
      hide ToReviewStatus, ImportCreateStep, RefreshStep, DecideReadStep, DecideLiveStep, Marked;
    }
  }

  lemma StepKeepsRuns(s: World, a: Action)
    requires RunsOk(s) && ReviewsOk(s)
    ensures RunsOk(Step(s, a))
  {
    hide Checklist;
    if !Enabled(s, a) { return; }
    StepAdvances(s, a);
    StepMovesOneRun(s, a);
    if MovedRun(a).Some? { MovedRunIsOk(s, a); }
    hide Step, RunsOk, Advances, RunOk;
    if MovedRun(a).Some? { MovedRunOk(s, Step(s, a), MovedRun(a).value); } else { SameRunsOk(s, Step(s, a)); }
  }

  lemma WriteKeepsConsole(s: World, r: nat, run: Run, write: Write)
    requires run.Confirmed? && RunOk(s, run) && forall i :: 0 <= i < |s.console| ==> ConsoleOk(s.console[i])
    ensures forall i :: 0 <= i < |DecideWriteStep(s, r, run, write).console| ==> ConsoleOk(DecideWriteStep(s, r, run, write).console[i])
  {
    hide Checklist;
  }

  lemma ConsoleGrowsOnlyByDecisions(s: World, a: Action)
    requires Enabled(s, a) && !a.DecideWrite?
    ensures Step(s, a).console == s.console
  {
    hide Checklist;
    hide MayDecide, ReasonOf, ToReviewStatus, Drifted, Refreshed, Created, Marked;
  }

  lemma StepKeepsConsole(s: World, a: Action)
    requires Inv(s)
    ensures forall i :: 0 <= i < |Step(s, a).console| ==> ConsoleOk(Step(s, a).console[i])
  {
    hide Checklist;
    if !Enabled(s, a) { return; }
    if a.DecideWrite? {
      WriteKeepsConsole(s, a.r, s.runs[a.r], a.write);
      hide DecideWriteStep, ConsoleOk;
    } else {
      ConsoleGrowsOnlyByDecisions(s, a);
      hide Step, ConsoleOk;
    }
  }

  lemma StepKeepsInv(s: World, a: Action)
    requires Inv(s)
    ensures Inv(Step(s, a))
  {
    hide Checklist;
    StepKeepsReviews(s, a);
    StepKeepsRuns(s, a);
    StepKeepsConsole(s, a);
    hide Step, ReviewsOk, RunsOk, ConsoleOk;
  }

  lemma {:induction false} ReachableInv(s: World, actions: seq<Action>)
    requires Initial(s)
    ensures Inv(RunAll(s, actions))
    decreases |actions|
  {
    hide Checklist;
    if actions != [] {
      ReachableInv(s, actions[..|actions| - 1]);
      hide Inv, Step, Initial;
      StepKeepsInv(RunAll(s, actions[..|actions| - 1]), actions[|actions| - 1]);
    }
  }

  // ------------------------------------------------------------ theorems about every run

  /** A review is undecided exactly while it presents as waiting. */
  lemma {:induction false} UndecidedWhileWaiting(s: World, actions: seq<Action>, id: string)
    requires Initial(s) && id in RunAll(s, actions).reviews
    ensures var review := RunAll(s, actions).reviews[id];
      review.decidedAt.None? <==> PresentStatus(review.status) == PendingReview
  {
    ReachableInv(s, actions);
    hide RunAll;
    assert ReviewOk(RunAll(s, actions).reviews[id], PassedSince(RunAll(s, actions), id));
  }

  /** The console writes nothing into the product but a decision: a rejection with a reason, or an
      approval whose checklist was passed since the review was last reopened, provided the review was
      not reopened while the decision was on its way. */
  lemma {:induction false} ConsoleWritesOnlyDecisions(s: World, actions: seq<Action>, i: nat)
    requires Initial(s) && i < |RunAll(s, actions).console|
    ensures var w := RunAll(s, actions).console[i];
      && (w.status == "APPROVED" || w.status == "REJECTED")
      && (w.status == "REJECTED" ==> w.reason.Some? && w.reason.value != "")
      && (w.status == "APPROVED" && !w.reopened ==> w.vetted)
  {
    ReachableInv(s, actions);
    hide RunAll;
    assert ConsoleOk(RunAll(s, actions).console[i]);
  }

  /** A sync that reads a resubmitted application reopens its review. */
  lemma {:induction false} SyncReopens(s: World, q: nat, id: string, application: Application)
    requires q !in s.runs && id in s.reviews && id in s.apps && s.apps[id] == application
    requires ToReviewStatus(application.status) == Some(Submitted) && PresentStatus(s.reviews[id].status) == ProductRejected
    ensures var s' := Step(Step(s, SyncRead(q)), Refresh(q, id));
      && Reopens(s', id) == Reopens(s, id) + 1 && PassedSince(s', id) == {} && s'.apps == s.apps && s'.console == s.console
      && s'.runs == s.runs[q := s'.runs[q]]
  {
    hide Checklist, ToReviewStatus, Refreshed;
    var s1 := Step(s, SyncRead(q));
    assert s1 == Goto(s, q, Syncing(s.apps, map k | k in s.reviews :: s.reviews[k].status));
    assert Drifted(application, s.reviews[id].status);
    assert Enabled(s1, Refresh(q, id));
    assert Step(s1, Refresh(q, id)) == RefreshStep(s1, id, application, s.reviews[id].status);
  }

  lemma UnvettedWrite(s: World, r: nat, run: Run)
    requires r in s.runs && s.runs[r] == run && run.Confirmed? && run.decision.Approve? && run.id in s.apps
    requires Reopens(s, run.id) != run.reopens && PassedSince(s, run.id) == {} && Checklist() != {}
    ensures Step(s, DecideWrite(r, Committed)).console == s.console + [ConsoleWrite(run.id, "APPROVED", None, true, false)]
  {
    hide Checklist;
  }

  /** The proviso is needed: a customer who submits a rejected application again just before an
      overturned refusal is written has it approved on the old checklist. */
  lemma {:induction false} ResubmissionSlipsThrough(s: World, r: nat, q: nat, application: Application)
    requires Inv(s) && r in s.runs && q !in s.runs && s.runs[r].Confirmed? && s.runs[r].decision.Approve?
    requires s.runs[r].id in s.reviews && PresentStatus(s.reviews[s.runs[r].id].status) == ProductRejected
    requires ToReviewStatus(application.status) == Some(Submitted)
    ensures var id := s.runs[r].id;
      var resubmitted := Step(s, Product(id, application));
      Step(Step(Step(resubmitted, SyncRead(q)), Refresh(q, id)), DecideWrite(r, Committed)).console ==
      s.console + [ConsoleWrite(id, "APPROVED", None, true, false)]
  {
    var run := s.runs[r];
    assert RunOk(s, run);
    assert "loa_signed" in Checklist();
    hide Checklist, Inv;
    var resubmitted := Step(s, Product(run.id, application));
    assert resubmitted == s.(apps := s.apps[run.id := application]);
    SyncReopens(resubmitted, q, run.id, application);
    var s3 := Step(Step(resubmitted, SyncRead(q)), Refresh(q, run.id));
    hide Step;
    UnvettedWrite(s3, r, run);
  }

  // ------------------------------------------------------------ when an approval slips through

  /** This run's product write would approve the application without its checklist. */
  ghost predicate WritesUnvetted(s: World, r: nat) {
    var s' := Step(s, DecideWrite(r, Committed));
    |s'.console| == |s.console| + 1 && s'.console[|s.console|].status == "APPROVED" && !s'.console[|s.console|].vetted
  }

  /** Some continuation brings the run to such a write. */
  ghost predicate CanSlip(s: World, r: nat) { exists more :: WritesUnvetted(RunAll(s, more), r) }

  /** The run is past its checks with an approval in hand. */
  predicate Approving(run: Run) { (run.Checked? || run.Confirmed?) && run.decision.Approve? }

  lemma NotApprovingStays(s: World, a: Action, r: nat)
    requires r in s.runs && !Approving(s.runs[r])
    ensures var s' := Step(s, a); r in s'.runs && !Approving(s'.runs[r])
  {
    if !Enabled(s, a) { return; }
    StepMovesOneRun(s, a);
    if MovedRun(a) == Some(r) { hide ToReviewStatus, MayDecide, ReasonOf, RefreshStep, ImportCreateStep, Marked, Checklist; }
    else { hide Step; }
  }

  lemma {:induction false} NeverApproving(s: World, more: seq<Action>, r: nat)
    requires r in s.runs && !Approving(s.runs[r])
    ensures var s' := RunAll(s, more); r in s'.runs && !Approving(s'.runs[r])
    decreases |more|
  {
    if more != [] {
      NeverApproving(s, more[..|more| - 1], r);
      hide Step, Approving;
      NotApprovingStays(RunAll(s, more[..|more| - 1]), more[|more| - 1], r);
    }
  }

  lemma OnlyApprovingWrites(s: World, r: nat)
    requires r in s.runs && WritesUnvetted(s, r)
    ensures Approving(s.runs[r])
  {
    hide Checklist;
  }

  lemma {:induction false} RunOn(s: World, more: seq<Action>, further: seq<Action>)
    ensures RunAll(s, more + further) == RunAll(RunAll(s, more), further)
    decreases |further|
  {
    if further == [] {
      assert more + further == more;
    } else {
      var n := |further| - 1;
      RunOn(s, more, further[..n]);
      hide Step;
      assert (more + further)[..|more| + n] == more + further[..n];
    }
  }

  lemma RunThree(s: World, a: Action, b: Action, c: Action)
    ensures RunAll(s, [a, b, c]) == Step(Step(Step(s, a), b), c)
  {
    hide Step;
    assert [a][..0] == [] && [a, b][..1] == [a] && [a, b, c][..2] == [a, b];
    assert RunAll(s, [a]) == Step(s, a);
    assert RunAll(s, [a, b]) == Step(Step(s, a), b);
  }

  lemma RunTwo(s: World, a: Action, b: Action)
    ensures RunAll(s, [a, b]) == Step(Step(s, a), b)
  {
    hide Step;
    assert [a][..0] == [] && [a, b][..1] == [a];
    assert RunAll(s, [a]) == Step(s, a);
  }

  function Filing(word: string): Application { Application(word, None, None, None, 0) }

  /** The word an application carries when it presents like the review. */
  function WordFor(status: ReviewStatus): string {
    match PresentStatus(status)
    case PendingReview => "PENDING_REVIEW"
    case ProductApproved => "APPROVED"
    case ProductRejected => "REJECTED"
    case Draft => "DRAFT"
  }

  lemma FiledWords(status: ReviewStatus)
    ensures ToReviewStatus("PENDING_REVIEW") == Some(Submitted) && ToReviewStatus("REJECTED") == Some(Rejected)
    ensures ToReviewStatus(WordFor(status)).Some? && PresentStatus(ToReviewStatus(WordFor(status)).value) == PresentStatus(status)
  {
    StatusesAgree("", Approve);
    StatusesAgree("", Reject);
    assert Trim("PENDING_REVIEW") == "PENDING_REVIEW" && Upper("PENDING_REVIEW") == "PENDING_REVIEW";
    hide Upper, Trim;
  }

  /** A product change and the sync that reads it come to one turn of the refresh loop. */
  lemma ReadAndRefreshed(s: World, q: nat, id: string, application: Application)
    requires q !in s.runs && id in s.reviews
    ensures var read := Goto(s.(apps := s.apps[id := application]), q,
        Syncing(s.apps[id := application], map k | k in s.reviews :: s.reviews[k].status));
      Step(Step(Step(s, Product(id, application)), SyncRead(q)), Refresh(q, id)) == RefreshStep(read, id, application, s.reviews[id].status)
  {
    hide Checklist, ToReviewStatus, RefreshStep, ImportReadStep, ImportCreateStep, DecideReadStep, DecideLiveStep, DecideWriteStep, DecideRecordStep, Marked;
    var s1 := s.(apps := s.apps[id := application]);
    assert Step(s, Product(id, application)) == s1;
    var s2 := Goto(s1, q, Syncing(s1.apps, map k | k in s1.reviews :: s1.reviews[k].status));
    assert Step(s1, SyncRead(q)) == s2;
    assert Enabled(s2, Refresh(q, id));
  }

  lemma RefusedPresents(s: World, id: string, application: Application)
    requires id in s.reviews && ToReviewStatus(application.status) == Some(Rejected)
    ensures var s' := RefreshStep(s, id, application, s.reviews[id].status);
      id in s'.reviews && PresentStatus(s'.reviews[id].status) == ProductRejected && s'.runs == s.runs
  {
    hide ToReviewStatus, Checklist;
  }

  /** A refusal in the product and a sync leave the review presenting as refused, and no decision moved. */
  lemma RefusalIsSynced(s: World, q: nat, id: string)
    requires q !in s.runs && id in s.reviews && ToReviewStatus("REJECTED") == Some(Rejected)
    ensures var s' := Step(Step(Step(s, Product(id, Filing("REJECTED"))), SyncRead(q)), Refresh(q, id));
      && id in s'.reviews && PresentStatus(s'.reviews[id].status) == ProductRejected
      && q in s'.runs && s'.runs == s.runs[q := s'.runs[q]]
  {
    var application := Filing("REJECTED");
    ReadAndRefreshed(s, q, id, application);
    var read := Goto(s.(apps := s.apps[id := application]), q,
      Syncing(s.apps[id := application], map k | k in s.reviews :: s.reviews[k].status));
    hide Step, RefreshStep, ToReviewStatus, PresentStatus;
    RefusedPresents(read, id, application);
  }

  lemma ThreeKeepInv(s: World, a: Action, b: Action, c: Action)
    requires Inv(s)
    ensures Inv(RunAll(s, [a, b, c])) && RunAll(s, [a, b, c]) == Step(Step(Step(s, a), b), c)
  {
    hide Step, Inv, RunAll;
    RunThree(s, a, b, c);
    StepKeepsInv(s, a);
    StepKeepsInv(Step(s, a), b);
    StepKeepsInv(Step(Step(s, a), b), c);
  }

  lemma HasReview(s: World, r: nat)
    requires Inv(s) && r in s.runs && Approving(s.runs[r])
    ensures s.runs[r].id in s.reviews
  {
    assert RunOk(s, s.runs[r]);
    hide Checklist;
  }

  lemma TwoUnused(taken: set<nat>) returns (q: nat)
    ensures q !in taken && q + 1 !in taken
  {
    q := UnusedNat(taken);
  }

  function Refuses(id: string, q: nat): seq<Action> { [Product(id, Filing("REJECTED")), SyncRead(q), Refresh(q, id)] }

  lemma RefusesInOrder(s: World, r: nat, q: nat)
    requires Inv(s) && r in s.runs && q !in s.runs && Approving(s.runs[r]) && s.runs[r].id in s.reviews
    ensures var s' := RunAll(s, Refuses(s.runs[r].id, q));
      && Inv(s') && s.runs[r].id in s'.reviews && PresentStatus(s'.reviews[s.runs[r].id].status) == ProductRejected
      && q in s'.runs && s'.runs == s.runs[q := s'.runs[q]]
  {
    var id := s.runs[r].id;
    FiledWords(Submitted);
    hide Step, RunAll, Inv, ToReviewStatus, PresentStatus;
    RefusalIsSynced(s, q, id);
    ThreeKeepInv(s, Product(id, Filing("REJECTED")), SyncRead(q), Refresh(q, id));
  }

  lemma WritesLater(s: World, r: nat, first: seq<Action>, further: seq<Action>)
    requires WritesUnvetted(RunAll(RunAll(s, first), further), r)
    ensures WritesUnvetted(RunAll(s, first + further), r)
  {
    hide RunAll, WritesUnvetted;
    RunOn(s, first, further);
  }

  /** From a confirmed approval: another reviewer refuses the application, a sync shows that, the
      customer submits again, a second sync reopens the review, and the approval is written. */
  lemma ConfirmedSlips(s: World, r: nat) returns (more: seq<Action>)
    requires Inv(s) && r in s.runs && s.runs[r].Confirmed? && s.runs[r].decision.Approve?
    ensures WritesUnvetted(RunAll(s, more), r)
  {
    hide RunAll, Inv, ToReviewStatus, PresentStatus, WritesUnvetted, Refuses, Step, Checklist;
    HasReview(s, r);
    var q := TwoUnused(s.runs.Keys);
    FiledWords(Submitted);
    RefusesInOrder(s, r, q);
    var first := Refuses(s.runs[r].id, q);
    var s3 := RunAll(s, first);
    assert q != r && s3.runs[r] == s.runs[r] && q + 1 !in s3.runs;
    ResubmitsUnvetted(s3, r, q + 1);
    hide Resubmits;
    WritesLater(s, r, first, Resubmits(s3, r, q + 1));
    more := first + Resubmits(s3, r, q + 1);
  }

  function Resubmits(s: World, r: nat, q: nat): seq<Action>
    requires r in s.runs && s.runs[r].Confirmed?
  {
    [Product(s.runs[r].id, Filing("PENDING_REVIEW")), SyncRead(q), Refresh(q, s.runs[r].id)]
  }

  lemma ResubmitsUnvetted(s: World, r: nat, q: nat)
    requires Inv(s) && r in s.runs && q !in s.runs && s.runs[r].Confirmed? && s.runs[r].decision.Approve?
    requires s.runs[r].id in s.reviews && PresentStatus(s.reviews[s.runs[r].id].status) == ProductRejected
    requires ToReviewStatus("PENDING_REVIEW") == Some(Submitted)
    ensures WritesUnvetted(RunAll(s, Resubmits(s, r, q)), r)
  {
    var id, application := s.runs[r].id, Filing("PENDING_REVIEW");
    ResubmissionSlipsThrough(s, r, q, application);
    RunThree(s, Product(id, application), SyncRead(q), Refresh(q, id));
    ConsoleKept(s, id, application, q);
    hide Step, RunAll, Inv, Checklist, ToReviewStatus;
  }

  lemma ConsoleKept(s: World, id: string, application: Application, q: nat)
    ensures Step(Step(Step(s, Product(id, application)), SyncRead(q)), Refresh(q, id)).console == s.console
  {
    var s1 := Step(s, Product(id, application));
    var s2 := Step(s1, SyncRead(q));
    assert s1.console == s.console && s2.console == s.console;
    if Enabled(s2, Refresh(q, id)) { ConsoleGrowsOnlyByDecisions(s2, Refresh(q, id)); }
    hide Checklist, RefreshStep;
  }

  /** From a checked approval: the product presents like the review again, and the check of the live
      status passes. */
  lemma CheckedConfirms(s: World, r: nat)
    requires r in s.runs && s.runs[r].Checked? && s.runs[r].decision.Approve?
    ensures var s' := Step(Step(s, Product(s.runs[r].id, Filing(WordFor(s.runs[r].from)))), DecideLive(r));
      r in s'.runs && s'.runs[r].Confirmed? && s'.runs[r].decision.Approve?
  {
    hide Checklist, ToReviewStatus;
    FiledWords(s.runs[r].from);
    var application := Filing(WordFor(s.runs[r].from));
    assert application.status == WordFor(s.runs[r].from);
    hide Filing, WordFor, PresentStatus;
    var s1 := s.(apps := s.apps[s.runs[r].id := application]);
    assert Step(s, Product(s.runs[r].id, application)) == s1;
    assert Step(s1, DecideLive(r)) == DecideLiveStep(s1, r, s.runs[r]);
  }

  lemma ApprovingSlips(s: World, r: nat)
    requires Inv(s) && r in s.runs && Approving(s.runs[r])
    ensures CanSlip(s, r)
  {
    hide Step, Inv, RunAll, WritesUnvetted;
    if s.runs[r].Confirmed? {
      var more := ConfirmedSlips(s, r);
    } else {
      var back, live := Product(s.runs[r].id, Filing(WordFor(s.runs[r].from))), DecideLive(r);
      CheckedConfirms(s, r);
      StepKeepsInv(s, back);
      StepKeepsInv(Step(s, back), live);
      RunTwo(s, back, live);
      hide Filing, WordFor;
      var more := ConfirmedSlips(RunAll(s, [back, live]), r);
      RunOn(s, [back, live], more);
    }
  }

  lemma SlippingIsApproving(s: World, r: nat, more: seq<Action>)
    requires r in s.runs && WritesUnvetted(RunAll(s, more), r)
    ensures Approving(s.runs[r])
  {
    hide WritesUnvetted, RunAll;
    if !Approving(s.runs[r]) {
      NeverApproving(s, more, r);
      OnlyApprovingWrites(RunAll(s, more), r);
    }
  }

  /** In every reachable state a decision under way can still approve an application whose checklist was
      cleared if and only if it is past its checks with an approval. */
  lemma {:induction false} ApprovalSlipsExactlyWhen(origin: World, actions: seq<Action>, r: nat)
    requires Initial(origin) && r in RunAll(origin, actions).runs
    ensures var s := RunAll(origin, actions); CanSlip(s, r) <==> Approving(s.runs[r])
  {
    var s := RunAll(origin, actions);
    ReachableInv(origin, actions);
    hide RunAll, Inv, WritesUnvetted, Approving, Initial;
    if CanSlip(s, r) {
      var more :| WritesUnvetted(RunAll(s, more), r);
      SlippingIsApproving(s, r, more);
    }
    if Approving(s.runs[r]) { ApprovingSlips(s, r); }
  }

  // ------------------------------------------------------------ what a decision takes and leaves

  /** The reason the customer is shown: trimmed, and labelled when changes were asked for. */
  ghost predicate ShownReason(asked: Asked, reason: Option<string>, shown: Option<string>) {
    if reason.None? then shown == None
    else if asked.AskChanges? && Trim(reason.value) != "" then shown == Some("Changes requested: " + Trim(reason.value))
    else shown == Some(Trim(reason.value))
  }

  /** An approval needs every item passed and a review not approved yet; a rejection needs a reason and a
      review not rejected yet; both need the product to say what the review does. */
  ghost predicate MayBeDecided(apps: map<string, Application>, reviews: map<string, Review>, id: string, asked: Asked, reason: Option<string>) {
    && id in reviews && id in apps && Meaning(apps[id].status) == Some(PresentStatus(reviews[id].status))
    && (if asked.AskApprove?
        then PresentStatus(reviews[id].status) != ProductApproved && forall k :: k in reviews[id].checklist ==> reviews[id].checklist[k] == Some(true)
        else PresentStatus(reviews[id].status) != ProductRejected && reason.Some? && Trim(reason.value) != "")
  }

  ghost predicate DecidedIn(before: Application, after: Application, asked: Asked, reason: Option<string>, now: int) {
    && after.status == (if asked.AskApprove? then "APPROVED" else "REJECTED") && after.reviewedAt == Some(now)
    && (if asked.AskApprove? then after.reason == None else ShownReason(asked, reason, after.reason))
    && after.submittedAt == before.submittedAt && after.createdAt == before.createdAt
  }

  ghost predicate DecidedOn(before: Review, after: Review, asked: Asked, reason: Option<string>, now: int) {
    && after.status == (if asked.AskApprove? then Approved else Rejected) && after.decidedAt == Some(now)
    && ShownReason(asked, reason, after.reason)
    && after.submittedAt == before.submittedAt && after.assignee == before.assignee && after.checklist == before.checklist
  }

  lemma DecisionTells(application: Application, review: Review, asked: Asked, reason: Option<string>, now: int)
    ensures DecidedIn(application, DecidedApplication(application, DecisionOf(asked), ReasonOf(asked, reason), now), asked, reason, now)
    ensures DecidedOn(review, DecidedReview(review, DecisionOf(asked), ReasonOf(asked, reason), now), asked, reason, now)
  {
    hide Trim;
  }

  lemma DecisionNeeds(review: Review, asked: Asked, reason: Option<string>)
    ensures MayDecide(review, DecisionOf(asked), ReasonOf(asked, reason)) <==>
      if asked.AskApprove?
      then PresentStatus(review.status) != ProductApproved && forall k :: k in review.checklist ==> review.checklist[k] == Some(true)
      else PresentStatus(review.status) != ProductRejected && reason.Some? && Trim(reason.value) != ""
  {
    AllowedUnlessDecided(review.status, DecisionOf(asked));
    hide Trim, AllowedDecisions;
  }

  // ------------------------------------------------------------ what the checklist records

  /** Each listed item holds the value of its last mark, and every other item is what it was. */
  ghost predicate Recorded(before: map<string, Option<bool>>, items: seq<Mark>, after: map<string, Option<bool>>) {
    && after.Keys == before.Keys
    && (forall i :: 0 <= i < |items| && (forall j :: i < j < |items| ==> items[j].key != items[i].key) ==>
          items[i].key in after && after[items[i].key] == Some(items[i].passed))
    && (forall k :: k in before && (forall i :: 0 <= i < |items| ==> items[i].key != k) ==> after[k] == before[k])
  }

  lemma {:induction false} MarkedRecords(checklist: map<string, Option<bool>>, items: seq<Mark>)
    requires forall m :: m in items ==> m.key in checklist
    ensures Recorded(checklist, items, Marked(checklist, items))
    decreases |items|
  {
    if items != [] {
      var first, rest := checklist[items[0].key := Some(items[0].passed)], items[1..];
      assert items[0] in items;
      assert forall m :: m in rest ==> m in items;
      MarkedRecords(first, rest);
      var after := Marked(first, rest);
      forall i | 0 <= i < |items| && forall j :: i < j < |items| ==> items[j].key != items[i].key
        ensures items[i].key in after && after[items[i].key] == Some(items[i].passed)
      {
        if i > 0 {
          assert rest[i - 1] == items[i];
          assert forall j :: i - 1 < j < |rest| ==> rest[j] == items[j + 1];
        } else {
          assert forall j :: 0 <= j < |rest| ==> rest[j] == items[j + 1];
        }
      }
      forall k | k in checklist && forall i :: 0 <= i < |items| ==> items[i].key != k ensures after[k] == checklist[k] {
        assert forall j :: 0 <= j < |rest| ==> rest[j] == items[j + 1];
        assert items[0].key != k;
      }
    }
  }

  /** With every item of the checklist marked, and every mark a pass, the waiting review may be approved. */
  lemma {:induction false} AllPassedMayApprove(review: Review, items: seq<Mark>, after: Review, reason: Option<string>)
    requires PresentStatus(review.status) == PendingReview && review.checklist.Keys == Checklist()
    requires forall k :: k in Checklist() <==> exists i :: 0 <= i < |items| && items[i].key == k
    requires forall m :: m in items ==> m.passed
    requires Recorded(review.checklist, items, after.checklist) && after.status == review.status
    ensures MayDecide(after, Approve, ReasonOf(AskApprove, reason))
  {
    hide Checklist;
    DecisionNeeds(after, AskApprove, reason);
    forall k | k in after.checklist ensures after.checklist[k] == Some(true) {
      var i :| 0 <= i < |items| && items[i].key == k;
      var last := LastMark(items, k, i);
      assert items[last] in items;
    }
  }

  lemma {:induction false} LastMark(items: seq<Mark>, k: string, i: nat) returns (last: nat)
    requires i < |items| && items[i].key == k
    ensures last < |items| && items[last].key == k && forall j :: last < j < |items| ==> items[j].key != items[last].key
    decreases |items| - i
  {
    if j :| i < j < |items| && items[j].key == k { last := LastMark(items, k, j); } else { last := i; }
  }

  // ------------------------------------------------------------ what one sync leaves

  function AfterRefresh(review: Review, application: Application, now: int): Review {
    if Drifted(application, review.status) then Refreshed(review, application, ToReviewStatus(application.status).value, now)
    else review
  }

  predicate Filed(application: Application) { ToReviewStatus(application.status).Some? }

  /** The reviews after a sync that nothing interrupts. */
  function Synced(apps: map<string, Application>, reviews: map<string, Review>, now: int): map<string, Review> {
    map id | id in reviews.Keys + apps.Keys && (id in reviews || Filed(apps[id])) ::
      if id !in reviews then Created(apps[id], ToReviewStatus(apps[id].status).value, now)
      else if id in apps then AfterRefresh(reviews[id], apps[id], now)
      else reviews[id]
  }

  /** The applications a sync makes a review for, and the reviews it refreshes. */
  function Missing(apps: map<string, Application>, reviews: map<string, Review>): set<string> {
    set id | id in apps && id !in reviews && Filed(apps[id])
  }

  function Drifts(apps: map<string, Application>, reviews: map<string, Review>): set<string> {
    set id | id in apps && id in reviews && Drifted(apps[id], reviews[id].status)
  }

  /** Whatever the two stores said, afterwards every filed application has its review and the two
      agree in the product's words; no other review was made or touched. */
  lemma {:induction false} SyncAgrees(apps: map<string, Application>, reviews: map<string, Review>, now: int, id: string)
    ensures var after := Synced(apps, reviews, now);
      && (id in apps && Filed(apps[id]) ==>
            id in after && Meaning(apps[id].status) == Some(PresentStatus(after[id].status)))
      && (id !in apps || !Filed(apps[id]) ==>
            (id in after <==> id in reviews) && (id in reviews ==> after[id] == reviews[id]))
      && (id in apps && id in reviews && Meaning(apps[id].status) == Some(PresentStatus(reviews[id].status)) ==>
            after[id] == reviews[id])
  {
    if id in apps { StatusesAgree(apps[id].status, Approve); }
    hide Checklist, ToReviewStatus, Meaning;
  }

  /** What a review made for an application says. */
  ghost predicate MadeFor(application: Application, review: Review, now: int) {
    var decided := Meaning(application.status) != Some(PendingReview);
    && review.submittedAt == (if application.submittedAt.Some? then application.submittedAt.value else application.createdAt)
    && review.decidedAt == (if !decided then None else if application.reviewedAt.Some? then application.reviewedAt else Some(now))
    && review.reason == application.reason && review.assignee == None
    && review.checklist.Keys == Checklist() && forall k :: k in review.checklist ==> review.checklist[k] == None
  }

  /** What a review that had drifted says afterwards: the product's decision, its time and its reason; or,
      waiting again, nothing decided, nobody assigned, a fresh clock and a blank checklist. */
  ghost predicate CaughtUp(before: Review, application: Application, after: Review, now: int) {
    if Meaning(application.status) == Some(PendingReview) then
      && after.decidedAt == None && after.reason == None && after.assignee == None
      && after.submittedAt == (if application.submittedAt.Some? then application.submittedAt.value else now)
      && after.checklist.Keys == before.checklist.Keys && forall k :: k in after.checklist ==> after.checklist[k] == None
    else
      && after.decidedAt == (if application.reviewedAt.Some? then application.reviewedAt else Some(now))
      && after.reason == application.reason
      && after.submittedAt == before.submittedAt && after.assignee == before.assignee && after.checklist == before.checklist
  }

  /** The reviews after a sync, in the product's words. */
  ghost predicate SyncTells(apps: map<string, Application>, before: map<string, Review>, after: map<string, Review>, now: int) {
    forall id ::
      var filed := id in apps && Meaning(apps[id].status).Some? && Meaning(apps[id].status) != Some(Draft);
      && (id in after <==> id in before || filed)
      && (id in after && filed ==> Meaning(apps[id].status) == Some(PresentStatus(after[id].status)))
      && (id in before ==>
            if filed && Meaning(apps[id].status) != Some(PresentStatus(before[id].status))
            then id in after && CaughtUp(before[id], apps[id], after[id], now)
            else id in after && after[id] == before[id])
      && (id !in before && filed ==> id in after && MadeFor(apps[id], after[id], now))
  }

  lemma {:induction false} SyncedTells(apps: map<string, Application>, reviews: map<string, Review>, now: int)
    ensures SyncTells(apps, reviews, Synced(apps, reviews, now), now)
  {
    var after := Synced(apps, reviews, now);
    forall id
      ensures var filed := id in apps && Meaning(apps[id].status).Some? && Meaning(apps[id].status) != Some(Draft);
        && (id in after <==> id in reviews || filed)
        && (id in after && filed ==> Meaning(apps[id].status) == Some(PresentStatus(after[id].status)))
        && (id in reviews ==>
              if filed && Meaning(apps[id].status) != Some(PresentStatus(reviews[id].status))
              then id in after && CaughtUp(reviews[id], apps[id], after[id], now)
              else id in after && after[id] == reviews[id])
        && (id !in reviews && filed ==> id in after && MadeFor(apps[id], after[id], now))
    {
      if id in apps {
        StatusesAgree(apps[id].status, Approve);
        OneSynced(apps[id], if id in reviews then Some(reviews[id]) else None, now);
      }
      hide ToReviewStatus, Meaning, AfterRefresh, Created, MadeFor, CaughtUp;
    }
  }

  lemma OneSynced(application: Application, review: Option<Review>, now: int)
    requires ToReviewStatus(application.status).Some?
      <==> Meaning(application.status).Some? && Meaning(application.status).value != Draft
    requires ToReviewStatus(application.status).Some? ==> PresentStatus(ToReviewStatus(application.status).value) == Meaning(application.status).value
    ensures Filed(application) && review.None? ==>
      var made := Created(application, ToReviewStatus(application.status).value, now);
      MadeFor(application, made, now) && Meaning(application.status) == Some(PresentStatus(made.status))
    ensures review.Some? ==>
      var after := AfterRefresh(review.value, application, now);
      (if Filed(application) && Meaning(application.status) != Some(PresentStatus(review.value.status))
       then CaughtUp(review.value, application, after, now) else after == review.value)
      && (Filed(application) ==> Meaning(application.status) == Some(PresentStatus(after.status)))
  {
    OnlyThreeStored(application.status);
    hide ToReviewStatus, Meaning;
  }

  lemma OnlyThreeStored(word: string)
    ensures ToReviewStatus(word).Some? ==> ToReviewStatus(word).value in {Submitted, Approved, Rejected}
  {
    hide Trim, Upper;
  }

  /** A second sync finds nothing to create and nothing to refresh. */
  lemma {:induction false} SyncTwiceIsOnce(apps: map<string, Application>, reviews: map<string, Review>, now: int, later: int)
    ensures var once := Synced(apps, reviews, now);
      && Missing(apps, once) == {} && Drifts(apps, once) == {} && Synced(apps, once, later) == once
  {
    hide Checklist, ToReviewStatus;
    var once := Synced(apps, reviews, now);
    forall id | id in apps && id in once ensures !Drifted(apps[id], once[id].status) {}
    assert Synced(apps, once, later).Keys == once.Keys;
  }

  /** A decision that stopped after the product transaction is finished by the next sync: the review
      gets the decision, its time and the reason the customer was shown. */
  lemma {:induction false} SyncFinishesADecision(
    apps: map<string, Application>, reviews: map<string, Review>, id: string, decision: Decision, reason: Option<string>,
    wrote: int, now: int)
    requires id in apps && id in reviews && decision in AllowedDecisions(reviews[id].status)
    ensures var written := DecidedApplication(apps[id], decision, reason, wrote);
      Synced(apps[id := written], reviews, now)[id] ==
      reviews[id].(status := Stored(decision), decidedAt := Some(wrote), reason := written.reason)
  {
    StatusesAgree(Word(decision), decision);
    AllowedUnlessDecided(reviews[id].status, decision);
    hide Checklist, ToReviewStatus, Meaning, Word;
  }

  /** A refresh that finds the application waiting again reopens the review in full. */
  lemma {:induction false} ResubmittedStartsOver(review: Review, application: Application, now: int)
    requires Drifted(application, review.status) && Meaning(application.status) == Some(PendingReview)
    ensures var after := AfterRefresh(review, application, now);
      && after.decidedAt == None && after.assignee == None && after.reason == None
      && after.checklist.Keys == review.checklist.Keys && forall k :: k in after.checklist ==> after.checklist[k] == None
  {
    StatusesAgree(application.status, Approve);
    hide Meaning, Trim, Upper;
  }
}
