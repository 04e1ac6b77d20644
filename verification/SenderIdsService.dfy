/** The sync and the decision of the sender ID service, statement by statement, on the two stores.

    `past` is every action so far: each method appends the actions its awaited calls perform, so
    whatever holds of every run of `SenderIds` holds of these fields. */
module SenderIdsService {
  import opened Prelude
  import opened SenderIdState
  import opened SenderIds

  ghost predicate NoDuplicates(ids: seq<string>) { forall i, j :: 0 <= i < j < |ids| ==> ids[i] != ids[j] }

  /** The order in which a query returned the rows of a table. */
  ghost predicate Lists<T>(ids: seq<string>, table: map<string, T>) {
    NoDuplicates(ids) && forall id :: id in ids <==> id in table
  }

  /** The review allows the decision, and the product reads as the review presents. */
  predicate MayWrite(apps: map<string, Application>, reviews: map<string, Review>, id: string, decision: Decision, reason: Option<string>) {
    && id in reviews && MayDecide(reviews[id], decision, reason)
    && id in apps && Meaning(apps[id].status) == Some(PresentStatus(reviews[id].status))
  }

  lemma MayWriteMeans(apps: map<string, Application>, reviews: map<string, Review>, id: string, asked: Asked, reason: Option<string>)
    ensures MayWrite(apps, reviews, id, DecisionOf(asked), ReasonOf(asked, reason)) <==> MayBeDecided(apps, reviews, id, asked, reason)
  {
    if id in reviews { DecisionNeeds(reviews[id], asked, reason); }
    hide MayDecide, ReasonOf, Meaning, Trim;
  }

  lemma ChecklistStep(s: World, id: string, items: seq<Mark>)
    requires id in s.reviews && forall m :: m in items ==> m.key in Checklist()
    ensures Step(s, Action.UpdateChecklist(id, items)) ==
      s.(reviews := s.reviews[id := s.reviews[id].(checklist := Marked(s.reviews[id].checklist, items))],
         passed := s.passed[id := PassedSince(s, id) + PassedKeys(items)])
  {
    hide Checklist, Marked, PassedKeys, PassedSince, RefreshStep, DecideReadStep, DecideLiveStep, DecideWriteStep, DecideRecordStep, ImportReadStep, ImportCreateStep;
  }

  /** Only the review's checklist changed, and it records the marks. */
  ghost predicate ChecklistRecorded(before: map<string, Review>, after: map<string, Review>, id: string, items: seq<Mark>) {
    && id in before && id in after && after == before[id := after[id]]
    && after[id] == before[id].(checklist := after[id].checklist)
    && Recorded(before[id].checklist, items, after[id].checklist)
  }

  lemma MarksAreRecorded(start: World, past: seq<Action>, s: World, id: string, items: seq<Mark>)
    requires Initial(start) && s == RunAll(start, past) && id in s.reviews
    ensures (forall m :: m in items ==> m.key in Checklist()) ==>
      ChecklistRecorded(s.reviews, s.reviews[id := s.reviews[id].(checklist := Marked(s.reviews[id].checklist, items))], id, items)
  {
    StoredChecklist(start, past, s, id);
    hide RunAll, Initial, Checklist, Marked, Recorded;
    if forall m :: m in items ==> m.key in Checklist() { MarkedRecords(s.reviews[id].checklist, items); }
  }

  lemma StoredChecklist(start: World, past: seq<Action>, s: World, id: string)
    requires Initial(start) && s == RunAll(start, past) && id in s.reviews
    ensures s.reviews[id].checklist.Keys == Checklist()
  {
    ReachableInv(start, past);
    hide RunAll, Initial, Checklist, RunsOk, ConsoleOk;
    assert ReviewOk(s.reviews[id], PassedSince(s, id));
  }

  /** The application is decided when the decision is allowed and its transaction commits, acknowledged or
      not; the review when that was acknowledged and its own update commits; nothing else changes. */
  ghost predicate Outcome(apps: map<string, Application>, reviews: map<string, Review>, apps': map<string, Application>, reviews': map<string, Review>,
                          id: string, asked: Asked, reason: Option<string>, write: Write, record: Write, now: int) {
    var may := MayBeDecided(apps, reviews, id, asked, reason);
    && (if may && !write.Refused?
        then id in apps && id in apps' && apps' == apps[id := apps'[id]] && DecidedIn(apps[id], apps'[id], asked, reason, now)
        else apps' == apps)
    && (if may && write.Committed? && !record.Refused?
        then id in reviews && id in reviews' && reviews' == reviews[id := reviews'[id]] && DecidedOn(reviews[id], reviews'[id], asked, reason, now)
        else reviews' == reviews)
  }

  lemma OutcomeTells(apps: map<string, Application>, reviews: map<string, Review>, id: string, asked: Asked, reason: Option<string>,
                     write: Write, record: Write, now: int)
    ensures var may := MayWrite(apps, reviews, id, DecisionOf(asked), ReasonOf(asked, reason));
      Outcome(apps, reviews,
        if may && !write.Refused? then apps[id := DecidedApplication(apps[id], DecisionOf(asked), ReasonOf(asked, reason), now)] else apps,
        if may && write.Committed? && !record.Refused?
          then reviews[id := DecidedReview(reviews[id], DecisionOf(asked), ReasonOf(asked, reason), now)] else reviews,
        id, asked, reason, write, record, now)
  {
    MayWriteMeans(apps, reviews, id, asked, reason);
    if id in apps && id in reviews { DecisionTells(apps[id], reviews[id], asked, reason, now); }
    hide DecidedIn, DecidedOn, DecidedApplication, DecidedReview, ReasonOf, MayDecide, Meaning;
  }

  lemma Took(start: World, past: seq<Action>, s: World, s': World, a: Action)
    requires s == RunAll(start, past) && s' == Step(s, a)
    ensures s' == RunAll(start, past + [a])
  {
    assert (past + [a])[..|past|] == past;
  }

  /** The reviews when the refresh loop has visited the first of the ids. */
  ghost predicate RefreshedSoFar(
    apps: map<string, Application>, before: map<string, Review>, reviews: map<string, Review>, visited: seq<string>, now: int)
  {
    && reviews.Keys == before.Keys
    && forall id :: id in before ==>
        reviews[id] == if id in visited && id in apps then AfterRefresh(before[id], apps[id], now) else before[id]
  }

  /** The reviews when the import loop has visited the first of the applications. */
  ghost predicate ImportedSoFar(
    apps: map<string, Application>, before: map<string, Review>, reviews: map<string, Review>, visited: seq<string>, now: int)
  {
    && (forall id :: id in reviews <==> id in before || (id in visited && id in apps && Filed(apps[id])))
    && forall id :: id in reviews ==>
        reviews[id] == if id in before then before[id] else Created(apps[id], ToReviewStatus(apps[id].status).value, now)
  }

  lemma RefreshOneMore(
    apps: map<string, Application>, before: map<string, Review>, reviews: map<string, Review>, reviews': map<string, Review>,
    visited: seq<string>, id: string, now: int)
    requires RefreshedSoFar(apps, before, reviews, visited, now) && id in before && id !in visited
    requires reviews' == if id in apps then reviews[id := AfterRefresh(reviews[id], apps[id], now)] else reviews
    ensures RefreshedSoFar(apps, before, reviews', visited + [id], now)
  {
    hide AfterRefresh;
  }

  lemma NotYetVisited(
    apps: map<string, Application>, before: map<string, Review>, reviews: map<string, Review>, visited: seq<string>, id: string, now: int)
    requires RefreshedSoFar(apps, before, reviews, visited, now) && id in before && id !in visited
    ensures id in reviews && reviews[id] == before[id]
  {
  }

  lemma ImportOneMore(
    apps: map<string, Application>, before: map<string, Review>, reviews: map<string, Review>, reviews': map<string, Review>,
    visited: seq<string>, id: string, now: int)
    requires ImportedSoFar(apps, before, reviews, visited, now) && id in apps
    requires reviews' == if id in reviews || !Filed(apps[id]) then reviews
      else reviews[id := Created(apps[id], ToReviewStatus(apps[id].status).value, now)]
    ensures ImportedSoFar(apps, before, reviews', visited + [id], now)
  {
    hide Created, ToReviewStatus;
  }

  /** The two loops, one after the other, are the sync. */
  lemma BothLoops(
    apps: map<string, Application>, before: map<string, Review>, middle: map<string, Review>, after: map<string, Review>,
    reviewIds: seq<string>, appIds: seq<string>, now: int)
    requires RefreshedSoFar(apps, before, middle, reviewIds, now) && ImportedSoFar(apps, middle, after, appIds, now)
    requires (forall id :: id in reviewIds <==> id in before) && (forall id :: id in appIds <==> id in apps)
    ensures after == Synced(apps, before, now)
  {
    hide AfterRefresh, Created, ToReviewStatus;
  }

  function Among(all: set<string>, visited: seq<string>): set<string> { set k | k in all && k in visited }

  /** Counting the ids of a list that belong to a set, one at a time. */
  lemma CountOneMore(all: set<string>, visited: seq<string>, id: string)
    requires id !in visited
    ensures |Among(all, visited + [id])| == |Among(all, visited)| + (if id in all then 1 else 0)
  {
    assert Among(all, visited + [id]) == if id in all then Among(all, visited) + {id} else Among(all, visited);
  }

  lemma CountEnds(all: set<string>, ids: seq<string>)
    requires forall k :: k in all ==> k in ids
    ensures Among(all, ids) == all && Among(all, ids[..0]) == {}
  {
  }

  lemma NothingRefreshed(apps: map<string, Application>, before: map<string, Review>, now: int)
    ensures RefreshedSoFar(apps, before, before, [], now)
  {
  }

  lemma DriftsHolds(apps: map<string, Application>, reviews: map<string, Review>, id: string)
    requires id in reviews
    ensures id in Drifts(apps, reviews) <==> id in apps && Drifted(apps[id], reviews[id].status)
  {
    hide Drifted;
  }

  lemma DriftsAreListed(apps: map<string, Application>, reviews: map<string, Review>, ids: seq<string>)
    requires forall id :: id in ids <==> id in reviews
    ensures forall id :: id in Drifts(apps, reviews) ==> id in ids
  {
    hide Drifted;
  }

  lemma PrefixGrows(ids: seq<string>, i: nat)
    requires NoDuplicates(ids) && i < |ids|
    ensures ids[..i + 1] == ids[..i] + [ids[i]] && ids[i] !in ids[..i]
  {
  }

  class SenderIdsService {
    var now: int
    var apps: map<string, Application>
    var reviews: map<string, Review>
    ghost var runs: map<nat, Run>
    ghost var reopens: map<string, nat>
    ghost var passed: map<string, set<string>>
    ghost var console: seq<ConsoleWrite>
    ghost const start: World
    ghost var past: seq<Action>

    ghost function Model(): World
      reads this
    {
      World(now, apps, reviews, runs, reopens, passed, console)
    }

    ghost predicate Ok()
      reads this
    {
      Initial(start) && Model() == RunAll(start, past)
    }

    constructor (now: int, apps: map<string, Application>, reviews: map<string, Review>, ghost passed: map<string, set<string>>)
      requires Initial(World(now, apps, reviews, map[], map[], passed, []))
      ensures Ok() && past == [] && this.apps == apps && this.reviews == reviews
    {
      this.now, this.apps, this.reviews, this.passed := now, apps, reviews, passed;
      runs, reopens, console, past := map[], map[], [], [];
      start := World(now, apps, reviews, map[], map[], passed, []);
    }

    /** Both stores are read at once. */
    method ReadStores(r: nat)
      requires Ok() && r !in runs
      modifies this`runs, this`past
      ensures Ok() && past == old(past) + [SyncRead(r)]
      ensures r in runs && runs[r] == Syncing(apps, map id | id in reviews :: reviews[id].status)
    {
      ghost var before := Model();
      runs := runs[r := Syncing(apps, map id | id in reviews :: reviews[id].status)];
      hide RunAll, Initial;
      Took(start, past, before, Model(), SyncRead(r));
      past := past + [SyncRead(r)];
    }

    /** One turn of the refresh loop. */
    method RefreshReview(r: nat, id: string, application: Application, seen: ReviewStatus) returns (refreshed: bool)
      requires Ok() && id in reviews && r in runs && runs[r].Syncing?
      requires id in runs[r].apps && runs[r].apps[id] == application && id in runs[r].seen && runs[r].seen[id] == seen
      modifies this`reviews, this`reopens, this`passed, this`past
      ensures Ok() && past == old(past) + [Refresh(r, id)]
      ensures refreshed == Drifted(application, seen)
      ensures reviews == if !refreshed then old(reviews)
        else old(reviews)[id := Refreshed(old(reviews)[id], application, ToReviewStatus(application.status).value, now)]
    {
      ghost var before := Model();
      hide RunAll, Initial, ToReviewStatus, Refreshed, Checklist;
      var mapped := ToReviewStatus(application.status);
      refreshed := mapped.Some? && PresentStatus(mapped.value) != PresentStatus(seen);
      if refreshed {
        reviews := reviews[id := Refreshed(reviews[id], application, mapped.value, now)];
        if !Decided(mapped.value) {
          reopens := reopens[id := Reopens(before, id) + 1];
          passed := passed[id := {}];
        }
      }
      assert Model() == RefreshStep(before, id, application, seen);
      hide RefreshStep;
      Took(start, past, before, Model(), Refresh(r, id));
      past := past + [Refresh(r, id)];
    }

    /** `ensureReview`, within a sync. */
    method EnsureReview(r: nat, id: string) returns (made: bool)
      requires Ok() && r in runs && runs[r].Syncing?
      modifies this
      ensures Ok() && old(past) <= past && now == old(now) && apps == old(apps)
      ensures r in runs && runs[r] == old(runs)[r]
      ensures made == (id !in old(reviews) && id in apps && Filed(apps[id]))
      ensures reviews == if !made then old(reviews)
        else old(reviews)[id := Created(apps[id], ToReviewStatus(apps[id].status).value, now)]
    {
      ghost var sync := runs[r];
      made := BeginImport(r, id);
      if made { FinishImport(r, id, apps[id], sync.apps, sync.seen); }
    }

    /** The lookups of `ensureReview`. */
    method BeginImport(r: nat, id: string) returns (go: bool)
      requires Ok() && r in runs && runs[r].Syncing?
      modifies this`runs, this`past
      ensures Ok() && past == old(past) + [ImportRead(r, id)]
      ensures go == (id !in reviews && id in apps && Filed(apps[id]))
      ensures runs == if go then old(runs)[r := Importing(old(runs)[r].apps, old(runs)[r].seen, id, apps[id])] else old(runs)
    {
      ghost var before := Model();
      hide RunAll, Initial, ToReviewStatus, Checklist;
      go := id !in reviews && id in apps && Filed(apps[id]);
      if go { runs := runs[r := Importing(runs[r].apps, runs[r].seen, id, apps[id])]; }
      Took(start, past, before, Model(), ImportRead(r, id));
      past := past + [ImportRead(r, id)];
    }

    /** The insert of `ensureReview`. */
    method FinishImport(r: nat, id: string, read: Application, ghost snapshot: map<string, Application>, ghost seen: map<string, ReviewStatus>)
      requires Ok() && r in runs && runs[r] == Importing(snapshot, seen, id, read) && id !in reviews && Filed(read)
      modifies this`runs, this`reviews, this`passed, this`past
      ensures Ok() && past == old(past) + [ImportCreate(r)]
      ensures reviews == old(reviews)[id := Created(read, ToReviewStatus(read.status).value, now)]
      ensures runs == old(runs)[r := Syncing(snapshot, seen)]
    {
      ghost var before := Model();
      hide RunAll, Initial, ToReviewStatus, Created, Checklist;
      reviews := reviews[id := Created(read, ToReviewStatus(read.status).value, now)];
      passed := passed[id := {}];
      runs := runs[r := Syncing(snapshot, seen)];
      Took(start, past, before, Model(), ImportCreate(r));
      past := past + [ImportCreate(r)];
    }

    /** The body of the refresh loop: a review whose application is gone is left alone. */
    method RefreshKnown(r: nat, id: string) returns (changed: bool)
      requires Ok() && id in reviews && r in runs && runs[r].Syncing? && runs[r].apps == apps
      requires id in runs[r].seen && runs[r].seen[id] == reviews[id].status
      modifies this`reviews, this`reopens, this`passed, this`past
      ensures Ok() && old(past) <= past
      ensures changed == (id in apps && Drifted(apps[id], old(reviews)[id].status))
      ensures reviews == if id in apps then old(reviews)[id := AfterRefresh(old(reviews)[id], apps[id], now)] else old(reviews)
    {
      hide RunAll, Initial, Drifted, Refreshed, ToReviewStatus;
      changed := false;
      if id in apps { changed := RefreshReview(r, id, apps[id], reviews[id].status); }
    }

    /** The loop's turn on the next review, none of which was visited before. */
    method RefreshNext(r: nat, id: string, ghost before: map<string, Review>, ghost visited: seq<string>) returns (changed: bool)
      requires Ok() && r in runs && runs[r].Syncing? && runs[r].apps == apps && id in before && id !in visited
      requires id in runs[r].seen && runs[r].seen[id] == before[id].status && RefreshedSoFar(apps, before, reviews, visited, now)
      modifies this`reviews, this`reopens, this`passed, this`past
      ensures Ok() && old(past) <= past && RefreshedSoFar(apps, before, reviews, visited + [id], now)
      ensures changed == (id in Drifts(apps, before))
    {
      hide RefreshedSoFar, RunAll, Initial, AfterRefresh, Drifts, Drifted;
      NotYetVisited(apps, before, reviews, visited, id, now);
      DriftsHolds(apps, before, id);
      ghost var reviews0 := reviews;
      changed := RefreshKnown(r, id);
      RefreshOneMore(apps, before, reviews0, reviews, visited, id, now);
    }

    /** `refreshDrifted`. */
    method RefreshDrifted(r: nat, reviewIds: seq<string>) returns (refreshed: nat)
      requires Ok() && r in runs && runs[r] == Syncing(apps, map id | id in reviews :: reviews[id].status) && Lists(reviewIds, reviews)
      modifies this`reviews, this`reopens, this`passed, this`past
      ensures Ok() && old(past) <= past
      ensures RefreshedSoFar(apps, old(reviews), reviews, reviewIds, now)
      ensures refreshed == |Drifts(apps, old(reviews))|
    {
      ghost var before, past0 := reviews, past;
      ghost var drifts := Drifts(apps, before);
      ghost var seen := runs[r].seen;
      DriftsAreListed(apps, before, reviewIds);
      CountEnds(drifts, reviewIds);
      NothingRefreshed(apps, before, now);
      assert forall id :: id in before ==> id in seen && seen[id] == before[id].status;
      hide Among, RefreshedSoFar, RunAll, Initial, Drifts, Ok;
      refreshed := 0;
      assert reviewIds[..0] == [];
      for i := 0 to |reviewIds|
        invariant Ok() && past0 <= past
        invariant RefreshedSoFar(apps, before, reviews, reviewIds[..i], now)
        invariant refreshed == |Among(drifts, reviewIds[..i])|
      {
        var id := reviewIds[i];
        PrefixGrows(reviewIds, i);
        assert id in reviewIds;
        CountOneMore(drifts, reviewIds[..i], id);
        hide NoDuplicates;
        var changed := RefreshNext(r, id, before, reviewIds[..i]);
        if changed { refreshed := refreshed + 1; }
      }
      assert reviewIds[..|reviewIds|] == reviewIds;
    }

    /** The import loop. */
    method ImportMissing(r: nat, appIds: seq<string>) returns (created: nat)
      requires Ok() && r in runs && runs[r].Syncing? && Lists(appIds, apps)
      modifies this
      ensures Ok() && old(past) <= past && now == old(now) && apps == old(apps)
      ensures ImportedSoFar(apps, old(reviews), reviews, appIds, now)
      ensures created == |Missing(apps, old(reviews))|
    {
      ghost var before := reviews;
      ghost var missing := Missing(apps, before);
      ghost var past0, apps0, now0 := past, apps, now;
      CountEnds(missing, appIds);
      hide Among;
      created := 0;
      for i := 0 to |appIds|
        invariant Ok() && past0 <= past && r in runs && runs[r].Syncing? && apps == apps0 && now == now0
        invariant ImportedSoFar(apps, before, reviews, appIds[..i], now)
        invariant created == |Among(missing, appIds[..i])|
      {
        var id := appIds[i];
        PrefixGrows(appIds, i);
        assert id in appIds;
        ghost var reviews0 := reviews;
        CountOneMore(missing, appIds[..i], id);
        assert id in reviews <==> id in before;
        hide ImportedSoFar, ToReviewStatus, RunAll, Initial, Checklist, Created;
        if Filed(apps[id]) {
          var made := EnsureReview(r, id);
          if made { created := created + 1; }
        }
        ImportOneMore(apps, before, reviews0, reviews, appIds[..i], id, now);
      }
      assert appIds[..|appIds|] == appIds;
    }

    /** `syncFromProduct`, uninterrupted, from whatever state the two stores are in. */
    method SyncFromProduct(r: nat, appIds: seq<string>, reviewIds: seq<string>) returns (created: nat, refreshed: nat)
      requires Ok() && r !in runs && Lists(appIds, apps) && Lists(reviewIds, reviews)
      modifies this
      ensures Ok() && old(past) <= past && apps == old(apps)
      ensures reviews == Synced(apps, old(reviews), now)
      ensures SyncTells(apps, old(reviews), reviews, now)
      ensures created == |Missing(apps, old(reviews))| && refreshed == |Drifts(apps, old(reviews))|
    {
      ghost var before := reviews;
      hide RunAll, Initial, RefreshedSoFar, ImportedSoFar, Synced, SyncTells;
      ReadStores(r);
      refreshed := RefreshDrifted(r, reviewIds);
      ghost var middle := reviews;
      MissingAfterRefresh(apps, before, middle, reviewIds, now);
      created := ImportMissing(r, appIds);
      BothLoops(apps, before, middle, reviews, reviewIds, appIds, now);
      SyncedTells(apps, before, now);
    }

    /** The updates of the items, one after the other. */
    static method MarkAll(before: map<string, Option<bool>>, items: seq<Mark>) returns (checklist: map<string, Option<bool>>)
      ensures checklist == Marked(before, items)
      ensures (forall m :: m in items ==> m.key in before) ==> Recorded(before, items, checklist)
    {
      if forall m :: m in items ==> m.key in before { MarkedRecords(before, items); }
      hide Recorded;
      checklist := before;
      assert items[0..] == items;
      for i := 0 to |items|
        invariant Marked(checklist, items[i..]) == Marked(before, items)
      {
        assert items[i..][0] == items[i] && items[i..][1..] == items[i + 1..];
        checklist := checklist[items[i].key := Some(items[i].passed)];
      }
      assert items[|items|..] == [];
    }

    /** `updateChecklist`: the items are updated one by one in one transaction, or none is. */
    method UpdateChecklist(id: string, items: seq<Mark>) returns (ok: bool)
      requires Ok()
      modifies this`reviews, this`passed, this`past
      ensures Ok() && ok == (id in old(reviews) && forall m :: m in items ==> m.key in Checklist())
      ensures if ok then past == old(past) + [Action.UpdateChecklist(id, items)] else past == old(past)
      ensures reviews == if ok then old(reviews)[id := old(reviews)[id].(checklist := Marked(old(reviews)[id].checklist, items))]
        else old(reviews)
      ensures ok ==> id in reviews && ChecklistRecorded(old(reviews), reviews, id, items)
    {
      ghost var before := Model();
      if id in reviews { MarksAreRecorded(start, past, before, id, items); }
      hide RunAll, Initial, Checklist, PassedKeys, ChecklistRecorded;
      ok := id in reviews && forall m :: m in items ==> m.key in Checklist();
      if !ok { return; }
      hide Marked, PassedSince;
      var checklist := MarkAll(reviews[id].checklist, items);
      StoreChecklist(id, items, checklist);
    }

    /** The transaction commits. */
    method StoreChecklist(id: string, ghost items: seq<Mark>, checklist: map<string, Option<bool>>)
      requires Ok() && id in reviews && (forall m :: m in items ==> m.key in Checklist())
      requires checklist == Marked(reviews[id].checklist, items)
      modifies this`reviews, this`passed, this`past
      ensures Ok() && past == old(past) + [Action.UpdateChecklist(id, items)]
      ensures reviews == old(reviews)[id := old(reviews)[id].(checklist := checklist)]
    {
      ghost var before := Model();
      ChecklistStep(before, id, items);
      hide RunAll, Initial, Checklist, PassedKeys, Marked, Step, PassedSince;
      reviews := reviews[id := reviews[id].(checklist := checklist)];
      passed := passed[id := PassedSince(before, id) + PassedKeys(items)];
      Took(start, past, before, Model(), Action.UpdateChecklist(id, items));
      past := past + [Action.UpdateChecklist(id, items)];
    }

    /** The checks of `decide` on the review. */
    method BeginDecide(r: nat, id: string, asked: Asked, reason: Option<string>) returns (go: bool)
      requires Ok() && r !in runs
      modifies this`runs, this`past
      ensures Ok() && past == old(past) + [DecideRead(r, id, asked, reason)]
      ensures go == (id in reviews && MayDecide(reviews[id], DecisionOf(asked), ReasonOf(asked, reason)))
      ensures r in runs && runs[r] ==
        if go then Run.Checked(id, reviews[id].status, DecisionOf(asked), ReasonOf(asked, reason), Reopens(Model(), id))
        else Ended
    {
      ghost var before := Model();
      hide RunAll, Initial, MayDecide, ReasonOf;
      var decision := DecisionOf(asked);
      go := id in reviews && MayDecide(reviews[id], decision, ReasonOf(asked, reason));
      ghost var next := if go then Run.Checked(id, reviews[id].status, decision, ReasonOf(asked, reason), Reopens(before, id)) else Ended;
      runs := runs[r := next];
      Took(start, past, before, Model(), DecideRead(r, id, asked, reason));
      past := past + [DecideRead(r, id, asked, reason)];
    }

    /** The application must still read as the review did. */
    method ConfirmLive(r: nat, id: string, from: ReviewStatus, decision: Decision, reason: Option<string>, ghost seen: nat)
      returns (go: bool)
      requires Ok() && r in runs && runs[r] == Run.Checked(id, from, decision, reason, seen)
      modifies this`runs, this`past
      ensures Ok() && past == old(past) + [DecideLive(r)]
      ensures go == (id in apps && Filed(apps[id]) && PresentStatus(ToReviewStatus(apps[id].status).value) == PresentStatus(from))
      ensures r in runs && runs[r] == if go then Confirmed(id, from, decision, reason, seen) else Ended
    {
      ghost var before := Model();
      hide RunAll, Initial, ToReviewStatus;
      go := id in apps && Filed(apps[id]) && PresentStatus(ToReviewStatus(apps[id].status).value) == PresentStatus(from);
      ghost var next := if go then Confirmed(id, from, decision, reason, seen) else Ended;
      runs := runs[r := next];
      Took(start, past, before, Model(), DecideLive(r));
      past := past + [DecideLive(r)];
    }

    /** The product transaction. */
    method WriteProduct(r: nat, id: string, from: ReviewStatus, decision: Decision, reason: Option<string>, write: Write, ghost seen: nat)
      requires Ok() && r in runs && runs[r] == Confirmed(id, from, decision, reason, seen) && id in apps
      modifies this`apps, this`runs, this`console, this`past
      ensures Ok() && past == old(past) + [DecideWrite(r, write)]
      ensures apps == if write.Refused? then old(apps)
        else old(apps)[id := DecidedApplication(old(apps)[id], decision, reason, now)]
      ensures r in runs && runs[r] == if write.Committed? then Written(id, decision, reason) else Ended
    {
      ghost var before := Model();
      hide RunAll, Initial, Checklist, DecidedApplication, PassedSince, Reopens;
      if !write.Refused? {
        var written := DecidedApplication(apps[id], decision, reason, now);
        apps := apps[id := written];
        console := console + [ConsoleWrite(id, written.status, written.reason, Reopens(before, id) != seen, Checklist() <= PassedSince(before, id))];
      }
      runs := runs[r := if write.Committed? then Written(id, decision, reason) else Ended];
      assert Model() == DecideWriteStep(before, r, before.runs[r], write);
      hide DecideWriteStep;
      Took(start, past, before, Model(), DecideWrite(r, write));
      past := past + [DecideWrite(r, write)];
    }

    /** The review follows. */
    method RecordReview(r: nat, id: string, decision: Decision, reason: Option<string>, write: Write)
      requires Ok() && r in runs && runs[r] == Written(id, decision, reason) && id in reviews
      modifies this`reviews, this`runs, this`past
      ensures Ok() && past == old(past) + [DecideRecord(r, write)]
      ensures reviews == if write.Refused? then old(reviews)
        else old(reviews)[id := DecidedReview(old(reviews)[id], decision, reason, now)]
    {
      ghost var before := Model();
      hide RunAll, Initial, DecidedReview;
      if !write.Refused? { reviews := reviews[id := DecidedReview(reviews[id], decision, reason, now)]; }
      runs := runs[r := Ended];
      Took(start, past, before, Model(), DecideRecord(r, write));
      past := past + [DecideRecord(r, write)];
    }

    /** Everything `decide` checks before it writes. */
    method Vet(r: nat, id: string, asked: Asked, reason: Option<string>, ghost seen: nat) returns (go: bool)
      requires Ok() && r !in runs && seen == Reopens(Model(), id)
      modifies this`runs, this`past
      ensures Ok() && old(past) <= past
      ensures go == MayWrite(apps, reviews, id, DecisionOf(asked), ReasonOf(asked, reason))
      ensures go ==> r in runs && runs[r] == Confirmed(id, reviews[id].status, DecisionOf(asked), ReasonOf(asked, reason), seen)
    {
      if id in apps { StatusesAgree(apps[id].status, DecisionOf(asked)); }
      hide RunAll, Initial, MayDecide, ReasonOf, Meaning, ToReviewStatus;
      go := BeginDecide(r, id, asked, reason);
      if go { go := ConfirmLive(r, id, reviews[id].status, DecisionOf(asked), ReasonOf(asked, reason), seen); }
    }

    /** `decide`. The product is written exactly when the review allows the decision, the product still
        reads as the review does, and its own transaction commits; the review may stay behind. */
    method Decide(r: nat, id: string, asked: Asked, reason: Option<string>, write: Write, record: Write) returns (ok: bool)
      requires Ok() && r !in runs
      modifies this
      ensures Ok() && old(past) <= past && now == old(now)
      ensures ok == (MayWrite(old(apps), old(reviews), id, DecisionOf(asked), ReasonOf(asked, reason)) && write.Committed? && record.Committed?)
      ensures apps == if MayWrite(old(apps), old(reviews), id, DecisionOf(asked), ReasonOf(asked, reason)) && !write.Refused?
        then old(apps)[id := DecidedApplication(old(apps)[id], DecisionOf(asked), ReasonOf(asked, reason), now)]
        else old(apps)
      ensures reviews == if MayWrite(old(apps), old(reviews), id, DecisionOf(asked), ReasonOf(asked, reason)) && write.Committed? && !record.Refused?
        then old(reviews)[id := DecidedReview(old(reviews)[id], DecisionOf(asked), ReasonOf(asked, reason), now)]
        else old(reviews)
      ensures ok == (MayBeDecided(old(apps), old(reviews), id, asked, reason) && write.Committed? && record.Committed?)
      ensures Outcome(old(apps), old(reviews), apps, reviews, id, asked, reason, write, record, now)
    {
      MayWriteMeans(apps, reviews, id, asked, reason);
      OutcomeTells(apps, reviews, id, asked, reason, write, record, now);
      hide MayBeDecided, Outcome;
      hide RunAll, Initial, ReasonOf, Reopens, MayDecide, Meaning, DecidedApplication, DecidedReview;
      ghost var seen := Reopens(Model(), id);
      var go := Vet(r, id, asked, reason, seen);
      if !go { return false; }
      WriteProduct(r, id, reviews[id].status, DecisionOf(asked), ReasonOf(asked, reason), write, seen);
      if !write.Committed? { return false; }
      RecordReview(r, id, DecisionOf(asked), ReasonOf(asked, reason), record);
      ok := record.Committed?;
    }
  }

  /** Refreshing makes no review, so what is missing stays missing. */
  lemma MissingAfterRefresh(
    apps: map<string, Application>, before: map<string, Review>, middle: map<string, Review>, visited: seq<string>, now: int)
    requires RefreshedSoFar(apps, before, middle, visited, now)
    ensures Missing(apps, middle) == Missing(apps, before)
  {
    hide ToReviewStatus, AfterRefresh;
  }
}
