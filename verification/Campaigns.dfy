/** Delivery of one campaign: the worker's send loop, the in-app bell rows in the product's
    database, and the service calls that schedule, approve, cancel and retry it.

    The worker is one at a time. Every awaited database statement is one step, and may commit, be
    refused, or commit with its acknowledgement lost; the worker may stop between any two steps and
    a later job starts again from the stored rows. */
module Campaigns {
  import opened Prelude

  type Account = string
  type User = string

  datatype Channel = InApp | Email | Sms
  datatype CampaignStatus = DraftCampaign | PendingApproval | Scheduled | Sending | SentCampaign | FailedCampaign | Cancelled
  datatype RecipientStatus = Pending | Sent | Failed

  datatype Campaign = Campaign(
    status: CampaignStatus, channel: Channel, requiresApproval: bool, approved: bool,
    recipientCount: nat, sentCount: nat, failedCount: nat)

  /** Live contact details, read at send time: the account's owner, and an address for the channel. */
  datatype Contact = Contact(user: User, address: Option<string>)

  datatype Recipient = Recipient(account: Account, user: User)

  /** A message handed to the mail or SMS client, and whether the client took it. */
  datatype Call = Call(address: string, accepted: bool)

  datatype Phase =
    | Idle
    | Materialising
    | Resolving
    | Looping(contacts: map<Account, Contact>)
    | MarkingGone(contacts: map<Account, Contact>, gone: set<Account>, deliverable: seq<Recipient>)
    | Delivering(contacts: map<Account, Contact>, deliverable: seq<Recipient>)
    | MarkingSent(contacts: map<Account, Contact>, deliverable: seq<Recipient>)
    | MarkingFailed(contacts: map<Account, Contact>, deliverable: seq<Recipient>)
    | Mailing(contacts: map<Account, Contact>, todo: seq<Account>)
    | MarkingMailed(contacts: map<Account, Contact>, todo: seq<Account>)
    | FailingMail(contacts: map<Account, Contact>, todo: seq<Account>)
    | Counting

  /** `bells` are the campaign's notification rows by user; `sentTo` remembers whom a recipient
      marked SENT was delivered to; `mails` are the calls to the mail and SMS clients. */
  datatype State = State(
    campaign: Campaign, recipients: map<Account, RecipientStatus>, bells: multiset<User>, mails: multiset<Call>,
    sentTo: map<Account, User>, phase: Phase)

  datatype Action =
    | Start(retry: bool)
    | Materialise(chunk: set<Account>)
    | Materialised(count: nat)
    | Resolve(contacts: map<Account, Contact>)
    | Fetch(batch: seq<Account>)
    | MarkGone(write: Write)
    | Deliver(write: Write)
    | MarkSent(write: Write)
    | MarkFailed(write: Write)
    | Mail(accepted: bool)
    | MarkMailed(write: Write)
    | FailMail(write: Write)
    | Finish(write: Write)
    | Crash
    | Approve
    | Schedule
    | Cancel
    | ResetFailed
    | Reschedule

  const BATCH_SIZE: nat := 200

  function PendingOf(recipients: map<Account, RecipientStatus>): set<Account> {
    set a | a in recipients && recipients[a].Pending?
  }

  /** A row for everyone listed who has none yet; existing rows stay as they are. */
  function Listed(accounts: set<Account>, recipients: map<Account, RecipientStatus>): map<Account, RecipientStatus> {
    (map x | x in accounts :: Pending) + recipients
  }

  function WithStatus(recipients: map<Account, RecipientStatus>, accounts: set<Account>, status: RecipientStatus): map<Account, RecipientStatus> {
    map a | a in recipients :: if a in accounts then status else recipients[a]
  }

  function AccountsOf(rs: seq<Recipient>): set<Account> { set i | 0 <= i < |rs| :: rs[i].account }

  function UsersOf(rs: seq<Recipient>): seq<User> { seq(|rs|, i requires 0 <= i < |rs| => rs[i].user) }

  // ------------------------------------------------------------ in-app delivery

  /** The recipients whose user does not have this campaign's notification yet. */
  function Fresh(bells: multiset<User>, rs: seq<Recipient>): seq<Recipient> {
    if rs == [] then [] else (if bells[rs[0].user] > 0 then [] else [rs[0]]) + Fresh(bells, rs[1..])
  }

  /** `deliver`: one statement inserts a row for every fresh recipient. */
  function Delivered(bells: multiset<User>, rs: seq<Recipient>): multiset<User> {
    bells + multiset(UsersOf(Fresh(bells, rs)))
  }

  /** The accounts of the batch that still resolve, in batch order, with their owners. */
  function Deliverable(batch: seq<Account>, contacts: map<Account, Contact>): seq<Recipient> {
    if batch == [] then []
    else (if batch[0] in contacts then [Recipient(batch[0], contacts[batch[0]].user)] else []) + Deliverable(batch[1..], contacts)
  }

  function GoneOf(batch: seq<Account>, contacts: map<Account, Contact>): set<Account> {
    set a | a in batch && a !in contacts
  }

  // ------------------------------------------------------------ the steps

  predicate NoRepeats<T(==)>(s: seq<T>) { forall i, j :: 0 <= i < j < |s| ==> s[i] != s[j] }

  /** The product keeps `accounts.userId` unique, so no two accounts resolve to one user. */
  predicate OneAccountPerUser(contacts: map<Account, Contact>) {
    forall a, b :: a in contacts && b in contacts && contacts[a].user == contacts[b].user ==> a == b
  }

  predicate IsBatch(batch: seq<Account>, recipients: map<Account, RecipientStatus>) {
    && NoRepeats(batch) && (forall a :: a in batch ==> a in PendingOf(recipients))
    && |batch| == Min(BATCH_SIZE, |PendingOf(recipients)|)
  }

  predicate Enabled(s: State, a: Action) {
    match a
    case Start(_) => s.phase.Idle?
    case Materialise(_) => s.phase.Materialising?
    case Materialised(_) => s.phase.Materialising?
    case Resolve(contacts) => s.phase.Resolving? && OneAccountPerUser(contacts)
    case Fetch(batch) => s.phase.Looping? && IsBatch(batch, s.recipients)
    case MarkGone(_) => s.phase.MarkingGone?
    case Deliver(_) => s.phase.Delivering?
    case MarkSent(_) => s.phase.MarkingSent?
    case MarkFailed(_) => s.phase.MarkingFailed?
    case Mail(_) => s.phase.Mailing? && s.phase.todo != []
    case MarkMailed(_) => s.phase.MarkingMailed? && s.phase.todo != []
    case FailMail(_) => s.phase.FailingMail? && s.phase.todo != []
    case Finish(_) => s.phase.Counting?
    case Crash => true
    case Approve => true
    case Schedule => s.campaign.status in {DraftCampaign, PendingApproval, Scheduled} && (s.campaign.requiresApproval ==> s.campaign.approved)
    case Cancel => s.campaign.status !in {SentCampaign, Sending}
    case ResetFailed => true
    case Reschedule => true
  }

  /** The checks at the head of a job. */
  function StartStep(s: State, retry: bool): State {
    if s.campaign.status in {Cancelled, SentCampaign} then s
    else if s.campaign.requiresApproval && !s.campaign.approved then s.(campaign := s.campaign.(status := PendingApproval))
    else s.(campaign := s.campaign.(status := Sending), phase := if retry then Resolving else Materialising)
  }

  function FetchStep(s: State, batch: seq<Account>): State
    requires s.phase.Looping?
  {
    var contacts := s.phase.contacts;
    if batch == [] then s.(phase := Counting)
    else if s.campaign.channel.InApp? then
      s.(phase := MarkingGone(contacts, GoneOf(batch, contacts), Deliverable(batch, contacts)))
    else s.(phase := Mailing(contacts, batch))
  }

  /** Recipients that no longer resolve fail; with nobody of that kind there is no statement. */
  function MarkGoneStep(s: State, write: Write): State
    requires s.phase.MarkingGone?
  {
    var MarkingGone(contacts, gone, deliverable) := s.phase;
    var next := if deliverable == [] then Looping(contacts) else Delivering(contacts, deliverable);
    if gone == {} then s.(phase := next)
    else
      var recipients := if write.Refused? then s.recipients else WithStatus(s.recipients, gone, Failed);
      s.(recipients := recipients, phase := if write.Committed? then next else Idle)
  }

  function DeliverStep(s: State, write: Write): State
    requires s.phase.Delivering?
  {
    var Delivering(contacts, deliverable) := s.phase;
    s.(bells := if write.Refused? then s.bells else Delivered(s.bells, deliverable),
       phase := if write.Committed? then MarkingSent(contacts, deliverable) else MarkingFailed(contacts, deliverable))
  }

  /** Still inside the `try`: an error here, even after the commit, goes on to mark the batch FAILED. */
  function MarkSentStep(s: State, write: Write): State
    requires s.phase.MarkingSent?
  {
    var MarkingSent(contacts, deliverable) := s.phase;
    if write.Refused? then s.(phase := MarkingFailed(contacts, deliverable))
    else
      s.(recipients := WithStatus(s.recipients, AccountsOf(deliverable), Sent),
         sentTo := s.sentTo + (map r | r in deliverable :: r.account := UserOf(deliverable, r.account)),
         phase := if write.Committed? then Looping(contacts) else MarkingFailed(contacts, deliverable))
  }

  function UserOf(rs: seq<Recipient>, a: Account): User
    requires a in AccountsOf(rs)
  {
    if rs[0].account == a then rs[0].user
    else
      assert forall i :: 1 <= i < |rs| ==> rs[i] == rs[1..][i - 1];
      UserOf(rs[1..], a)
  }

  function MarkFailedStep(s: State, write: Write): State
    requires s.phase.MarkingFailed?
  {
    var MarkingFailed(contacts, deliverable) := s.phase;
    s.(recipients := if write.Refused? then s.recipients else WithStatus(s.recipients, AccountsOf(deliverable), Failed),
       phase := if write.Committed? then Looping(contacts) else Idle)
  }

  /** The call to the mail or SMS client, when there is an address to send to. */
  function MailStep(s: State, accepted: bool): State
    requires s.phase.Mailing? && s.phase.todo != []
  {
    var Mailing(contacts, todo) := s.phase;
    if !(todo[0] in contacts && contacts[todo[0]].address.Some?) then s.(phase := FailingMail(contacts, todo))
    else s.(mails := s.mails + multiset{Call(contacts[todo[0]].address.value, accepted)},
            phase := if accepted then MarkingMailed(contacts, todo) else FailingMail(contacts, todo))
  }

  function NextMail(contacts: map<Account, Contact>, todo: seq<Account>): Phase
    requires todo != []
  {
    if |todo| == 1 then Looping(contacts) else Mailing(contacts, todo[1..])
  }

  /** Still inside the `try`, as for a batch. */
  function MarkMailedStep(s: State, write: Write): State
    requires s.phase.MarkingMailed? && s.phase.todo != []
  {
    var MarkingMailed(contacts, todo) := s.phase;
    if write.Refused? then s.(phase := FailingMail(contacts, todo))
    else
      s.(recipients := WithStatus(s.recipients, {todo[0]}, Sent),
         sentTo := if todo[0] in contacts then s.sentTo[todo[0] := contacts[todo[0]].user] else s.sentTo,
         phase := if write.Committed? then NextMail(contacts, todo) else FailingMail(contacts, todo))
  }

  function FailMailStep(s: State, write: Write): State
    requires s.phase.FailingMail? && s.phase.todo != []
  {
    var FailingMail(contacts, todo) := s.phase;
    s.(recipients := if write.Refused? then s.recipients else WithStatus(s.recipients, {todo[0]}, Failed),
       phase := if write.Committed? then NextMail(contacts, todo) else Idle)
  }

  function CountOf(recipients: map<Account, RecipientStatus>, status: RecipientStatus): nat {
    |set a | a in recipients && recipients[a] == status|
  }

  /** The recipients are the record: the totals are counted, not tallied. */
  function Totals(c: Campaign, recipients: map<Account, RecipientStatus>): Campaign {
    var sent, failed := CountOf(recipients, Sent), CountOf(recipients, Failed);
    c.(status := if sent == 0 && failed > 0 then FailedCampaign else SentCampaign, sentCount := sent, failedCount := failed)
  }

  function Step(s: State, a: Action): State {
    if !Enabled(s, a) then s else
    match a
    case Start(retry) => StartStep(s, retry)
    case Materialise(chunk) => s.(recipients := Listed(chunk, s.recipients))
    case Materialised(count) => s.(campaign := s.campaign.(recipientCount := count), phase := Resolving)
    case Resolve(contacts) => s.(phase := Looping(contacts))
    case Fetch(batch) => FetchStep(s, batch)
    case MarkGone(write) => MarkGoneStep(s, write)
    case Deliver(write) => DeliverStep(s, write)
    case MarkSent(write) => MarkSentStep(s, write)
    case MarkFailed(write) => MarkFailedStep(s, write)
    case Mail(accepted) => MailStep(s, accepted)
    case MarkMailed(write) => MarkMailedStep(s, write)
    case FailMail(write) => FailMailStep(s, write)
    case Finish(write) =>
      s.(campaign := if write.Refused? then s.campaign else Totals(s.campaign, s.recipients), phase := Idle)
    case Crash => s.(phase := Idle)
    case Approve => s.(campaign := s.campaign.(approved := true))
    case Schedule => s.(campaign := s.campaign.(status := Scheduled))
    case Cancel => s.(campaign := s.campaign.(status := Cancelled))
    case ResetFailed =>
      s.(recipients := map x | x in s.recipients :: if s.recipients[x].Failed? then Pending else s.recipients[x])
    case Reschedule => s.(campaign := s.campaign.(status := Scheduled))
  }

  function RunAll(s: State, actions: seq<Action>): State {
    if actions == [] then s else Step(RunAll(s, actions[..|actions| - 1]), actions[|actions| - 1])
  }

  // ------------------------------------------------------------ one delivery

  lemma {:induction false} FreshUsers(bells: multiset<User>, rs: seq<Recipient>, u: User)
    ensures multiset(UsersOf(Fresh(bells, rs)))[u] == if bells[u] > 0 then 0 else multiset(UsersOf(rs))[u]
    decreases |rs|
  {
    if rs != [] {
      FreshUsers(bells, rs[1..], u);
      assert UsersOf(rs) == [rs[0].user] + UsersOf(rs[1..]);
      var head := if bells[rs[0].user] > 0 then [] else [rs[0]];
      assert Fresh(bells, rs) == head + Fresh(bells, rs[1..]);
      assert UsersOf(Fresh(bells, rs)) == UsersOf(head) + UsersOf(Fresh(bells, rs[1..]));
    }
  }

  /** A user who has the notification is skipped; any other gets one row for each time the batch
      names them. */
  lemma {:induction false} DeliveredRows(bells: multiset<User>, rs: seq<Recipient>, u: User)
    ensures Delivered(bells, rs)[u] == if bells[u] > 0 then bells[u] else multiset(UsersOf(rs))[u]
  {
    FreshUsers(bells, rs, u);
  }

  /** Delivering any batch any number of times leaves what delivering it once does. */
  lemma {:induction false} DeliverTwice(bells: multiset<User>, rs: seq<Recipient>)
    ensures Delivered(Delivered(bells, rs), rs) == Delivered(bells, rs)
  {
    forall u ensures Delivered(Delivered(bells, rs), rs)[u] == Delivered(bells, rs)[u] {
      DeliveredRows(bells, rs, u);
      DeliveredRows(Delivered(bells, rs), rs, u);
    }
  }

  ghost predicate AtMostOneEach(bells: multiset<User>) { forall u :: bells[u] <= 1 }

  /** A delivery keeps bells single exactly when no user still without one is named twice. */
  lemma {:induction false} DeliveryKeepsBellsSingle(bells: multiset<User>, rs: seq<Recipient>)
    requires AtMostOneEach(bells)
    ensures AtMostOneEach(Delivered(bells, rs)) <==>
      forall u :: bells[u] == 0 ==> multiset(UsersOf(rs))[u] <= 1
  {
    forall u ensures Delivered(bells, rs)[u] <= 1 <==> (bells[u] == 0 ==> multiset(UsersOf(rs))[u] <= 1) {
      DeliveredRows(bells, rs, u);
    }
  }

  lemma {:induction false} NoRepeatsCount<T>(s: seq<T>, x: T)
    requires NoRepeats(s)
    ensures multiset(s)[x] == if x in s then 1 else 0
    decreases |s|
  {
    if s != [] {
      assert s == [s[0]] + s[1..];
      NoRepeatsCount(s[1..], x);
    }
  }

  lemma {:induction false} DeliverableMembers(batch: seq<Account>, contacts: map<Account, Contact>, r: Recipient)
    requires r in Deliverable(batch, contacts)
    ensures r.account in batch && r.account in contacts && contacts[r.account].user == r.user
    decreases |batch|
  {
    assert batch == [batch[0]] + batch[1..];
    if !(batch[0] in contacts && r == Recipient(batch[0], contacts[batch[0]].user)) {
      DeliverableMembers(batch[1..], contacts, r);
    }
  }

  lemma ConsNoRepeats<T>(x: T, s: seq<T>)
    requires NoRepeats(s) && x !in s
    ensures NoRepeats([x] + s)
  {
  }

  lemma {:induction false} DeliverableUsersDistinct(batch: seq<Account>, contacts: map<Account, Contact>)
    requires NoRepeats(batch) && OneAccountPerUser(contacts)
    ensures NoRepeats(UsersOf(Deliverable(batch, contacts)))
    decreases |batch|
  {
    if batch != [] {
      var rest := Deliverable(batch[1..], contacts);
      DeliverableUsersDistinct(batch[1..], contacts);
      if batch[0] in contacts {
        var user := contacts[batch[0]].user;
        forall i | 0 <= i < |rest| ensures rest[i].user != user {
          DeliverableMembers(batch[1..], contacts, rest[i]);
          assert batch[0] !in batch[1..];
        }
        ConsNoRepeats(user, UsersOf(rest));
        assert UsersOf(Deliverable(batch, contacts)) == [user] + UsersOf(rest);
      } else {
        assert Deliverable(batch, contacts) == rest;
      }
    }
  }

  // ------------------------------------------------------------ the invariant

  predicate Permitted(c: Campaign) { c.requiresApproval ==> c.approved }

  predicate MailPhase(phase: Phase) { phase.Mailing? || phase.MarkingMailed? || phase.FailingMail? }

  predicate BatchPhase(phase: Phase) { phase.MarkingGone? || phase.Delivering? || phase.MarkingSent? || phase.MarkingFailed? }

  ghost predicate PhaseOk(s: State) {
    && (!s.phase.Idle? ==> Permitted(s.campaign))
    && (s.phase.Looping? || BatchPhase(s.phase) || MailPhase(s.phase) ==> OneAccountPerUser(s.phase.contacts))
    && (BatchPhase(s.phase) ==> s.campaign.channel.InApp? && NoRepeats(UsersOf(s.phase.deliverable)))
    && (s.phase.MarkingSent? ==> forall r :: r in s.phase.deliverable ==> s.bells[r.user] == 1)
    && (MailPhase(s.phase) ==> !s.campaign.channel.InApp? && s.phase.todo != [])
  }

  ghost predicate BellsOk(s: State) {
    && AtMostOneEach(s.bells)
    && (s.campaign.channel.InApp? ==>
          forall a :: a in s.recipients && s.recipients[a].Sent? ==> a in s.sentTo && s.bells[s.sentTo[a]] == 1)
    && ((s.bells != multiset{} || s.mails != multiset{}) ==> Permitted(s.campaign))
  }

  ghost predicate Valid(s: State) { PhaseOk(s) && BellsOk(s) }

  /** A campaign as created: nobody resolved, nothing sent, no job running. */
  predicate Fresh0(s: State) {
    s.recipients == map[] && s.bells == multiset{} && s.mails == multiset{} && s.sentTo == map[] && s.phase.Idle?
  }

  lemma DeliverKeepsBells(s: State, write: Write)
    requires Valid(s) && s.phase.Delivering?
    ensures var s' := DeliverStep(s, write);
      && AtMostOneEach(s'.bells)
      && (forall u :: s.bells[u] == 1 ==> s'.bells[u] == 1)
      && (!write.Refused? ==> forall r :: r in s.phase.deliverable ==> s'.bells[r.user] == 1)
  {
    var users := UsersOf(s.phase.deliverable);
    forall u ensures Delivered(s.bells, s.phase.deliverable)[u] == if s.bells[u] == 1 then 1 else if u in users then 1 else 0 {
      DeliveredRows(s.bells, s.phase.deliverable, u);
      NoRepeatsCount(users, u);
    }
    forall r | r in s.phase.deliverable ensures r.user in users {
      var i :| 0 <= i < |s.phase.deliverable| && s.phase.deliverable[i] == r;
      assert users[i] == r.user;
    }
  }

  lemma {:induction false} UserOfIsListed(rs: seq<Recipient>, a: Account)
    requires a in AccountsOf(rs)
    ensures Recipient(a, UserOf(rs, a)) in rs
    decreases |rs|
  {
    if rs[0].account != a {
      assert forall i :: 1 <= i < |rs| ==> rs[i] == rs[1..][i - 1];
      UserOfIsListed(rs[1..], a);
      assert rs == [rs[0]] + rs[1..];
    }
  }

  lemma MarkSentKeepsValid(s: State, write: Write)
    requires Valid(s) && s.phase.MarkingSent?
    ensures Valid(MarkSentStep(s, write))
  {
    var s' := MarkSentStep(s, write);
    var rs := s.phase.deliverable;
    forall a | a in s'.recipients && s'.recipients[a].Sent? ensures a in s'.sentTo && s'.bells[s'.sentTo[a]] == 1 {
      if a in AccountsOf(rs) {
        UserOfIsListed(rs, a);
      }
    }
  }

  lemma FetchKeepsValid(s: State, batch: seq<Account>)
    requires Valid(s) && s.phase.Looping? && IsBatch(batch, s.recipients)
    ensures Valid(FetchStep(s, batch))
  {
    DeliverableUsersDistinct(batch, s.phase.contacts);
  }

  lemma DeliverKeepsValid(s: State, write: Write)
    requires Valid(s) && s.phase.Delivering?
    ensures Valid(DeliverStep(s, write))
  {
    DeliverKeepsBells(s, write);
  }

  lemma MailKeepsValid(s: State, a: Action)
    requires Valid(s) && Enabled(s, a) && (a.Mail? || a.MarkMailed? || a.FailMail?)
    ensures Valid(Step(s, a))
  {
  }

  /** The steps that mark nobody SENT and ring no bell. */
  predicate Quiet(a: Action) {
    !a.Fetch? && !a.Deliver? && !a.MarkSent? && !a.Mail? && !a.MarkMailed? && !a.FailMail?
  }

  lemma QuietStepsKeepPhaseOk(s: State, a: Action)
    requires PhaseOk(s) && Enabled(s, a) && Quiet(a)
    ensures PhaseOk(Step(s, a))
  {
    assert Step(s, a).bells == s.bells;
  }

  lemma QuietStepsKeepBells(s: State, a: Action)
    requires Enabled(s, a) && Quiet(a)
    ensures var s' := Step(s, a);
      && s'.bells == s.bells && s'.mails == s.mails && s'.sentTo == s.sentTo
      && s'.campaign.channel == s.campaign.channel && (Permitted(s.campaign) ==> Permitted(s'.campaign))
      && (forall x :: x in s'.recipients && s'.recipients[x].Sent? ==> x in s.recipients && s.recipients[x].Sent?)
  {
  }

  lemma QuietStepsKeepValid(s: State, a: Action)
    requires Valid(s) && Enabled(s, a) && Quiet(a)
    ensures Valid(Step(s, a))
  {
    hide Step;
    QuietStepsKeepPhaseOk(s, a);
    QuietStepsKeepBells(s, a);
  }

  lemma StepKeepsValid(s: State, a: Action)
    requires Valid(s)
    ensures Valid(Step(s, a))
  {
    if Enabled(s, a) {
      match a
      case Fetch(batch) => FetchKeepsValid(s, batch);
      case Deliver(write) => DeliverKeepsValid(s, write);
      case MarkSent(write) => MarkSentKeepsValid(s, write);
      case Mail(_) => MailKeepsValid(s, a);
      case MarkMailed(_) => MailKeepsValid(s, a);
      case FailMail(_) => MailKeepsValid(s, a);
      case _ => QuietStepsKeepValid(s, a);
    }
  }

  lemma {:induction false} RunAllKeepsValid(s: State, actions: seq<Action>)
    requires Valid(s)
    ensures Valid(RunAll(s, actions))
    decreases |actions|
  {
    if actions != [] {
      RunAllKeepsValid(s, actions[..|actions| - 1]);
      StepKeepsValid(RunAll(s, actions[..|actions| - 1]), actions[|actions| - 1]);
    }
  }

  // ------------------------------------------------------------ theorems about every run

  /** Over any sequence of jobs, statement failures, crashes, re-runs and retries a user gets at most
      one bell row for the campaign, and an in-app recipient marked SENT has exactly one. */
  lemma {:induction false} InAppExactlyOnce(s: State, actions: seq<Action>)
    requires Fresh0(s)
    ensures var t := RunAll(s, actions);
      && (forall u :: t.bells[u] <= 1)
      && (t.campaign.channel.InApp? ==>
            forall a :: a in t.recipients && t.recipients[a].Sent? ==> a in t.sentTo && t.bells[t.sentTo[a]] == 1)
  {
    RunAllKeepsValid(s, actions);
  }

  /** Nothing is delivered or mailed for a campaign that needs approval and has none. */
  lemma {:induction false} NothingWithoutApproval(s: State, actions: seq<Action>)
    requires Fresh0(s)
    ensures var t := RunAll(s, actions);
      t.campaign.requiresApproval && !t.campaign.approved ==> t.bells == multiset{} && t.mails == multiset{} && t.phase.Idle?
  {
    RunAllKeepsValid(s, actions);
  }

  /** A campaign can be approved at any time, and can be scheduled exactly before it starts and with the
      approval it needs; neither touches a recipient. */
  lemma {:induction false} ApprovalAndSchedule(s: State)
    ensures Step(s, Approve) == s.(campaign := s.campaign.(approved := true))
    ensures Step(s, Schedule) ==
      if s.campaign.status in {DraftCampaign, PendingApproval, Scheduled} && (!s.campaign.requiresApproval || s.campaign.approved)
      then s.(campaign := s.campaign.(status := Scheduled)) else s
  {
  }

  // ------------------------------------------------------------ who was reached, and where

  /** Some job of the run resolved the audience to these contacts. */
  ghost predicate Resolved(actions: seq<Action>, contacts: map<Account, Contact>) { Resolve(contacts) in actions }

  /** Some job of the run resolved the account to this user. */
  ghost predicate OwnedBy(actions: seq<Action>, a: Account, u: User) {
    exists contacts: map<Account, Contact> :: Resolved(actions, contacts) && a in contacts && contacts[a].user == u
  }

  /** Some job of the run resolved the account to an address at which the client took a message. */
  ghost predicate MailedAt(actions: seq<Action>, mails: multiset<Call>, a: Account) {
    exists contacts: map<Account, Contact> :: Resolved(actions, contacts) && a in contacts && contacts[a].address.Some?
      && mails[Call(contacts[a].address.value, true)] >= 1
  }

  predicate HasContacts(phase: Phase) { phase.Looping? || BatchPhase(phase) || MailPhase(phase) }

  ghost predicate TracedPhase(actions: seq<Action>, s: State) {
    && (HasContacts(s.phase) ==> Resolved(actions, s.phase.contacts))
    && (BatchPhase(s.phase) ==> forall r :: r in s.phase.deliverable ==>
          r.account in s.phase.contacts && s.phase.contacts[r.account].user == r.user)
    && (s.phase.MarkingMailed? && s.phase.todo != [] ==>
          s.phase.todo[0] in s.phase.contacts && s.phase.contacts[s.phase.todo[0]].address.Some?
          && s.mails[Call(s.phase.contacts[s.phase.todo[0]].address.value, true)] >= 1)
  }

  ghost predicate Traced(actions: seq<Action>, s: State) {
    && TracedPhase(actions, s)
    && (forall a :: a in s.sentTo ==> OwnedBy(actions, a, s.sentTo[a]))
    && (!s.campaign.channel.InApp? ==> forall a :: a in s.recipients && s.recipients[a].Sent? ==> MailedAt(actions, s.mails, a))
  }

  lemma TracesStay(actions: seq<Action>, action: Action, mails: multiset<Call>, mails': multiset<Call>, a: Account, u: User)
    requires mails <= mails'
    ensures OwnedBy(actions, a, u) ==> OwnedBy(actions + [action], a, u)
    ensures MailedAt(actions, mails, a) ==> MailedAt(actions + [action], mails', a)
  {
    if OwnedBy(actions, a, u) {
      var contacts: map<Account, Contact> :| Resolved(actions, contacts) && a in contacts && contacts[a].user == u;
      assert Resolved(actions + [action], contacts);
    }
    if MailedAt(actions, mails, a) {
      var contacts: map<Account, Contact> :| Resolved(actions, contacts) && a in contacts && contacts[a].address.Some?
        && mails[Call(contacts[a].address.value, true)] >= 1;
      assert Resolved(actions + [action], contacts);
    }
  }

  lemma FetchTracesPhase(actions: seq<Action>, s: State, batch: seq<Account>)
    requires TracedPhase(actions, s) && s.phase.Looping?
    ensures TracedPhase(actions, FetchStep(s, batch))
  {
    forall r | r in Deliverable(batch, s.phase.contacts) ensures r.account in s.phase.contacts && s.phase.contacts[r.account].user == r.user {
      DeliverableMembers(batch, s.phase.contacts, r);
    }
  }

  /** These steps take the contacts and the batch along, or leave them behind. */
  lemma OthersCarryAlong(s: State, a: Action)
    requires Enabled(s, a) && !a.Fetch? && !a.Mail? && !a.Resolve?
    ensures var s' := Step(s, a);
      && s'.mails == s.mails && (s'.phase.MarkingMailed? ==> s'.phase == s.phase)
      && (HasContacts(s'.phase) ==> HasContacts(s.phase) && s'.phase.contacts == s.phase.contacts)
      && (BatchPhase(s'.phase) ==> BatchPhase(s.phase) && s'.phase.deliverable == s.phase.deliverable)
  {
    hide IsBatch, Delivered, Totals, OneAccountPerUser, Deliverable, UserOf;
  }

  lemma MailTracesPhase(actions: seq<Action>, s: State, accepted: bool)
    requires TracedPhase(actions, s) && s.phase.Mailing? && s.phase.todo != []
    ensures TracedPhase(actions, MailStep(s, accepted))
  {
  }

  lemma StepTracesPhase(actions: seq<Action>, s: State, a: Action)
    requires TracedPhase(actions, s)
    ensures TracedPhase(actions + [a], Step(s, a))
  {
    if Enabled(s, a) {
      if a.Fetch? { FetchTracesPhase(actions, s, a.batch); hide FetchStep; }
      else if a.Mail? { MailTracesPhase(actions, s, a.accepted); hide MailStep; }
      else if !a.Resolve? { OthersCarryAlong(s, a); hide Step; }
    }
  }

  /** Calls are never taken back. */
  lemma MailsGrow(s: State, a: Action)
    ensures s.mails <= Step(s, a).mails && Step(s, a).campaign.channel == s.campaign.channel
  {
    hide IsBatch, Delivered, OneAccountPerUser, Deliverable, UserOf;
  }

  /** Only a delivered batch is marked with its users. */
  lemma OnlyBatchesAreSentTo(s: State, action: Action, a: Account)
    ensures var s' := Step(s, action);
      a in s'.sentTo ==> (
        || (a in s.sentTo && s'.sentTo[a] == s.sentTo[a])
        || (Enabled(s, action) && action.MarkSent? && a in AccountsOf(s.phase.deliverable) && s'.sentTo[a] == UserOf(s.phase.deliverable, a))
        || (Enabled(s, action) && action.MarkMailed? && s.phase.todo[0] == a && a in s.phase.contacts && s'.sentTo[a] == s.phase.contacts[a].user))
  {
    hide IsBatch, Delivered, Totals, OneAccountPerUser, Deliverable, UserOf;
  }

  /** Only a delivered batch, or one whose message was taken, becomes SENT. */
  lemma OnlyReachedAreSent(s: State, action: Action, a: Account)
    ensures var s' := Step(s, action);
      a in s'.recipients && s'.recipients[a].Sent? ==> (
        || (a in s.recipients && s.recipients[a].Sent?) || (Enabled(s, action) && action.MarkSent?)
        || (Enabled(s, action) && action.MarkMailed? && s.phase.todo[0] == a))
  {
    hide IsBatch, Delivered, Totals, OneAccountPerUser, Deliverable, UserOf;
  }

  lemma StepTracesSentTo(actions: seq<Action>, s: State, action: Action, a: Account)
    requires Traced(actions, s) && a in Step(s, action).sentTo
    ensures OwnedBy(actions + [action], a, Step(s, action).sentTo[a])
  {
    var s' := Step(s, action);
    OnlyBatchesAreSentTo(s, action, a);
    MailsGrow(s, action);
    hide Step;
    TracesStay(actions, action, s.mails, s'.mails, a, s'.sentTo[a]);
    if Enabled(s, action) && action.MarkSent? && a in AccountsOf(s.phase.deliverable) { UserOfIsListed(s.phase.deliverable, a); }
    if HasContacts(s.phase) { assert Resolved(actions + [action], s.phase.contacts); }
  }

  lemma StepTracesMails(actions: seq<Action>, s: State, action: Action, a: Account)
    requires Traced(actions, s) && Valid(s) && !s.campaign.channel.InApp?
    requires var s' := Step(s, action); a in s'.recipients && s'.recipients[a].Sent?
    ensures MailedAt(actions + [action], Step(s, action).mails, a)
  {
    var s' := Step(s, action);
    OnlyReachedAreSent(s, action, a);
    MailsGrow(s, action);
    hide Step;
    TracesStay(actions, action, s.mails, s'.mails, a, "");
    if Enabled(s, action) && action.MarkMailed? && s.phase.todo[0] == a {
      assert Resolved(actions + [action], s.phase.contacts);
    }
  }

  lemma {:induction false} RunIsTraced(s: State, actions: seq<Action>)
    requires Fresh0(s)
    ensures Traced(actions, RunAll(s, actions))
    decreases |actions|
  {
    if actions != [] {
      var init, last := actions[..|actions| - 1], actions[|actions| - 1];
      var before := RunAll(s, init);
      assert actions == init + [last];
      RunIsTraced(s, init);
      RunAllKeepsValid(s, init);
      StepTracesPhase(init, before, last);
      MailsGrow(before, last);
      hide Step, Valid, TracedPhase, OwnedBy, MailedAt, Fresh0;
      forall a | a in Step(before, last).sentTo ensures OwnedBy(actions, a, Step(before, last).sentTo[a]) {
        StepTracesSentTo(init, before, last, a);
      }
      forall a | !before.campaign.channel.InApp? && a in Step(before, last).recipients && Step(before, last).recipients[a].Sent?
        ensures MailedAt(actions, Step(before, last).mails, a)
      {
        StepTracesMails(init, before, last, a);
      }
    }
  }

  /** Over every run: whoever is marked SENT in the app has the notification with the user that a job
      resolved the account to, and whoever is marked SENT by mail or SMS was sent a message, which the
      client took, at an address that a job resolved the account to. */
  lemma {:induction false} SentReachedTheRightOne(s: State, actions: seq<Action>, a: Account)
    requires Fresh0(s) && a in RunAll(s, actions).recipients && RunAll(s, actions).recipients[a].Sent?
    ensures var t := RunAll(s, actions);
      if t.campaign.channel.InApp? then exists u :: OwnedBy(actions, a, u) && t.bells[u] == 1
      else MailedAt(actions, t.mails, a)
  {
    RunIsTraced(s, actions);
    InAppExactlyOnce(s, actions);
    hide RunAll, TracedPhase;
  }

  // ------------------------------------------------------------ when SENT is taken back

  /** The accounts the worker may still mark. */
  function InHand(phase: Phase): set<Account> {
    match phase
    case MarkingGone(_, gone, deliverable) => gone + AccountsOf(deliverable)
    case Delivering(_, deliverable) => AccountsOf(deliverable)
    case MarkingSent(_, deliverable) => AccountsOf(deliverable)
    case MarkingFailed(_, deliverable) => AccountsOf(deliverable)
    case Mailing(_, todo) => set a | a in todo
    case MarkingMailed(_, todo) => set a | a in todo
    case FailingMail(_, todo) => set a | a in todo
    case _ => {}
  }

  predicate IsSent(s: State, a: Account) { a in s.recipients && s.recipients[a].Sent? }

  /** Once SENT and out of the worker's hand, a recipient stays so under every step, whichever
      acknowledgements are lost. */
  lemma OutOfHandStaysSent(s: State, action: Action, a: Account)
    requires IsSent(s, a) && a !in InHand(s.phase)
    ensures IsSent(Step(s, action), a) && a !in InHand(Step(s, action).phase)
  {
    if !Enabled(s, action) { return; }
    if action.Fetch? {
      if a in InHand(FetchStep(s, action.batch).phase) { FetchTakesPending(s, action.batch, a); }
    } else {
      HandsOnlyShrink(s, action, a);
      OutOfHandKept(s, action, a);
    }
  }

  predicate BatchAction(a: Action) { a.MarkGone? || a.Deliver? || a.MarkSent? || a.MarkFailed? }

  predicate MailAction(a: Action) { a.Mail? || a.MarkMailed? || a.FailMail? }

  lemma BatchStepShrinks(s: State, action: Action)
    requires Enabled(s, action) && BatchAction(action)
    ensures InHand(Step(s, action).phase) <= InHand(s.phase)
  {
    hide Deliverable, Delivered, Totals, IsBatch, OneAccountPerUser, UserOf, AccountsOf, WithStatus, MailStep, MarkMailedStep, FailMailStep, FetchStep;
  }

  lemma MailStepShrinks(s: State, action: Action)
    requires Enabled(s, action) && MailAction(action)
    ensures InHand(Step(s, action).phase) <= InHand(s.phase)
  {
    hide Deliverable, Delivered, Totals, IsBatch, OneAccountPerUser, UserOf, AccountsOf, WithStatus, MarkGoneStep, DeliverStep, MarkSentStep, MarkFailedStep, FetchStep;
  }

  lemma OtherStepShrinks(s: State, action: Action)
    requires Enabled(s, action) && !action.Fetch? && !BatchAction(action) && !MailAction(action)
    ensures InHand(Step(s, action).phase) <= InHand(s.phase)
  {
    hide Deliverable, Delivered, Totals, IsBatch, OneAccountPerUser, UserOf, AccountsOf, WithStatus, MarkGoneStep, DeliverStep, MarkSentStep, MarkFailedStep,
      MailStep, MarkMailedStep, FailMailStep, FetchStep;
  }

  lemma HandsOnlyShrink(s: State, action: Action, a: Account)
    requires Enabled(s, action) && !action.Fetch? && a !in InHand(s.phase)
    ensures a !in InHand(Step(s, action).phase)
  {
    hide Step, InHand;
    if BatchAction(action) { BatchStepShrinks(s, action); }
    else if MailAction(action) { MailStepShrinks(s, action); }
    else { OtherStepShrinks(s, action); }
  }

  lemma OutOfHandKept(s: State, action: Action, a: Account)
    requires Enabled(s, action) && a !in InHand(s.phase)
    ensures IsSent(s, a) <==> IsSent(Step(s, action), a)
  {
    hide Deliverable, Delivered, Totals;
  }

  lemma FetchTakesPending(s: State, batch: seq<Account>, a: Account)
    requires s.phase.Looping? && IsBatch(batch, s.recipients) && a in InHand(FetchStep(s, batch).phase)
    ensures a in batch && a in PendingOf(s.recipients)
  {
    var deliverable := Deliverable(batch, s.phase.contacts);
    if a in AccountsOf(deliverable) && s.campaign.channel.InApp? {
      var i :| 0 <= i < |deliverable| && deliverable[i].account == a;
      DeliverableMembers(batch, s.phase.contacts, deliverable[i]);
    }
  }

  /** SENT is final from then on. */
  lemma {:induction false} SentIsFinal(s: State, more: seq<Action>, a: Account)
    requires IsSent(s, a) && a !in InHand(s.phase)
    ensures IsSent(RunAll(s, more), a) && a !in InHand(RunAll(s, more).phase)
    decreases |more|
  {
    if more != [] {
      SentIsFinal(s, more[..|more| - 1], a);
      hide Step, InHand, IsSent;
      OutOfHandStaysSent(RunAll(s, more[..|more| - 1]), more[|more| - 1], a);
    }
  }

  /** Someone in hand is SENT only after an acknowledgement was lost: the worker is about to mark the
      batch, or the mail, FAILED. */
  ghost predicate HandsOk(s: State) {
    && (MailPhase(s.phase) ==> NoRepeats(s.phase.todo))
    && (s.phase.MarkingGone? ==> s.phase.gone !! AccountsOf(s.phase.deliverable))
    && forall a :: a in InHand(s.phase) && IsSent(s, a) ==>
        s.phase.MarkingFailed? || (s.phase.FailingMail? && s.phase.todo != [] && a == s.phase.todo[0])
  }

  lemma FetchKeepsHandsOk(s: State, batch: seq<Account>)
    requires s.phase.Looping? && IsBatch(batch, s.recipients)
    ensures HandsOk(FetchStep(s, batch))
  {
    var s' := FetchStep(s, batch);
    var deliverable := Deliverable(batch, s.phase.contacts);
    forall a | a in InHand(s'.phase) ensures !IsSent(s', a) { FetchTakesPending(s, batch, a); }
    forall a | a in AccountsOf(deliverable) ensures a in s.phase.contacts {
      var i :| 0 <= i < |deliverable| && deliverable[i].account == a;
      DeliverableMembers(batch, s.phase.contacts, deliverable[i]);
    }
  }

  lemma BatchKeepsHandsOk(s: State, a: Action)
    requires HandsOk(s) && Enabled(s, a) && (a.MarkGone? || a.Deliver? || a.MarkSent? || a.MarkFailed?)
    ensures HandsOk(Step(s, a))
  {
    var s' := Step(s, a);
    forall x | x in InHand(s'.phase) && IsSent(s', x) ensures s'.phase.MarkingFailed? {
      assert x in InHand(s.phase);
    }
  }

  lemma MailKeepsHandsOk(s: State, accepted: bool)
    requires HandsOk(s) && s.phase.Mailing? && s.phase.todo != []
    ensures HandsOk(MailStep(s, accepted))
  {
    var s' := MailStep(s, accepted);
    forall x | x in InHand(s'.phase) ensures !IsSent(s', x) { assert x in InHand(s.phase); }
  }

  lemma MarkMailedKeepsHandsOk(s: State, write: Write)
    requires HandsOk(s) && s.phase.MarkingMailed? && s.phase.todo != []
    ensures HandsOk(MarkMailedStep(s, write))
  {
    var s', todo := MarkMailedStep(s, write), s.phase.todo;
    assert forall x :: x in todo[1..] ==> x in todo && x != todo[0];
    forall x | x in InHand(s'.phase) && IsSent(s', x) ensures s'.phase.FailingMail? && x == todo[0] {
      assert x in InHand(s.phase);
    }
  }

  lemma FailMailKeepsHandsOk(s: State, write: Write)
    requires HandsOk(s) && s.phase.FailingMail? && s.phase.todo != []
    ensures HandsOk(FailMailStep(s, write))
  {
    var s', todo := FailMailStep(s, write), s.phase.todo;
    assert forall x :: x in todo[1..] ==> x in todo && x != todo[0];
    forall x | x in InHand(s'.phase) ensures !IsSent(s', x) {
      assert x in InHand(s.phase);
    }
  }

  lemma OthersKeepHandsOk(s: State, a: Action)
    requires HandsOk(s) && Enabled(s, a)
    requires !a.Fetch? && !a.Mail? && !a.MarkMailed? && !a.FailMail? && !a.MarkGone? && !a.Deliver? && !a.MarkSent? && !a.MarkFailed?
    ensures HandsOk(Step(s, a))
  {
    var s' := Step(s, a);
    assert s'.phase == s.phase || InHand(s'.phase) == {};
    assert forall x :: IsSent(s', x) ==> IsSent(s, x);
  }

  lemma StepKeepsHandsOk(s: State, a: Action)
    requires HandsOk(s)
    ensures HandsOk(Step(s, a))
  {
    if Enabled(s, a) {
      match a
      case Fetch(batch) => FetchKeepsHandsOk(s, batch);
      case Mail(accepted) => MailKeepsHandsOk(s, accepted);
      case MarkMailed(write) => MarkMailedKeepsHandsOk(s, write);
      case FailMail(write) => FailMailKeepsHandsOk(s, write);
      case MarkGone(_) => BatchKeepsHandsOk(s, a);
      case Deliver(_) => BatchKeepsHandsOk(s, a);
      case MarkSent(_) => BatchKeepsHandsOk(s, a);
      case MarkFailed(_) => BatchKeepsHandsOk(s, a);
      case _ => OthersKeepHandsOk(s, a);
    }
  }

  lemma {:induction false} RunAllKeepsHandsOk(s: State, actions: seq<Action>)
    requires HandsOk(s)
    ensures HandsOk(RunAll(s, actions))
    decreases |actions|
  {
    if actions != [] {
      RunAllKeepsHandsOk(s, actions[..|actions| - 1]);
      hide Step, HandsOk;
      StepKeepsHandsOk(RunAll(s, actions[..|actions| - 1]), actions[|actions| - 1]);
    }
  }

  /** Some continuation ends with this recipient no longer SENT. */
  ghost predicate CanBeTakenBack(s: State, a: Account) { exists more :: !IsSent(RunAll(s, more), a) }

  /** A recipient marked SENT can be taken back exactly while the worker still has it in hand. */
  lemma {:induction false} SentTakenBackExactlyWhen(origin: State, actions: seq<Action>, a: Account)
    requires Fresh0(origin) && IsSent(RunAll(origin, actions), a)
    ensures var s := RunAll(origin, actions); CanBeTakenBack(s, a) <==> a in InHand(s.phase)
  {
    var s := RunAll(origin, actions);
    RunAllKeepsHandsOk(origin, actions);
    hide RunAll;
    if a in InHand(s.phase) {
      var mark := if s.phase.MarkingFailed? then MarkFailed(Committed) else FailMail(Committed);
      assert !IsSent(Step(s, mark), a);
      RunOne(s, mark);
    } else if CanBeTakenBack(s, a) {
      var more :| !IsSent(RunAll(s, more), a);
      SentIsFinal(s, more, a);
    }
  }

  lemma RunOne(s: State, a: Action)
    ensures RunAll(s, [a]) == Step(s, a)
  {
    hide Step;
    assert [a][..0] == [];
    assert RunAll(s, []) == s;
  }

  predicate LosesSent(a: Action) { (a.MarkSent? || a.MarkMailed?) && a.write.AckLost? }

  /** Nobody is SENT and in hand, so nobody can be taken back, until an acknowledgement of a SENT
      update is lost. */
  lemma StepKeepsHandsClean(s: State, a: Action)
    requires HandsOk(s) && !LosesSent(a) && forall x :: x in InHand(s.phase) ==> !IsSent(s, x)
    ensures forall x :: x in InHand(Step(s, a).phase) ==> !IsSent(Step(s, a), x)
  {
    StepKeepsHandsOk(s, a);
    var s' := Step(s, a);
    if s'.phase.MarkingFailed? || s'.phase.FailingMail? {
      forall x | x in InHand(s'.phase) ensures !IsSent(s', x) {
        CleanFailure(s, a, x);
      }
    }
  }

  lemma CleanFailure(s: State, a: Action, x: Account)
    requires !LosesSent(a) && (Step(s, a).phase.MarkingFailed? || Step(s, a).phase.FailingMail?)
    requires x in InHand(Step(s, a).phase) && forall y :: y in InHand(s.phase) ==> !IsSent(s, y)
    ensures !IsSent(Step(s, a), x)
  {
    FailingKeepsHands(s, a);
    hide InHand, Step;
  }

  /** A step that ends in marking a failure takes the same accounts along and marks nobody SENT. */
  ghost predicate SameHands(s: State, s': State) {
    InHand(s'.phase) == InHand(s.phase) && forall x :: IsSent(s', x) ==> IsSent(s, x)
  }

  lemma BatchFailureKeepsHands(s: State, a: Action)
    requires Enabled(s, a) && BatchAction(a) && !LosesSent(a) && Step(s, a).phase.MarkingFailed?
    ensures SameHands(s, Step(s, a))
  {
    hide Deliverable, Delivered, Totals, IsBatch, OneAccountPerUser, UserOf, AccountsOf, WithStatus, MailStep, MarkMailedStep, FailMailStep, FetchStep;
  }

  lemma MailFailureKeepsHands(s: State, a: Action)
    requires Enabled(s, a) && MailAction(a) && !LosesSent(a) && Step(s, a).phase.FailingMail?
    ensures SameHands(s, Step(s, a))
  {
    hide Deliverable, Delivered, Totals, IsBatch, OneAccountPerUser, UserOf, AccountsOf, WithStatus, MarkGoneStep, DeliverStep, MarkSentStep, MarkFailedStep, FetchStep;
  }

  lemma OtherStepKeepsPhase(s: State, a: Action)
    requires !BatchAction(a) && !MailAction(a) && (Step(s, a).phase.MarkingFailed? || Step(s, a).phase.FailingMail?)
    ensures Step(s, a).phase == s.phase && forall x :: IsSent(Step(s, a), x) ==> IsSent(s, x)
  {
    hide Deliverable, Delivered, Totals, IsBatch, OneAccountPerUser, UserOf, AccountsOf, WithStatus, MarkGoneStep, DeliverStep, MarkSentStep, MarkFailedStep,
      MailStep, MarkMailedStep, FailMailStep;
  }

  lemma FailingKeepsHands(s: State, a: Action)
    requires !LosesSent(a) && (Step(s, a).phase.MarkingFailed? || Step(s, a).phase.FailingMail?)
    ensures SameHands(s, Step(s, a))
  {
    if !Enabled(s, a) { return; }
    if BatchAction(a) { NoMailAfterBatch(s, a); BatchFailureKeepsHands(s, a); hide Step; }
    else if MailAction(a) { NoMailAfterBatch(s, a); MailFailureKeepsHands(s, a); hide Step; }
    else { OtherStepKeepsPhase(s, a); hide Step; }
  }

  lemma NoMailAfterBatch(s: State, a: Action)
    requires Enabled(s, a)
    ensures BatchAction(a) ==> !Step(s, a).phase.FailingMail?
    ensures MailAction(a) ==> !Step(s, a).phase.MarkingFailed?
  {
    hide Deliverable, Delivered, Totals, IsBatch, OneAccountPerUser, UserOf, AccountsOf, WithStatus, FetchStep;
  }

  /** So in a run that loses none, SENT never reverts. */
  lemma {:induction false} NoLostAckNoTakingBack(origin: State, actions: seq<Action>)
    requires Fresh0(origin) && forall a :: a in actions ==> !LosesSent(a)
    ensures HandsOk(RunAll(origin, actions))
    ensures forall x :: x in InHand(RunAll(origin, actions).phase) ==> !IsSent(RunAll(origin, actions), x)
    decreases |actions|
  {
    if actions != [] {
      var init, last := actions[..|actions| - 1], actions[|actions| - 1];
      assert actions == init + [last];
      NoLostAckNoTakingBack(origin, init);
      hide Step;
      StepKeepsHandsOk(RunAll(origin, init), last);
      StepKeepsHandsClean(RunAll(origin, init), last);
    }
  }

  /** Losing that acknowledgement does take SENT back: the batch was marked SENT, and the error then
      marks it FAILED, although its users have their bells. */
  lemma {:induction false} LostAckTakesSentBack(s: State, a: Account)
    requires Valid(s) && s.phase.MarkingSent? && a in AccountsOf(s.phase.deliverable) && a in s.recipients
    ensures var sent := Step(s, MarkSent(AckLost));
      var failed := Step(sent, MarkFailed(Committed));
      && sent.recipients[a].Sent? && failed.recipients[a].Failed?
      && failed.bells[UserOf(s.phase.deliverable, a)] == 1
  {
    UserOfIsListed(s.phase.deliverable, a);
  }

  // ------------------------------------------------------------ a run to such a state

  /** A scheduled in-app campaign of which nothing has happened. */
  function Opening(): State {
    State(Campaign(Scheduled, InApp, false, false, 0, 0, 0), map[], multiset{}, multiset{}, map[], Idle)
  }

  function Ann(): map<Account, Contact> { map["ann" := Contact("ann's user", None)] }

  function Handed(): seq<Recipient> { [Recipient("ann", "ann's user")] }

  /** The worker is between two awaited calls, with Ann's notification as it is by then. */
  function At(status: RecipientStatus, phase: Phase): State {
    State(Campaign(Sending, InApp, false, false, 1, 0, 0), map["ann" := status],
          if phase.MarkingSent? then multiset{"ann's user"} else multiset{}, multiset{}, map[], phase)
  }

  lemma FindsAnn()
    ensures IsBatch(["ann"], map["ann" := Pending]) && Deliverable(["ann"], Ann()) == Handed() && GoneOf(["ann"], Ann()) == {}
  {
    assert PendingOf(map["ann" := Pending]) == {"ann"};
    var batch: seq<Account> := ["ann"];
    assert batch[1..] == [] && Deliverable([], Ann()) == [];
  }

  lemma DeliversAnn()
    ensures Delivered(multiset{}, Handed()) == multiset{"ann's user"}
  {
    assert Handed()[1..] == [] && Fresh(multiset{}, []) == [];
    assert Fresh(multiset{}, Handed()) == Handed();
    assert UsersOf(Handed()) == ["ann's user"];
  }

  lemma RunSnoc(s: State, actions: seq<Action>, a: Action)
    ensures RunAll(s, actions + [a]) == Step(RunAll(s, actions), a)
  {
    hide Step;
    assert (actions + [a])[..|actions|] == actions;
  }

  lemma TwoMore(s: State, actions: seq<Action>, a: Action, b: Action) returns (more: seq<Action>)
    ensures RunAll(s, more) == Step(Step(RunAll(s, actions), a), b)
  {
    hide Step;
    RunSnoc(s, actions, a);
    RunSnoc(s, actions + [a], b);
    more := actions + [a] + [b];
  }

  lemma StartsTheJob()
    ensures Step(Step(Step(Step(Opening(), Start(false)), Materialise({"ann"})), Materialised(1)), Resolve(Ann())) == At(Pending, Looping(Ann()))
  {
    var started := Step(Opening(), Start(false));
    assert Listed({"ann"}, started.recipients) == map["ann" := Pending];
    hide MarkGoneStep, DeliverStep, MarkSentStep, MarkFailedStep, MailStep, FetchStep;
  }

  lemma FetchesAnn()
    ensures Step(Step(At(Pending, Looping(Ann())), Fetch(["ann"])), MarkGone(Committed)) == At(Pending, Delivering(Ann(), Handed()))
  {
    FindsAnn();
    hide IsBatch, Deliverable, GoneOf, DeliverStep, MarkSentStep, MarkFailedStep, MailStep;
  }

  lemma LosesTheAck()
    ensures var s := Step(Step(At(Pending, Delivering(Ann(), Handed())), Deliver(Committed)), MarkSent(AckLost));
      IsSent(s, "ann") && s.phase == MarkingFailed(Ann(), Handed()) && s.bells == multiset{"ann's user"}
  {
    DeliversAnn();
    hide Delivered, FetchStep, MarkGoneStep, MarkFailedStep, MailStep, UserOf;
    assert Handed()[0].account == "ann" && "ann" in AccountsOf(Handed());
    assert Step(At(Pending, Delivering(Ann(), Handed())), Deliver(Committed)) == At(Pending, MarkingSent(Ann(), Handed()));
  }

  /** From a campaign of which nothing has happened: the one recipient is SENT and still in hand, so she
      can be taken back although she has her notification. */
  lemma {:induction false} LostAckLeavesSentInHand() returns (actions: seq<Action>)
    ensures var s := RunAll(Opening(), actions);
      IsSent(s, "ann") && "ann" in InHand(s.phase) && s.bells == multiset{"ann's user"} && CanBeTakenBack(s, "ann")
  {
    StartsTheJob();
    FetchesAnn();
    LosesTheAck();
    hide Step, Opening, At;
    assert RunAll(Opening(), []) == Opening();
    var a2 := TwoMore(Opening(), [], Start(false), Materialise({"ann"}));
    var a4 := TwoMore(Opening(), a2, Materialised(1), Resolve(Ann()));
    var a6 := TwoMore(Opening(), a4, Fetch(["ann"]), MarkGone(Committed));
    actions := TwoMore(Opening(), a6, Deliver(Committed), MarkSent(AckLost));
    assert Handed()[0].account == "ann" && "ann" in AccountsOf(Handed());
    assert Fresh0(Opening()) by { OpeningIsFresh(); }
    SentTakenBackExactlyWhen(Opening(), actions, "ann");
  }

  lemma OpeningIsFresh()
    ensures Fresh0(Opening())
  {
  }
}
