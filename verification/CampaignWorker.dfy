/** The campaign worker's job and the service calls around it, on the stored rows.

    `history` records which steps of the delivery protocol a method took, so whatever holds of every
    run of steps holds of every use of this class. A `Write` chosen by `*` is the fate of one
    database statement. */
module CampaignWorker {
  import opened Prelude
  import opened Campaigns

  datatype JobResult = Skipped | Interrupted | Completed

  datatype ServiceResult = Conflict | Forbidden | Stopped | Accepted(count: nat)

  lemma {:induction false} DeliverableAppend(a: seq<Account>, x: Account, contacts: map<Account, Contact>)
    ensures Deliverable(a + [x], contacts) == Deliverable(a, contacts) + Deliverable([x], contacts)
    decreases |a|
  {
    if a == [] {
      assert a + [x] == [x];
    } else {
      assert (a + [x])[1..] == a[1..] + [x];
      DeliverableAppend(a[1..], x, contacts);
    }
  }

  lemma {:induction false} DeliverableHolds(batch: seq<Account>, contacts: map<Account, Contact>, a: Account)
    requires a in batch && a in contacts
    ensures Recipient(a, contacts[a].user) in Deliverable(batch, contacts)
    decreases |batch|
  {
    if batch[0] != a {
      assert batch == [batch[0]] + batch[1..];
      DeliverableHolds(batch[1..], contacts, a);
    }
  }

  /** The deliverable recipients are the accounts of the batch that still resolve. */
  lemma DeliverableAccounts(batch: seq<Account>, contacts: map<Account, Contact>)
    ensures AccountsOf(Deliverable(batch, contacts)) == set a | a in batch && a in contacts
  {
    var rs := Deliverable(batch, contacts);
    forall a | a in AccountsOf(rs) ensures a in batch && a in contacts {
      var i :| 0 <= i < |rs| && rs[i].account == a;
      DeliverableMembers(batch, contacts, rs[i]);
    }
    forall a | a in batch && a in contacts ensures a in AccountsOf(rs) {
      DeliverableHolds(batch, contacts, a);
      var i :| 0 <= i < |rs| && rs[i] == Recipient(a, contacts[a].user);
    }
  }

  lemma {:induction false} NoRepeatsSize<T(!new)>(s: seq<T>, members: set<T>)
    requires NoRepeats(s) && forall x :: x in members <==> x in s
    ensures |members| == |s|
    decreases |s|
  {
    if s == [] {
      assert members == {};
    } else {
      var init, last := s[..|s| - 1], s[|s| - 1];
      assert s == init + [last];
      NoRepeatsSize(init, members - {last});
    }
  }

  /** Everyone in the batch has left PENDING, and nobody else has changed. */
  ghost predicate BatchDone(before: map<Account, RecipientStatus>, after: map<Account, RecipientStatus>, batch: seq<Account>) {
    && after.Keys == before.Keys
    && (forall a :: a in batch ==> a in after && !after[a].Pending?)
    && (forall a :: a in after && a !in batch ==> after[a] == before[a])
  }

  lemma InAppBatchDone(before: map<Account, RecipientStatus>, mid: map<Account, RecipientStatus>, after: map<Account, RecipientStatus>, batch: seq<Account>, contacts: map<Account, Contact>)
    requires forall a :: a in batch ==> a in before
    requires var gone := GoneOf(batch, contacts); mid == if gone == {} then before else WithStatus(before, gone, Failed)
    requires var rs := Deliverable(batch, contacts);
      if rs == [] then after == mid else after == WithStatus(mid, AccountsOf(rs), Sent) || after == WithStatus(mid, AccountsOf(rs), Failed)
    ensures BatchDone(before, after, batch) && forall a :: a in batch && a !in contacts ==> after[a].Failed?
  {
    DeliverableAccounts(batch, contacts);
    var accounts := AccountsOf(Deliverable(batch, contacts));
    forall a | a in before ensures after[a] == before[a] || a in batch { }
    forall a | a in batch ensures !after[a].Pending? && (a !in contacts ==> after[a].Failed?) {
      assert a in GoneOf(batch, contacts) || a in accounts;
    }
  }

  /** The first `n` recipients of a mail batch are settled, the others as they were. */
  ghost predicate Mailed(before: map<Account, RecipientStatus>, after: map<Account, RecipientStatus>, batch: seq<Account>, n: nat, contacts: map<Account, Contact>)
    requires n <= |batch|
  {
    && after.Keys == before.Keys
    && (forall a :: a in batch ==> a in after)
    && (forall i :: 0 <= i < n ==> Settled(after, batch[i], contacts))
    && (forall a :: a in after && a !in batch[..n] ==> after[a] == before[a])
  }

  ghost predicate Settled(after: map<Account, RecipientStatus>, a: Account, contacts: map<Account, Contact>) {
    && a in after && !after[a].Pending?
    && (!(a in contacts && contacts[a].address.Some?) ==> after[a].Failed?)
  }

  lemma MailedOneMore(start: map<Account, RecipientStatus>, before: map<Account, RecipientStatus>, after: map<Account, RecipientStatus>, batch: seq<Account>, n: nat, contacts: map<Account, Contact>)
    requires n < |batch| && NoRepeats(batch) && Mailed(start, before, batch, n, contacts)
    requires after.Keys == before.Keys && Settled(after, batch[n], contacts)
    requires forall a :: a in after && a != batch[n] ==> after[a] == before[a]
    ensures Mailed(start, after, batch, n + 1, contacts)
  {
    assert batch[..n + 1] == batch[..n] + [batch[n]];
    forall a | a in after && a !in batch[..n + 1] ensures after[a] == start[a] {
      assert a !in batch[..n] && a != batch[n];
    }
    forall i | 0 <= i < n ensures Settled(after, batch[i], contacts) {
      assert batch[i] != batch[n] && Settled(before, batch[i], contacts);
    }
  }

  lemma MailedAll(before: map<Account, RecipientStatus>, after: map<Account, RecipientStatus>, batch: seq<Account>, contacts: map<Account, Contact>)
    requires Mailed(before, after, batch, |batch|, contacts)
    ensures BatchDone(before, after, batch) && forall a :: a in batch ==> Settled(after, a, contacts)
  {
    assert batch[..|batch|] == batch;
    forall a | a in batch ensures Settled(after, a, contacts) {
      var i :| 0 <= i < |batch| && batch[i] == a;
      assert Settled(after, batch[i], contacts);
    }
  }

  /** So a batch that was pending strictly shrinks what is left. */
  lemma {:induction false} BatchShrinksPending(before: map<Account, RecipientStatus>, after: map<Account, RecipientStatus>, batch: seq<Account>)
    requires BatchDone(before, after, batch) && IsBatch(batch, before) && batch != []
    ensures |PendingOf(after)| == |PendingOf(before)| - |batch| < |PendingOf(before)|
  {
    var members := set a | a in batch;
    assert PendingOf(after) == PendingOf(before) - members;
    assert members <= PendingOf(before);
    NoRepeatsSize(batch, members);
  }

  lemma ListedOneMore(some: set<Account>, more: set<Account>, recipients: map<Account, RecipientStatus>)
    ensures Listed(more, Listed(some, recipients)) == Listed(some + more, recipients)
  {
  }

  /** When nobody is pending, the two counts cover every recipient. */
  lemma {:induction false} CountsCover(recipients: map<Account, RecipientStatus>)
    requires PendingOf(recipients) == {}
    ensures CountOf(recipients, Sent) + CountOf(recipients, Failed) == |recipients|
  {
    var sent := set a | a in recipients && recipients[a] == Sent;
    var failed := set a | a in recipients && recipients[a] == Failed;
    assert forall a :: a in recipients ==> a !in PendingOf(recipients);
    assert sent + failed == recipients.Keys;
    assert |sent + failed| == |sent| + |failed|;
  }

  /** Those who were reached, and those who were not. */
  ghost function Reached(recipients: map<Account, RecipientStatus>): set<Account> { set a | a in recipients && recipients[a].Sent? }

  ghost function Missed(recipients: map<Account, RecipientStatus>): set<Account> { set a | a in recipients && recipients[a].Failed? }

  /** The campaign row holds the counts, and FAILED exactly when nobody was reached and somebody failed. */
  ghost predicate IsTotals(c: Campaign, recipients: map<Account, RecipientStatus>) {
    && c.sentCount == |Reached(recipients)| && c.failedCount == |Missed(recipients)|
    && c.status == if Reached(recipients) == {} && Missed(recipients) != {} then FailedCampaign else SentCampaign
  }

  lemma CountsAreSizes(recipients: map<Account, RecipientStatus>)
    ensures CountOf(recipients, Sent) == |Reached(recipients)| && CountOf(recipients, Failed) == |Missed(recipients)|
    ensures (|Reached(recipients)| == 0 <==> Reached(recipients) == {}) && (|Missed(recipients)| == 0 <==> Missed(recipients) == {})
  {
    assert (set a | a in recipients && recipients[a] == Sent) == Reached(recipients);
    assert (set a | a in recipients && recipients[a] == Failed) == Missed(recipients);
  }

  /** A completed job: the audience was added, everyone is settled, those settled before are as they
      were, the two counts cover every recipient, and the campaign is FAILED exactly when it has
      recipients and reached none. */
  ghost predicate JobDone(before: map<Account, RecipientStatus>, after: map<Account, RecipientStatus>, c: Campaign, audience: set<Account>) {
    && after.Keys == before.Keys + audience
    && (forall a :: a in after ==> !after[a].Pending?)
    && (forall a :: a in before && !before[a].Pending? ==> after[a] == before[a])
    && c.sentCount == |Reached(after)| && c.failedCount == |Missed(after)| && c.sentCount + c.failedCount == |after|
    && c.status == if after != map[] && forall a :: a in after ==> !after[a].Sent? then FailedCampaign else SentCampaign
  }

  lemma {:induction false} JobTotals(before: map<Account, RecipientStatus>, listed: map<Account, RecipientStatus>, after: map<Account, RecipientStatus>, c: Campaign, audience: set<Account>)
    requires listed == Listed(audience, before)
    requires after.Keys == listed.Keys && PendingOf(after) == {}
    requires forall a :: a in listed && !listed[a].Pending? ==> after[a] == listed[a]
    ensures IsTotals(c, after) ==> JobDone(before, after, c, audience)
  {
    CountsCover(after);
    CountsAreSizes(after);
    assert Reached(after) == {} <==> forall a :: a in after ==> !after[a].Sent? by { assert forall a :: a in after && after[a].Sent? ==> a in Reached(after); }
    assert |after| == 0 <==> after == map[] by { assert |after| == |after.Keys|; }
    forall a | a in before && !before[a].Pending? ensures after[a] == before[a] { assert listed[a] == before[a]; }
  }

  class CampaignStore {
    var campaign: Campaign
    var recipients: map<Account, RecipientStatus>
    var bells: multiset<User>
    var mails: multiset<Call>
    ghost var sentTo: map<Account, User>
    ghost var phase: Phase
    ghost var history: seq<Action>
    ghost const origin: State

    ghost function Model(): State
      reads this
    {
      State(campaign, recipients, bells, mails, sentTo, phase)
    }

    /** The rows are what the recorded steps make of a new campaign. */
    ghost predicate Consistent()
      reads this
    {
      Fresh0(origin) && Model() == RunAll(origin, history)
    }

    constructor (campaign: Campaign)
      ensures Consistent() && phase.Idle? && history == [] && this.campaign == campaign && recipients == map[]
    {
      this.campaign, recipients, bells, mails := campaign, map[], multiset{}, multiset{};
      sentTo, phase, history := map[], Idle, [];
      origin := State(campaign, map[], multiset{}, multiset{}, map[], Idle);
    }

    /** Every use of the store keeps what every run of the protocol keeps. */
    lemma {:induction false} StoreIsSafe()
      requires Consistent()
      ensures forall u :: bells[u] <= 1
      ensures campaign.channel.InApp? ==> forall a :: a in recipients && recipients[a].Sent? ==> a in sentTo && bells[sentTo[a]] == 1
      ensures campaign.requiresApproval && !campaign.approved ==> bells == multiset{} && mails == multiset{}
      ensures forall a :: a in recipients && recipients[a].Sent? ==>
        if campaign.channel.InApp? then exists u :: OwnedBy(history, a, u) && bells[u] == 1 else MailedAt(history, mails, a)
    {
      InAppExactlyOnce(origin, history);
      NothingWithoutApproval(origin, history);
      forall a | a in recipients && recipients[a].Sent?
        ensures if campaign.channel.InApp? then exists u :: OwnedBy(history, a, u) && bells[u] == 1 else MailedAt(history, mails, a)
      {
        SentReachedTheRightOne(origin, history, a);
      }
    }

    ghost method Record(before: State, a: Action)
      requires Fresh0(origin) && before == RunAll(origin, history)
      requires var after := Step(before, a);
        campaign == after.campaign && recipients == after.recipients && bells == after.bells && mails == after.mails
      modifies this`sentTo, this`phase, this`history
      ensures Consistent() && Model() == Step(before, a) && history == old(history) + [a]
    {
      sentTo, phase := Step(before, a).sentTo, Step(before, a).phase;
      history := history + [a];
      assert history[..|history| - 1] == old(history);
    }

    // ---------------------------------------------------------- the job

    /** Reads up to `BATCH_SIZE` pending recipients, in no particular order. */
    method FindPending() returns (batch: seq<Account>)
      ensures IsBatch(batch, recipients)
      ensures batch == [] <==> PendingOf(recipients) == {}
      ensures (forall a :: a in batch ==> a in recipients && recipients[a].Pending?) && NoRepeats(batch)
      ensures |batch| <= 200 && (|batch| < 200 ==> forall a :: a in recipients && recipients[a].Pending? ==> a in batch)
    {
      var rest := PendingOf(recipients);
      batch := [];
      while |batch| < BATCH_SIZE && rest != {}
        invariant NoRepeats(batch)
        invariant forall a :: a in batch ==> a in PendingOf(recipients) && a !in rest
        invariant rest <= PendingOf(recipients)
        invariant |batch| + |rest| == |PendingOf(recipients)|
        invariant |batch| <= BATCH_SIZE
        invariant forall a :: a in PendingOf(recipients) ==> a in rest || a in batch
        decreases rest
      {
        var a :| a in rest;
        batch := batch + [a];
        rest := rest - {a};
      }
    }

    /** Splits a batch into those who still resolve, with their owners, and those who are gone. */
    method Classify(batch: seq<Account>, contacts: map<Account, Contact>) returns (deliverable: seq<Recipient>, gone: set<Account>)
      ensures deliverable == Deliverable(batch, contacts) && gone == GoneOf(batch, contacts)
    {
      deliverable, gone := [], {};
      for n := 0 to |batch|
        invariant deliverable == Deliverable(batch[..n], contacts) && gone == GoneOf(batch[..n], contacts)
      {
        assert batch[..n + 1] == batch[..n] + [batch[n]];
        DeliverableAppend(batch[..n], batch[n], contacts);
        if batch[n] !in contacts {
          gone := gone + {batch[n]};
        } else {
          deliverable := deliverable + [Recipient(batch[n], contacts[batch[n]].user)];
        }
      }
      assert batch[..|batch|] == batch;
    }

    /** The loop takes the batch it has read in hand. */
    ghost method TakeInHand(batch: seq<Account>, contacts: map<Account, Contact>)
      requires Consistent() && phase == Looping(contacts) && IsBatch(batch, recipients) && batch != []
      modifies this`sentTo, this`phase, this`history
      ensures Consistent() && old(history) <= history
      ensures phase == if campaign.channel.InApp? then MarkingGone(contacts, GoneOf(batch, contacts), Deliverable(batch, contacts))
                       else Mailing(contacts, batch)
    {
      Record(Model(), Fetch(batch));
    }

    // The statements of a batch, one method each: what the row update is, and where it leaves the job.

    method MarkGoneRows(gone: set<Account>, ghost contacts: map<Account, Contact>, ghost deliverable: seq<Recipient>) returns (write: Write)
      requires Consistent() && phase == MarkingGone(contacts, gone, deliverable)
      modifies this
      ensures Consistent() && old(history) <= history && campaign == old(campaign) && bells == old(bells)
      ensures gone == {} ==> write.Committed?
      ensures recipients == if write.Refused? || gone == {} then old(recipients) else WithStatus(old(recipients), gone, Failed)
      ensures phase == if !write.Committed? then Idle else if deliverable == [] then Looping(contacts) else Delivering(contacts, deliverable)
    {
      ghost var before := Model();
      write := Committed;
      if gone != {} {
        write := *;
        if !write.Refused? { recipients := WithStatus(recipients, gone, Failed); }
      }
      Record(before, MarkGone(write));
    }

    method RingBells(ghost contacts: map<Account, Contact>, deliverable: seq<Recipient>) returns (write: Write)
      requires Consistent() && phase == Delivering(contacts, deliverable)
      modifies this
      ensures Consistent() && old(history) <= history && campaign == old(campaign) && recipients == old(recipients)
      ensures bells == if write.Refused? then old(bells) else Delivered(old(bells), deliverable)
      ensures phase == if write.Committed? then MarkingSent(contacts, deliverable) else MarkingFailed(contacts, deliverable)
    {
      ghost var before := Model();
      write := *;
      if !write.Refused? { bells := Delivered(bells, deliverable); }
      Record(before, Deliver(write));
    }

    method MarkSentRows(ghost contacts: map<Account, Contact>, deliverable: seq<Recipient>) returns (write: Write)
      requires Consistent() && phase == MarkingSent(contacts, deliverable)
      modifies this
      ensures Consistent() && old(history) <= history && campaign == old(campaign) && bells == old(bells)
      ensures recipients == if write.Refused? then old(recipients) else WithStatus(old(recipients), AccountsOf(deliverable), Sent)
      ensures phase == if write.Committed? then Looping(contacts) else MarkingFailed(contacts, deliverable)
    {
      ghost var before := Model();
      write := *;
      if !write.Refused? { recipients := WithStatus(recipients, AccountsOf(deliverable), Sent); }
      Record(before, MarkSent(write));
    }

    method MarkFailedRows(ghost contacts: map<Account, Contact>, deliverable: seq<Recipient>) returns (write: Write)
      requires Consistent() && phase == MarkingFailed(contacts, deliverable)
      modifies this
      ensures Consistent() && old(history) <= history && campaign == old(campaign) && bells == old(bells)
      ensures recipients == if write.Refused? then old(recipients) else WithStatus(old(recipients), AccountsOf(deliverable), Failed)
      ensures phase == if write.Committed? then Looping(contacts) else Idle
    {
      ghost var before := Model();
      write := *;
      if !write.Refused? { recipients := WithStatus(recipients, AccountsOf(deliverable), Failed); }
      Record(before, MarkFailed(write));
    }

    /** The `try` and `catch` of a batch: ring the bells and mark SENT, or on any error mark FAILED. */
    method DeliverAndMark(contacts: map<Account, Contact>, deliverable: seq<Recipient>) returns (ok: bool, marked: RecipientStatus)
      requires Consistent() && phase == Delivering(contacts, deliverable)
      modifies this
      ensures Consistent() && old(history) <= history && campaign == old(campaign)
      ensures phase == if ok then Looping(contacts) else Idle
      ensures ok ==> recipients == WithStatus(old(recipients), AccountsOf(deliverable), marked) && !marked.Pending?
      ensures bells == Delivered(old(bells), deliverable) || (bells == old(bells) && marked.Failed?)
    {
      hide RunAll;
      marked := Sent;
      var write := RingBells(contacts, deliverable);
      if write.Committed? {
        write := MarkSentRows(contacts, deliverable);
      }
      if !write.Committed? {
        marked := Failed;
        write := MarkFailedRows(contacts, deliverable);
        assert forall s :: WithStatus(WithStatus(old(recipients), AccountsOf(deliverable), s), AccountsOf(deliverable), Failed) ==
                           WithStatus(old(recipients), AccountsOf(deliverable), Failed);
      }
      ok := write.Committed?;
    }

    /** One in-app batch. Every recipient of it leaves PENDING unless the job is cut short. */
    method SendInAppBatch(batch: seq<Account>, contacts: map<Account, Contact>) returns (ok: bool)
      requires Consistent() && phase == Looping(contacts) && campaign.channel.InApp?
      requires IsBatch(batch, recipients) && batch != []
      modifies this
      ensures Consistent() && old(history) <= history && campaign == old(campaign)
      ensures if ok then phase == Looping(contacts) else phase.Idle?
      ensures ok ==> BatchDone(old(recipients), recipients, batch)
      ensures ok ==> forall a :: a in batch && a !in contacts ==> recipients[a].Failed?
    {
      hide RunAll, BatchDone, WithStatus;
      var deliverable, gone := Classify(batch, contacts);
      TakeInHand(batch, contacts);
      var write := MarkGoneRows(gone, contacts, deliverable);
      ok := write.Committed?;
      ghost var mid := recipients;
      if ok && deliverable != [] {
        var marked;
        ok, marked := DeliverAndMark(contacts, deliverable);
      }
      if ok { InAppBatchDone(old(recipients), mid, recipients, batch, contacts); }
    }

    /** The call to the mail or SMS client. */
    method CallMailer(todo: seq<Account>, contacts: map<Account, Contact>) returns (ok: bool)
      requires Consistent() && phase == Mailing(contacts, todo) && todo != []
      modifies this
      ensures Consistent() && old(history) <= history && campaign == old(campaign) && recipients == old(recipients)
      ensures phase == if ok then MarkingMailed(contacts, todo) else FailingMail(contacts, todo)
      ensures ok ==> todo[0] in contacts && contacts[todo[0]].address.Some?
      ensures if todo[0] in contacts && contacts[todo[0]].address.Some?
        then mails == old(mails) + multiset{Call(contacts[todo[0]].address.value, ok)} else mails == old(mails)
    {
      ghost var before := Model();
      hide RunAll, IsBatch, Delivered;
      ok := todo[0] in contacts && contacts[todo[0]].address.Some?;
      var accepted: bool := *;
      if ok {
        mails := mails + multiset{Call(contacts[todo[0]].address.value, accepted)};
        ok := accepted;
      }
      Record(before, Mail(accepted));
    }

    method MarkMailedRow(todo: seq<Account>, ghost contacts: map<Account, Contact>) returns (write: Write)
      requires Consistent() && phase == MarkingMailed(contacts, todo) && todo != []
      modifies this
      ensures Consistent() && old(history) <= history && campaign == old(campaign)
      ensures recipients == if write.Refused? then old(recipients) else WithStatus(old(recipients), {todo[0]}, Sent)
      ensures phase == if write.Committed? then NextMail(contacts, todo) else FailingMail(contacts, todo)
    {
      ghost var before := Model();
      hide RunAll, IsBatch, Delivered;
      write := *;
      if !write.Refused? { recipients := WithStatus(recipients, {todo[0]}, Sent); }
      Record(before, MarkMailed(write));
    }

    method FailMailRow(todo: seq<Account>, ghost contacts: map<Account, Contact>) returns (write: Write)
      requires Consistent() && phase == FailingMail(contacts, todo) && todo != []
      modifies this
      ensures Consistent() && old(history) <= history && campaign == old(campaign)
      ensures recipients == if write.Refused? then old(recipients) else WithStatus(old(recipients), {todo[0]}, Failed)
      ensures phase == if write.Committed? then NextMail(contacts, todo) else Idle
    {
      ghost var before := Model();
      hide RunAll, IsBatch, Delivered;
      write := *;
      if !write.Refused? { recipients := WithStatus(recipients, {todo[0]}, Failed); }
      Record(before, FailMail(write));
    }

    /** One recipient of a mail or SMS campaign: sent and marked, or on any error marked failed. */
    method SendMail(todo: seq<Account>, contacts: map<Account, Contact>) returns (ok: bool)
      requires Consistent() && phase == Mailing(contacts, todo) && todo != [] && todo[0] in recipients
      modifies this
      ensures Consistent() && old(history) <= history && campaign == old(campaign)
      ensures phase == if !ok then Idle else if |todo| == 1 then Looping(contacts) else Mailing(contacts, todo[1..])
      ensures recipients.Keys == old(recipients).Keys && forall a :: a in recipients && a != todo[0] ==> recipients[a] == old(recipients)[a]
      ensures ok ==> Settled(recipients, todo[0], contacts)
    {
      hide RunAll, Consistent;
      ok := CallMailer(todo, contacts);
      if ok {
        var write := MarkMailedRow(todo, contacts);
        if write.Committed? { return true; }
      }
      var write := FailMailRow(todo, contacts);
      ok := write.Committed?;
    }

    /** One batch of a mail or SMS campaign, recipient by recipient. */
    method SendMailBatch(batch: seq<Account>, contacts: map<Account, Contact>) returns (ok: bool)
      requires Consistent() && phase == Looping(contacts) && !campaign.channel.InApp?
      requires IsBatch(batch, recipients) && batch != []
      modifies this
      ensures Consistent() && old(history) <= history && campaign == old(campaign)
      ensures if ok then phase == Looping(contacts) else phase.Idle?
      ensures ok ==> BatchDone(old(recipients), recipients, batch)
      ensures ok ==> forall a :: a in batch ==> Settled(recipients, a, contacts)
    {
      hide RunAll, Consistent;
      ghost var start := recipients;
      TakeInHand(batch, contacts);
      assert batch[0..] == batch;
      for n := 0 to |batch|
        invariant Consistent() && old(history) <= history && campaign == old(campaign)
        invariant phase == if n < |batch| then Mailing(contacts, batch[n..]) else Looping(contacts)
        invariant Mailed(start, recipients, batch, n, contacts)
      {
        assert batch[n..][1..] == batch[n + 1..] && batch[n] in batch;
        ghost var before := recipients;
        var sent := SendMail(batch[n..], contacts);
        if !sent { return false; }
        MailedOneMore(start, before, recipients, batch, n, contacts);
      }
      MailedAll(start, recipients, batch, contacts);
      ok := true;
    }

    /** `materialiseRecipients`: a row for everyone in the audience who has none yet, in chunks. */
    method MaterialiseRecipients(audience: set<Account>) returns (ok: bool)
      requires Consistent() && phase.Materialising?
      modifies this
      ensures Consistent() && old(history) <= history
      ensures phase == if ok then Resolving else Idle
      ensures ok ==> recipients == Listed(audience, old(recipients))
      ensures campaign == if ok then old(campaign).(recipientCount := |audience|) else old(campaign)
    {
      hide RunAll;
      var rest := audience;
      while rest != {}
        invariant Consistent() && old(history) <= history && phase.Materialising? && campaign == old(campaign)
        invariant rest <= audience
        invariant recipients == Listed(audience - rest, old(recipients))
        decreases rest
      {
        var interrupted: bool := *;
        if interrupted { Stop(); return false; }
        var chunk := TakeChunk(rest);
        InsertChunk(chunk);
        ListedOneMore(audience - rest, chunk, old(recipients));
        assert audience - rest + chunk == audience - (rest - chunk);
        rest := rest - chunk;
      }
      assert audience - rest == audience;
      SetRecipientCount(|audience|);
      ok := true;
    }

    method SetRecipientCount(count: nat)
      requires Consistent() && phase.Materialising?
      modifies this
      ensures Consistent() && old(history) <= history && phase.Resolving? && recipients == old(recipients)
      ensures campaign == old(campaign).(recipientCount := count)
    {
      ghost var before := Model();
      campaign := campaign.(recipientCount := count);
      Record(before, Materialised(count));
    }

    method TakeChunk(rest: set<Account>) returns (chunk: set<Account>)
      requires rest != {}
      ensures chunk <= rest && 0 < |chunk| <= 1000
    {
      var a :| a in rest;
      chunk := {a};
      var left := rest - chunk;
      while |chunk| < 1000 && left != {}
        invariant chunk + left == rest && chunk !! left && 0 < |chunk| <= 1000
        decreases left
      {
        var b :| b in left;
        chunk, left := chunk + {b}, left - {b};
      }
    }

    /** `createMany` with `skipDuplicates`: existing rows stay as they are. */
    method InsertChunk(chunk: set<Account>)
      requires Consistent() && phase.Materialising?
      modifies this
      ensures Consistent() && old(history) <= history && phase.Materialising? && campaign == old(campaign)
      ensures recipients == Listed(chunk, old(recipients))
    {
      ghost var before := Model();
      recipients := Listed(chunk, recipients);
      Record(before, Materialise(chunk));
    }

    /** The process dies, or a statement throws, between two steps. */
    ghost method Stop()
      requires Consistent()
      modifies this`sentTo, this`phase, this`history
      ensures Consistent() && old(history) <= history && phase.Idle?
    {
      Record(Model(), Crash);
    }

    /** The send loop. Every pass settles a whole batch, so it ends, and then nobody is pending. */
    method SendLoop(contacts: map<Account, Contact>) returns (ok: bool)
      requires Consistent() && phase == Looping(contacts)
      modifies this
      ensures Consistent() && old(history) <= history && campaign == old(campaign)
      ensures if ok then phase.Counting? else phase.Idle?
      ensures ok ==> recipients.Keys == old(recipients).Keys && PendingOf(recipients) == {}
      ensures ok ==> forall a :: a in old(recipients) && !old(recipients)[a].Pending? ==> recipients[a] == old(recipients)[a]
    {
      hide RunAll;
      var batch := FindPending();
      while batch != []
        invariant Consistent() && old(history) <= history && campaign == old(campaign)
        invariant phase == Looping(contacts) && IsBatch(batch, recipients)
        invariant batch == [] <==> PendingOf(recipients) == {}
        invariant recipients.Keys == old(recipients).Keys
        invariant forall a :: a in old(recipients) && !old(recipients)[a].Pending? ==> recipients[a] == old(recipients)[a]
        decreases |PendingOf(recipients)|
      {
        ghost var before := recipients;
        var sent;
        if campaign.channel.InApp? {
          sent := SendInAppBatch(batch, contacts);
        } else {
          sent := SendMailBatch(batch, contacts);
        }
        if !sent { return false; }
        BatchShrinksPending(before, recipients, batch);
        assert forall a :: a in before && !before[a].Pending? ==> a !in PendingOf(before);
        batch := FindPending();
      }
      LeaveLoop(contacts);
      ok := true;
    }

    ghost method LeaveLoop(contacts: map<Account, Contact>)
      requires Consistent() && phase == Looping(contacts) && PendingOf(recipients) == {}
      modifies this`sentTo, this`phase, this`history
      ensures Consistent() && old(history) <= history && phase.Counting?
    {
      Record(Model(), Fetch([]));
    }

    /** `run`: one send job, from its checks to the final totals. */
    method Run(retry: bool, audience: set<Account>, contacts: map<Account, Contact>) returns (result: JobResult)
      requires Consistent() && phase.Idle? && OneAccountPerUser(contacts)
      modifies this
      ensures Consistent() && old(history) <= history && phase.Idle?
      ensures result.Skipped? <==> old(campaign).status in {Cancelled, SentCampaign} || !Permitted(old(campaign))
      ensures result.Skipped? ==>
        && recipients == old(recipients) && bells == old(bells) && mails == old(mails)
        && campaign == (if old(campaign).status in {Cancelled, SentCampaign} then old(campaign)
                        else old(campaign).(status := PendingApproval))
      ensures result.Completed? ==> JobDone(old(recipients), recipients, campaign, if retry then {} else audience)
    {
      hide RunAll;
      var proceed := BeginJob(retry);
      if !proceed { return Skipped; }
      result := RunApproved(retry, audience, contacts);
    }

    /** The job after its checks: materialise unless this is a retry, send, and count. */
    method RunApproved(retry: bool, audience: set<Account>, contacts: map<Account, Contact>) returns (result: JobResult)
      requires Consistent() && OneAccountPerUser(contacts)
      requires phase == if retry then Resolving else Materialising
      modifies this
      ensures Consistent() && old(history) <= history && phase.Idle?
      ensures !result.Skipped?
      ensures result.Completed? ==> JobDone(old(recipients), recipients, campaign, if retry then {} else audience)
    {
      hide RunAll;
      if !retry {
        var ok := MaterialiseRecipients(audience);
        if !ok { return Interrupted; }
      }
      ghost var listed := recipients;
      ResolveContacts(contacts);
      var ok := SendLoop(contacts);
      if !ok { return Interrupted; }
      ok := FinishJob();
      JobTotals(old(recipients), listed, recipients, campaign, if retry then {} else audience);
      result := if ok then Completed else Interrupted;
    }

    method BeginJob(retry: bool) returns (proceed: bool)
      requires Consistent() && phase.Idle?
      modifies this
      ensures Consistent() && old(history) <= history && recipients == old(recipients) && bells == old(bells) && mails == old(mails)
      ensures proceed <==> old(campaign).status !in {Cancelled, SentCampaign} && Permitted(old(campaign))
      ensures campaign == if old(campaign).status in {Cancelled, SentCampaign} then old(campaign)
        else old(campaign).(status := if Permitted(old(campaign)) then Sending else PendingApproval)
      ensures phase == if !proceed then Idle else if retry then Resolving else Materialising
    {
      ghost var before := Model();
      proceed := false;
      if campaign.status !in {Cancelled, SentCampaign} {
        if campaign.requiresApproval && !campaign.approved {
          campaign := campaign.(status := PendingApproval);
        } else {
          campaign := campaign.(status := Sending);
          proceed := true;
        }
      }
      Record(before, Start(retry));
    }

    ghost method ResolveContacts(contacts: map<Account, Contact>)
      requires Consistent() && phase.Resolving? && OneAccountPerUser(contacts)
      modifies this`sentTo, this`phase, this`history
      ensures Consistent() && old(history) <= history && phase == Looping(contacts)
    {
      Record(Model(), Resolve(contacts));
    }

    /** The counts and the update that stores them. */
    method FinishJob() returns (ok: bool)
      requires Consistent() && phase.Counting?
      modifies this
      ensures Consistent() && old(history) <= history && phase.Idle? && recipients == old(recipients)
      ensures ok ==> IsTotals(campaign, recipients)
    {
      ghost var before := Model();
      var sentTotal, failedTotal := CountOf(recipients, Sent), CountOf(recipients, Failed);
      var write: Write := *;
      if !write.Refused? {
        campaign := campaign.(status := if sentTotal == 0 && failedTotal > 0 then FailedCampaign else SentCampaign,
                              sentCount := sentTotal, failedCount := failedTotal);
      }
      CountsAreSizes(recipients);
      Record(before, Finish(write));
      ok := write.Committed?;
    }

    // ---------------------------------------------------------- the service

    /** `retry`: only a finished campaign with failures, and only those who failed. A stop between its
        two statements leaves them pending with the campaign as it was. */
    method Retry() returns (result: ServiceResult)
      requires Consistent() && phase.Idle?
      modifies this
      ensures Consistent() && old(history) <= history && phase.Idle? && bells == old(bells) && mails == old(mails)
      ensures result.Conflict? <==> old(campaign).status !in {SentCampaign, FailedCampaign} || Missed(old(recipients)) == {}
      ensures result.Conflict? ==> campaign == old(campaign) && recipients == old(recipients)
      ensures result.Accepted? ==> result.count == |Missed(old(recipients))| && campaign == old(campaign).(status := Scheduled)
      ensures !result.Conflict? ==> recipients == map a | a in old(recipients) :: if old(recipients)[a].Failed? then Pending else old(recipients)[a]
      ensures result.Conflict? || result.Stopped? || result.Accepted?
    {
      hide RunAll;
      if campaign.status !in {SentCampaign, FailedCampaign} { return Conflict; }
      var failed := CountOf(recipients, Failed);
      CountsAreSizes(recipients);
      if failed == 0 { return Conflict; }
      ResetFailedRows();
      var stopped: bool := *;
      if stopped { return Stopped; }
      SetScheduled(Reschedule);
      result := Accepted(failed);
    }

    method ResetFailedRows()
      requires Consistent()
      modifies this
      ensures Consistent() && old(history) <= history && phase == old(phase) && campaign == old(campaign) && bells == old(bells) && mails == old(mails)
      ensures recipients == map a | a in old(recipients) :: if old(recipients)[a].Failed? then Pending else old(recipients)[a]
    {
      ghost var before := Model();
      recipients := map a | a in recipients :: if recipients[a].Failed? then Pending else recipients[a];
      Record(before, ResetFailed);
    }

    method SetScheduled(ghost a: Action)
      requires Consistent() && (a.Reschedule? || (a.Schedule? && Enabled(Model(), a)))
      modifies this
      ensures Consistent() && old(history) <= history && phase == old(phase) && recipients == old(recipients) && bells == old(bells) && mails == old(mails)
      ensures campaign == old(campaign).(status := Scheduled)
    {
      ghost var before := Model();
      campaign := campaign.(status := Scheduled);
      Record(before, a);
    }

    /** `schedule`: refused once the campaign has started or ended, and until a needed approval is given. */
    method ScheduleSend() returns (result: ServiceResult)
      requires Consistent()
      modifies this
      ensures Consistent() && old(history) <= history && phase == old(phase) && recipients == old(recipients) && bells == old(bells)
      ensures result == if old(campaign).status !in {DraftCampaign, PendingApproval, Scheduled} then Conflict
        else if !Permitted(old(campaign)) then Forbidden else Accepted(0)
      ensures campaign == if result.Accepted? then old(campaign).(status := Scheduled) else old(campaign)
    {
      hide RunAll;
      if campaign.status !in {DraftCampaign, PendingApproval, Scheduled} { return Conflict; }
      if campaign.requiresApproval && !campaign.approved { return Forbidden; }
      SetScheduled(Schedule);
      result := Accepted(0);
    }

    /** `cancel`: refused while sending and after. */
    method CancelSend() returns (result: ServiceResult)
      requires Consistent()
      modifies this
      ensures Consistent() && old(history) <= history && phase == old(phase) && recipients == old(recipients) && bells == old(bells)
      ensures result == if old(campaign).status in {SentCampaign, Sending} then Conflict else Accepted(0)
      ensures campaign == if result.Accepted? then old(campaign).(status := Cancelled) else old(campaign)
    {
      if campaign.status in {SentCampaign, Sending} { return Conflict; }
      ghost var before := Model();
      campaign := campaign.(status := Cancelled);
      Record(before, Cancel);
      result := Accepted(0);
    }
  }
}
