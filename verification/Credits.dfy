/** Credit adjustments: requested, approved by a second person when large, and applied to a ledger
    that lives elsewhere and honours the idempotency key it is sent.

    Requests overlap freely: an action is one awaited call of one of them, or the ledger acting on
    a request it was sent. The caller waits on a timer: what it gave up on may still be on its way. */
module Credits {
  import opened Prelude

  datatype Direction = Credit | Debit

  datatype Status = PendingApproval | Approved | Applied | Failed | Rejected

  /** `id` is the position in the table. `key` is the random idempotency key. */
  datatype Adjustment = Adjustment(
    account: string, direction: Direction, amount: real, key: string, status: Status,
    requestedBy: string, approvedBy: Option<string>)

  /** The ledger: balances, the keys it has posted, and what the balances would be without them. */
  datatype Ledger = Ledger(balances: map<string, real>, posted: set<string>, elsewhere: map<string, real>)

  /** A request on its way to the ledger, with the run that sent it. */
  datatype Letter = Letter(r: nat, id: nat, order: Adjustment)

  datatype Run =
    | Approving(id: nat, actor: string)
    | Applying(id: nat)
    | Calling(id: nat, read: Adjustment)
    | Awaiting(id: nat)
    | Replied(id: nat, accepted: bool)
    | Answered(id: nat)
    | Auditing(id: nat)
    | Failing(id: nat)
    | Ended

  datatype State = State(table: seq<Adjustment>, ledger: Ledger, wire: seq<Letter>, runs: map<nat, Run>)

  const EMPTY := State([], Ledger(map[], {}, map[]), [], map[])

  datatype Action =
    | Open(account: string)
    | MoveElsewhere(account: string, delta: real)
    | Request(r: nat, actor: string, account: string, direction: Direction, amount: Option<real>, key: string, write: Write)
    | ApproveRead(r: nat, actor: string, id: nat)
    | ApproveWrite(r: nat, write: Write)
    | Reject(id: nat)
    | RetryRead(r: nat, id: nat)
    | ApplyRead(r: nat)
    | Send(r: nat)
    | Deliver(k: nat, accepts: bool)
    | Receive(r: nat)
    | Timeout(r: nat)
    | WriteApplied(r: nat, write: Write)
    | Audit(r: nat, ok: bool)
    | WriteFailed(r: nat, write: Write)
    | Crash(r: nat)

  function Signed(d: Direction, amount: real): real { if d.Credit? then amount else -amount }

  /** `randomUUID` never repeats a key. */
  predicate Fresh(table: seq<Adjustment>, key: string) { forall i :: 0 <= i < |table| ==> table[i].key != key }

  predicate Enabled(s: State, a: Action) {
    match a
    case Open(account) => account !in s.ledger.balances
    case MoveElsewhere(account, _) => account in s.ledger.balances && account in s.ledger.elsewhere
    case Request(r, _, _, _, _, key, _) => r !in s.runs && Fresh(s.table, key)
    case ApproveRead(r, _, _) => r !in s.runs
    case ApproveWrite(r, _) => r in s.runs && s.runs[r].Approving? && s.runs[r].id < |s.table|
    case Reject(id) => id < |s.table|
    case RetryRead(r, _) => r !in s.runs
    case ApplyRead(r) => r in s.runs && s.runs[r].Applying? && s.runs[r].id < |s.table|
    case Send(r) => r in s.runs && s.runs[r].Calling?
    case Deliver(k, _) => k < |s.wire|
    case Receive(r) => r in s.runs && s.runs[r].Replied?
    case Timeout(r) => r in s.runs && (s.runs[r].Awaiting? || s.runs[r].Replied?)
    case WriteApplied(r, _) => r in s.runs && s.runs[r].Answered? && s.runs[r].id < |s.table|
    case Audit(r, _) => r in s.runs && s.runs[r].Auditing?
    case WriteFailed(r, _) => r in s.runs && s.runs[r].Failing? && s.runs[r].id < |s.table|
    case Crash(r) => r in s.runs
  }

  function Goto(s: State, r: nat, run: Run): State { s.(runs := s.runs[r := run]) }

  function SetStatus(s: State, id: nat, status: Status): State
    requires id < |s.table|
  {
    s.(table := s.table[id := s.table[id].(status := status)])
  }

  /** The ledger side of `adjustBalance`: a key it knows moves nothing. */
  function LedgerPost(l: Ledger, x: Adjustment): Ledger {
    if x.key in l.posted || x.account !in l.balances then l
    else l.(balances := l.balances[x.account := l.balances[x.account] + Signed(x.direction, x.amount)],
            posted := l.posted + {x.key})
  }

  function RequestStep(s: State, r: nat, actor: string, account: string, direction: Direction,
                       amount: Option<real>, key: string, write: Write, threshold: real): State {
    if amount.None? || amount.value <= 0.0 || account !in s.ledger.balances || write.Refused? then Goto(s, r, Ended)
    else
      var needsApproval := amount.value > threshold;
      var x := Adjustment(account, direction, amount.value, key, if needsApproval then PendingApproval else Approved,
                          actor, if needsApproval then None else Some(actor));
      Goto(s.(table := s.table + [x]), r, if needsApproval || write.AckLost? then Ended else Applying(|s.table|))
  }

  function ApproveReadStep(s: State, r: nat, actor: string, id: nat): State {
    if id >= |s.table| || s.table[id].status != PendingApproval || s.table[id].requestedBy == actor then Goto(s, r, Ended)
    else Goto(s, r, Approving(id, actor))
  }

  function ApproveWriteStep(s: State, r: nat, id: nat, actor: string, write: Write): State
    requires id < |s.table|
  {
    if write.Refused? then Goto(s, r, Ended)
    else
      var approved := s.table[id].(status := Approved, approvedBy := Some(actor));
      Goto(s.(table := s.table[id := approved]), r, if write.AckLost? then Ended else Applying(id))
  }

  /** The ledger acts on a request, whether or not its sender still waits for the answer. */
  function DeliverStep(s: State, k: nat, accepts: bool): State
    requires k < |s.wire|
  {
    var l := s.wire[k];
    var accepted := accepts && l.order.account in s.ledger.balances;
    var s' := s.(wire := s.wire[..k] + s.wire[k + 1..], ledger := if accepted then LedgerPost(s.ledger, l.order) else s.ledger);
    if l.r in s.runs && s.runs[l.r].Awaiting? then Goto(s', l.r, Replied(s.runs[l.r].id, accepted)) else s'
  }

  function Step(s: State, a: Action, threshold: real): State {
    if !Enabled(s, a) then s else
    match a
    case Open(account) =>
      s.(ledger := s.ledger.(balances := s.ledger.balances[account := 0.0], elsewhere := s.ledger.elsewhere[account := 0.0]))
    case MoveElsewhere(account, delta) =>
      s.(ledger := s.ledger.(balances := s.ledger.balances[account := s.ledger.balances[account] + delta],
                             elsewhere := s.ledger.elsewhere[account := s.ledger.elsewhere[account] + delta]))
    case Request(r, actor, account, direction, amount, key, write) =>
      RequestStep(s, r, actor, account, direction, amount, key, write, threshold)
    case ApproveRead(r, actor, id) => ApproveReadStep(s, r, actor, id)
    case ApproveWrite(r, write) => ApproveWriteStep(s, r, s.runs[r].id, s.runs[r].actor, write)
    case Reject(id) => SetStatus(s, id, Rejected)
    case RetryRead(r, id) => Goto(s, r, if id < |s.table| && s.table[id].status == Failed then Applying(id) else Ended)
    case ApplyRead(r) => Goto(s, r, Calling(s.runs[r].id, s.table[s.runs[r].id]))
    case Send(r) => Goto(s.(wire := s.wire + [Letter(r, s.runs[r].id, s.runs[r].read)]), r, Awaiting(s.runs[r].id))
    case Deliver(k, accepts) => DeliverStep(s, k, accepts)
    case Receive(r) => Goto(s, r, if s.runs[r].accepted then Answered(s.runs[r].id) else Failing(s.runs[r].id))
    case Timeout(r) => Goto(s, r, Failing(s.runs[r].id))
    case WriteApplied(r, write) =>
      var id := s.runs[r].id;
      var s' := if write.Refused? then s else SetStatus(s, id, Applied);
      Goto(s', r, if write.Committed? then Auditing(id) else Failing(id))
    case Audit(r, ok) => Goto(s, r, if ok then Ended else Failing(s.runs[r].id))
    case WriteFailed(r, write) => Goto(if write.Refused? then s else SetStatus(s, s.runs[r].id, Failed), r, Ended)
    case Crash(r) => Goto(s, r, Ended)
  }

  function RunAll(s: State, actions: seq<Action>, threshold: real): State
    decreases |actions|
  {
    if actions == [] then s
    else Step(RunAll(s, actions[..|actions| - 1], threshold), actions[|actions| - 1], threshold)
  }

  // ------------------------------------------------------------ the invariant

  /** What the posted adjustments of the table moved on an account. */
  function Moved(table: seq<Adjustment>, posted: set<string>, account: string): real
    decreases |table|
  {
    if table == [] then 0.0
    else
      var x := table[|table| - 1];
      Moved(table[..|table| - 1], posted, account)
      + (if x.account == account && x.key in posted then Signed(x.direction, x.amount) else 0.0)
  }

  ghost predicate RowOk(x: Adjustment, l: Ledger, threshold: real) {
    && x.amount > 0.0 && x.account in l.balances
    && (x.approvedBy.Some? && x.amount > threshold ==> x.approvedBy.value != x.requestedBy)
    && (x.status.PendingApproval? ==> x.approvedBy.None? && x.amount > threshold)
    && (x.status.Approved? || x.status.Applied? || x.status.Failed? || x.key in l.posted ==> x.approvedBy.Some?)
    && (x.status.Applied? ==> x.key in l.posted)
  }

  /** Nothing changes these once the row exists. */
  predicate SameOrder(x: Adjustment, y: Adjustment) {
    x.account == y.account && x.direction == y.direction && x.amount == y.amount && x.key == y.key && x.requestedBy == y.requestedBy
  }

  ghost predicate RunOk(s: State, run: Run) {
    match run
    case Ended => true
    case Approving(id, actor) => id < |s.table| && s.table[id].requestedBy != actor
    case Applying(id) => id < |s.table| && s.table[id].approvedBy.Some?
    case Calling(id, x) => id < |s.table| && s.table[id].approvedBy.Some? && SameOrder(s.table[id], x)
    case Awaiting(id) => id < |s.table| && s.table[id].approvedBy.Some?
    case Replied(id, accepted) => id < |s.table| && s.table[id].approvedBy.Some? && (accepted ==> s.table[id].key in s.ledger.posted)
    case Answered(id) => id < |s.table| && s.table[id].key in s.ledger.posted
    case Auditing(id) => id < |s.table| && s.table[id].key in s.ledger.posted
    case Failing(id) => id < |s.table| && s.table[id].approvedBy.Some?
  }

  /** A request on its way is for an approved row, and its sender, while it waits, waits for that. */
  ghost predicate LetterOk(s: State, l: Letter) {
    && l.id < |s.table| && s.table[l.id].approvedBy.Some? && SameOrder(s.table[l.id], l.order)
    && (l.r in s.runs && s.runs[l.r].Awaiting? ==> s.runs[l.r].id == l.id)
    && l.r in s.runs && !s.runs[l.r].Calling? && !s.runs[l.r].Applying? && !s.runs[l.r].Approving?
  }

  ghost predicate KeysOk(s: State) {
    && (forall i, j :: 0 <= i < j < |s.table| ==> s.table[i].key != s.table[j].key)
    && (forall k :: k in s.ledger.posted ==> exists i :: 0 <= i < |s.table| && s.table[i].key == k)
    && s.ledger.balances.Keys == s.ledger.elsewhere.Keys
  }

  ghost predicate RowsOk(s: State, threshold: real) {
    && (forall i :: 0 <= i < |s.table| ==> RowOk(s.table[i], s.ledger, threshold))
    && (forall r :: r in s.runs ==> RunOk(s, s.runs[r]))
    && (forall k :: 0 <= k < |s.wire| ==> LetterOk(s, s.wire[k]))
  }

  ghost predicate BalancesOk(s: State) {
    && s.ledger.balances.Keys == s.ledger.elsewhere.Keys
    && forall account :: account in s.ledger.balances ==>
      s.ledger.balances[account] == s.ledger.elsewhere[account] + Moved(s.table, s.ledger.posted, account)
  }

  ghost predicate Inv(s: State, threshold: real) { KeysOk(s) && RowsOk(s, threshold) && BalancesOk(s) }

  // ------------------------------------------------------------ every step keeps it

  lemma {:induction false} MovedSameOrder(table: seq<Adjustment>, table': seq<Adjustment>, posted: set<string>, account: string)
    requires |table| == |table'| && forall i :: 0 <= i < |table| ==> SameOrder(table[i], table'[i])
    ensures Moved(table, posted, account) == Moved(table', posted, account)
    decreases |table|
  {
    if table != [] {
      var n := |table| - 1;
      assert SameOrder(table[n], table'[n]);
      MovedSameOrder(table[..n], table'[..n], posted, account);
    }
  }

  /** A key no row carries moves nothing. */
  lemma {:induction false} MovedOtherKey(table: seq<Adjustment>, posted: set<string>, key: string, account: string)
    requires forall i :: 0 <= i < |table| ==> table[i].key != key
    ensures Moved(table, posted + {key}, account) == Moved(table, posted, account)
    decreases |table|
  {
    if table != [] { MovedOtherKey(table[..|table| - 1], posted, key, account); }
  }

  /** Posting one adjustment moves its own account by its own amount, and no other. */
  lemma {:induction false} MovedPost(table: seq<Adjustment>, posted: set<string>, i: nat, account: string)
    requires i < |table| && table[i].key !in posted
    requires forall j, k :: 0 <= j < k < |table| ==> table[j].key != table[k].key
    ensures Moved(table, posted + {table[i].key}, account) ==
      Moved(table, posted, account) + (if table[i].account == account then Signed(table[i].direction, table[i].amount) else 0.0)
    decreases |table|
  {
    var n := |table| - 1;
    if i == n { MovedOtherKey(table[..n], posted, table[i].key, account); }
    else {
      assert table[i].key != table[n].key;
      MovedPost(table[..n], posted, i, account);
    }
  }

  /** A run may move on, but not back to where it could send again. */
  predicate MayMove(s: State, r: nat, run: Run) {
    && (run.Awaiting? || run.Calling? || run.Applying? || run.Approving? ==> Unsent(s, r))
  }

  /** This run has no request on its way. */
  predicate Unsent(s: State, r: nat) { forall k :: 0 <= k < |s.wire| ==> s.wire[k].r != r }

  /** Before it has sent its request a run has none on its way. */
  lemma NotYetSent(s: State, r: nat, threshold: real)
    requires Inv(s, threshold)
    requires r in s.runs ==> s.runs[r].Calling? || s.runs[r].Applying? || s.runs[r].Approving?
    ensures Unsent(s, r)
  {
    forall k | 0 <= k < |s.wire| ensures s.wire[k].r != r { assert LetterOk(s, s.wire[k]); }
  }

  lemma RunMoved(s: State, r: nat, run: Run, threshold: real)
    requires Inv(s, threshold) && RunOk(s, run) && MayMove(s, r, run)
    ensures Inv(Goto(s, r, run), threshold)
  {
    var s' := Goto(s, r, run);
    forall q | q in s'.runs ensures RunOk(s', s'.runs[q]) {
      if q != r { assert RunOk(s, s.runs[q]); }
    }
    forall k | 0 <= k < |s'.wire| ensures LetterOk(s', s'.wire[k]) { assert LetterOk(s, s.wire[k]); }
  }

  lemma LetterSent(s: State, r: nat, threshold: real)
    requires Inv(s, threshold) && r in s.runs && s.runs[r].Calling?
    ensures Inv(Step(s, Send(r), threshold), threshold)
  {
    var s' := Step(s, Send(r), threshold);
    assert RunOk(s, s.runs[r]);
    NotYetSent(s, r, threshold);
    forall q | q in s'.runs ensures RunOk(s', s'.runs[q]) {
      if q != r { assert RunOk(s, s.runs[q]); }
    }
    forall k | 0 <= k < |s'.wire| ensures LetterOk(s', s'.wire[k]) {
      if k < |s.wire| { assert LetterOk(s, s.wire[k]); }
    }
  }

  /** One request fewer on its way. */
  lemma LetterTaken(s: State, k: nat, threshold: real)
    requires Inv(s, threshold) && k < |s.wire|
    ensures Inv(s.(wire := s.wire[..k] + s.wire[k + 1..]), threshold)
  {
    var s' := s.(wire := s.wire[..k] + s.wire[k + 1..]);
    forall j | 0 <= j < |s'.wire| ensures LetterOk(s', s'.wire[j]) {
      assert LetterOk(s, s.wire[if j < k then j else j + 1]);
    }
    forall q | q in s'.runs ensures RunOk(s', s'.runs[q]) { assert RunOk(s, s.runs[q]); }
  }

  /** A new version of a row keeps its order and never loses its approver. */
  lemma RowReplaced(s: State, id: nat, y: Adjustment, threshold: real)
    requires Inv(s, threshold) && id < |s.table| && SameOrder(s.table[id], y) && RowOk(y, s.ledger, threshold)
    requires s.table[id].approvedBy.Some? ==> y.approvedBy.Some?
    ensures Inv(s.(table := s.table[id := y]), threshold)
  {
    var s' := s.(table := s.table[id := y]);
    assert forall i :: 0 <= i < |s.table| ==> SameOrder(s.table[i], s'.table[i]);
    forall account | account in s.ledger.balances ensures Moved(s'.table, s.ledger.posted, account) == Moved(s.table, s.ledger.posted, account) {
      MovedSameOrder(s.table, s'.table, s.ledger.posted, account);
    }
    hide Moved;
    SameWire(s, s', threshold);
    forall k | k in s.ledger.posted ensures exists i :: 0 <= i < |s'.table| && s'.table[i].key == k {
      var i :| 0 <= i < |s.table| && s.table[i].key == k;
      assert s'.table[i].key == k;
    }
  }

  /** Rows that keep their order and approver, and a ledger that forgets no key, leave runs and
      requests on their way as sound as they were. */
  lemma SameWire(s: State, s': State, threshold: real)
    requires RowsOk(s, threshold) && s'.runs == s.runs && s'.wire == s.wire && s.ledger.posted <= s'.ledger.posted
    requires |s.table| <= |s'.table|
    requires forall i :: 0 <= i < |s.table| ==> SameOrder(s.table[i], s'.table[i]) && (s.table[i].approvedBy.Some? ==> s'.table[i].approvedBy.Some?)
    ensures forall r :: r in s'.runs ==> RunOk(s', s'.runs[r])
    ensures forall k :: 0 <= k < |s'.wire| ==> LetterOk(s', s'.wire[k])
  {
    forall r | r in s'.runs ensures RunOk(s', s'.runs[r]) { assert RunOk(s, s.runs[r]); }
    forall k | 0 <= k < |s'.wire| ensures LetterOk(s', s'.wire[k]) { assert LetterOk(s, s.wire[k]); }
  }

  lemma RowAdded(s: State, x: Adjustment, threshold: real)
    requires Inv(s, threshold) && Fresh(s.table, x.key) && RowOk(x, s.ledger, threshold)
    ensures Inv(s.(table := s.table + [x]), threshold)
  {
    var s' := s.(table := s.table + [x]);
    assert s'.table[..|s.table|] == s.table;
    assert x.key !in s.ledger.posted;
    SameWire(s, s', threshold);
    forall k | k in s.ledger.posted ensures exists i :: 0 <= i < |s'.table| && s'.table[i].key == k {
      var i :| 0 <= i < |s.table| && s.table[i].key == k;
      assert s'.table[i].key == k;
    }
  }

  lemma LedgerPosted(s: State, id: nat, x: Adjustment, threshold: real)
    requires Inv(s, threshold) && id < |s.table| && SameOrder(s.table[id], x) && s.table[id].approvedBy.Some? && x.account in s.ledger.balances
    ensures Inv(s.(ledger := LedgerPost(s.ledger, x)), threshold) && x.key in LedgerPost(s.ledger, x).posted
  {
    var s' := s.(ledger := LedgerPost(s.ledger, x));
    if x.key !in s.ledger.posted {
      forall account | account in s'.ledger.balances
        ensures s'.ledger.balances[account] == s'.ledger.elsewhere[account] + Moved(s'.table, s'.ledger.posted, account)
      {
        MovedPost(s.table, s.ledger.posted, id, account);
      }
      forall i | 0 <= i < |s.table| ensures RowOk(s'.table[i], s'.ledger, threshold) {
        assert RowOk(s.table[i], s.ledger, threshold);
        if i < id { assert s.table[i].key != s.table[id].key; }
        if id < i { assert s.table[id].key != s.table[i].key; }
      }
      SameWire(s, s', threshold);
    }
  }

  lemma {:induction false} NothingMoved(table: seq<Adjustment>, posted: set<string>, account: string)
    requires forall i :: 0 <= i < |table| ==> table[i].account != account
    ensures Moved(table, posted, account) == 0.0
    decreases |table|
  {
    if table != [] { NothingMoved(table[..|table| - 1], posted, account); }
  }

  lemma AccountsMove(s: State, a: Action, threshold: real)
    requires Inv(s, threshold) && Enabled(s, a) && (a.Open? || a.MoveElsewhere?)
    ensures Inv(Step(s, a, threshold), threshold)
  {
    var s' := Step(s, a, threshold);
    forall i | 0 <= i < |s.table| ensures RowOk(s'.table[i], s'.ledger, threshold) { assert RowOk(s.table[i], s.ledger, threshold); }
    SameWire(s, s', threshold);
    if a.Open? {
      assert forall i :: 0 <= i < |s.table| ==> RowOk(s.table[i], s.ledger, threshold);
      NothingMoved(s.table, s.ledger.posted, a.account);
    }
  }

  lemma RequestKeepsInv(s: State, a: Action, threshold: real)
    requires Inv(s, threshold) && Enabled(s, a) && a.Request?
    ensures Inv(Step(s, a, threshold), threshold)
  {
    NotYetSent(s, a.r, threshold);
    hide Inv;
    if a.amount.None? || a.amount.value <= 0.0 || a.account !in s.ledger.balances || a.write.Refused? {
      RunMoved(s, a.r, Ended, threshold);
    } else {
      var needsApproval := a.amount.value > threshold;
      var x := Adjustment(a.account, a.direction, a.amount.value, a.key, if needsApproval then PendingApproval else Approved,
                          a.actor, if needsApproval then None else Some(a.actor));
      NewKeyIsUnposted(s, a.key, threshold);
      RowAdded(s, x, threshold);
      RunMoved(s.(table := s.table + [x]), a.r, if needsApproval || a.write.AckLost? then Ended else Applying(|s.table|), threshold);
    }
  }

  lemma NewKeyIsUnposted(s: State, key: string, threshold: real)
    requires Inv(s, threshold) && Fresh(s.table, key)
    ensures key !in s.ledger.posted
  {
  }

  lemma ApproveKeepsInv(s: State, r: nat, write: Write, threshold: real)
    requires Inv(s, threshold) && Enabled(s, ApproveWrite(r, write))
    ensures Inv(Step(s, ApproveWrite(r, write), threshold), threshold)
  {
    var id, actor := s.runs[r].id, s.runs[r].actor;
    assert RunOk(s, s.runs[r]) && RowOk(s.table[id], s.ledger, threshold);
    NotYetSent(s, r, threshold);
    hide Inv;
    if write.Refused? { RunMoved(s, r, Ended, threshold); }
    else {
      var x := s.table[id].(status := Status.Approved, approvedBy := Some(actor));
      RowReplaced(s, id, x, threshold);
      RunMoved(s.(table := s.table[id := x]), r, if write.AckLost? then Ended else Applying(id), threshold);
    }
  }

  lemma DeliverKeepsInv(s: State, k: nat, accepts: bool, threshold: real)
    requires Inv(s, threshold) && k < |s.wire|
    ensures Inv(DeliverStep(s, k, accepts), threshold)
  {
    var l := s.wire[k];
    assert LetterOk(s, l);
    var taken := s.(wire := s.wire[..k] + s.wire[k + 1..]);
    LetterTaken(s, k, threshold);
    var accepted := accepts && l.order.account in s.ledger.balances;
    var moved := if accepted then taken.(ledger := LedgerPost(taken.ledger, l.order)) else taken;
    if accepted { LedgerPosted(taken, l.id, l.order, threshold); }
    hide Inv, LedgerPost;
    if l.r in s.runs && s.runs[l.r].Awaiting? { RunMoved(moved, l.r, Replied(l.id, accepted), threshold); }
  }

  lemma StatusSet(s: State, id: nat, status: Status, threshold: real)
    requires Inv(s, threshold) && id < |s.table|
    requires status == Rejected || (status == Failed && s.table[id].approvedBy.Some?) || (status == Applied && s.table[id].key in s.ledger.posted)
    ensures Inv(SetStatus(s, id, status), threshold)
  {
    assert RowOk(s.table[id], s.ledger, threshold);
    hide Inv;
    RowReplaced(s, id, s.table[id].(status := status), threshold);
  }

  lemma WriteKeepsInv(s: State, a: Action, threshold: real)
    requires Inv(s, threshold) && Enabled(s, a) && (a.WriteApplied? || a.WriteFailed?)
    ensures Inv(Step(s, a, threshold), threshold)
  {
    var id := s.runs[a.r].id;
    assert RunOk(s, s.runs[a.r]) && RowOk(s.table[id], s.ledger, threshold);
    var s' := if a.write.Refused? then s else SetStatus(s, id, if a.WriteApplied? then Applied else Failed);
    var run := if a.WriteFailed? then Ended else if a.write.Committed? then Auditing(id) else Failing(id);
    if !a.write.Refused? { StatusSet(s, id, if a.WriteApplied? then Applied else Failed, threshold); }
    hide Inv;
    RunMoved(s', a.r, run, threshold);
  }

  lemma StepKeepsInv(s: State, a: Action, threshold: real)
    requires Inv(s, threshold)
    ensures Inv(Step(s, a, threshold), threshold)
  {
    if !Enabled(s, a) { return; }
    assert forall r :: r in s.runs ==> RunOk(s, s.runs[r]);
    assert forall i :: 0 <= i < |s.table| ==> RowOk(s.table[i], s.ledger, threshold);
    hide Inv, RequestStep, ApproveWriteStep, DeliverStep, SetStatus, LedgerPost, Fresh, Unsent;
    match a
    case Open(_) => AccountsMove(s, a, threshold);
    case MoveElsewhere(_, _) => AccountsMove(s, a, threshold);
    case Request(_, _, _, _, _, _, _) => RequestKeepsInv(s, a, threshold);
    case ApproveRead(r, actor, id) =>
      NotYetSent(s, r, threshold);
      RunMoved(s, r, if id >= |s.table| || s.table[id].status != PendingApproval || s.table[id].requestedBy == actor then Ended else Approving(id, actor), threshold);
    case ApproveWrite(r, write) => ApproveKeepsInv(s, r, write, threshold);
    case Reject(id) => StatusSet(s, id, Rejected, threshold);
    case RetryRead(r, id) =>
      NotYetSent(s, r, threshold);
      RunMoved(s, r, if id < |s.table| && s.table[id].status == Failed then Applying(id) else Ended, threshold);
    case ApplyRead(r) => NotYetSent(s, r, threshold); RunMoved(s, r, Calling(s.runs[r].id, s.table[s.runs[r].id]), threshold);
    case Send(r) => LetterSent(s, r, threshold);
    case Deliver(k, accepts) => DeliverKeepsInv(s, k, accepts, threshold);
    case Receive(r) => RunMoved(s, r, if s.runs[r].accepted then Answered(s.runs[r].id) else Failing(s.runs[r].id), threshold);
    case Timeout(r) => RunMoved(s, r, Failing(s.runs[r].id), threshold);
    case WriteApplied(_, _) => WriteKeepsInv(s, a, threshold);
    case Audit(r, ok) => RunMoved(s, r, if ok then Ended else Failing(s.runs[r].id), threshold);
    case WriteFailed(_, _) => WriteKeepsInv(s, a, threshold);
    case Crash(r) => RunMoved(s, r, Ended, threshold);
  }

  lemma {:induction false} ReachableInv(actions: seq<Action>, threshold: real)
    ensures Inv(RunAll(EMPTY, actions, threshold), threshold)
    decreases |actions|
  {
    if actions != [] {
      var init := actions[..|actions| - 1];
      ReachableInv(init, threshold);
      hide Inv, Step;
      StepKeepsInv(RunAll(EMPTY, init, threshold), actions[|actions| - 1], threshold);
    }
  }

  // ------------------------------------------------------------ theorems about every run

  /** The amounts of the account's posted adjustments in one direction. */
  ghost function PostedSum(table: seq<Adjustment>, posted: set<string>, account: string, direction: Direction): real
    decreases |table|
  {
    if table == [] then 0.0
    else
      var x := table[|table| - 1];
      PostedSum(table[..|table| - 1], posted, account, direction) +
      if x.account == account && x.direction == direction && x.key in posted then x.amount else 0.0
  }

  lemma {:induction false} MovedIsDifference(table: seq<Adjustment>, posted: set<string>, account: string)
    ensures Moved(table, posted, account) == PostedSum(table, posted, account, Credit) - PostedSum(table, posted, account, Debit)
    decreases |table|
  {
    if table != [] { MovedIsDifference(table[..|table| - 1], posted, account); }
  }

  /** The account has been opened, and what moved it since then other than adjustments. */
  ghost predicate Opened(actions: seq<Action>, account: string) { Open(account) in actions }

  ghost function Outside(actions: seq<Action>, account: string): real
    decreases |actions|
  {
    if actions == [] then 0.0
    else
      var init, last := actions[..|actions| - 1], actions[|actions| - 1];
      Outside(init, account) +
      if last.MoveElsewhere? && last.account == account && Opened(init, account) then last.delta else 0.0
  }

  /** Only the account's own movements elsewhere change what it would be without adjustments. */
  lemma OnlyMovementsElsewhere(s: State, a: Action, account: string, threshold: real)
    requires s.ledger.balances.Keys == s.ledger.elsewhere.Keys
    ensures var s' := Step(s, a, threshold);
      && (account in s'.ledger.elsewhere <==> account in s.ledger.elsewhere || a == Open(account))
      && (account in s.ledger.elsewhere ==>
            s'.ledger.elsewhere[account] == s.ledger.elsewhere[account] + (if a.MoveElsewhere? && a.account == account then a.delta else 0.0))
      && (account !in s.ledger.elsewhere && a == Open(account) ==> s'.ledger.elsewhere[account] == 0.0)
  {
    hide Fresh;
  }

  lemma {:induction false} ElsewhereIsOutside(actions: seq<Action>, threshold: real, account: string)
    ensures var l := RunAll(EMPTY, actions, threshold).ledger;
      (account in l.elsewhere <==> Opened(actions, account)) && (account in l.elsewhere ==> l.elsewhere[account] == Outside(actions, account))
    ensures !Opened(actions, account) ==> Outside(actions, account) == 0.0
    decreases |actions|
  {
    if actions != [] {
      var init, last := actions[..|actions| - 1], actions[|actions| - 1];
      assert actions == init + [last];
      ElsewhereIsOutside(init, threshold, account);
      ReachableInv(init, threshold);
      OnlyMovementsElsewhere(RunAll(EMPTY, init, threshold), last, account, threshold);
      hide Step, RowsOk, BalancesOk;
    }
  }

  /** Every balance is what moved the account elsewhere since it was opened, plus its posted credits and
      less its posted debits, each counted once: however often it was applied, retried or answered late. */
  lemma {:induction false} BalanceIsConserved(actions: seq<Action>, threshold: real, account: string)
    requires account in RunAll(EMPTY, actions, threshold).ledger.balances
    ensures var s := RunAll(EMPTY, actions, threshold);
      && s.ledger.balances[account] ==
           Outside(actions, account) + PostedSum(s.table, s.ledger.posted, account, Credit) - PostedSum(s.table, s.ledger.posted, account, Debit)
      && (forall i, j :: 0 <= i < j < |s.table| ==> s.table[i].key != s.table[j].key)
      && account in s.ledger.elsewhere
      && s.ledger.balances[account] == s.ledger.elsewhere[account] + Moved(s.table, s.ledger.posted, account)
  {
    ReachableInv(actions, threshold);
    ElsewhereIsOutside(actions, threshold, account);
    var s := RunAll(EMPTY, actions, threshold);
    MovedIsDifference(s.table, s.ledger.posted, account);
    hide RunAll, RowsOk;
  }

  /** The adjustment is what this action asked for. */
  ghost predicate AsksFor(a: Action, x: Adjustment) {
    && a.Request? && !a.write.Refused? && a.amount == Some(x.amount) && x.amount > 0.0
    && a.account == x.account && a.direction == x.direction && a.key == x.key && a.actor == x.requestedBy
  }

  lemma RowsComeFromRequests(s: State, a: Action, i: nat, threshold: real)
    requires i < |Step(s, a, threshold).table|
    ensures var y := Step(s, a, threshold).table[i];
      if i < |s.table|
      then var x := s.table[i];
        y.account == x.account && y.direction == x.direction && y.amount == x.amount && y.key == x.key && y.requestedBy == x.requestedBy
      else AsksFor(a, y)
  {
    hide LedgerPost, Fresh;
  }

  /** Every adjustment is one that was requested: its account, direction, amount, key and requester are
      those of a request, and never change. */
  lemma {:induction false} RowsAreRequested(actions: seq<Action>, threshold: real, i: nat)
    requires i < |RunAll(EMPTY, actions, threshold).table|
    ensures exists p :: 0 <= p < |actions| && AsksFor(actions[p], RunAll(EMPTY, actions, threshold).table[i])
    decreases |actions|
  {
    if actions != [] {
      var init, last := actions[..|actions| - 1], actions[|actions| - 1];
      var before := RunAll(EMPTY, init, threshold);
      RowsComeFromRequests(before, last, i, threshold);
      hide Step;
      if i < |before.table| {
        RowsAreRequested(init, threshold, i);
        var p :| 0 <= p < |init| && AsksFor(init[p], before.table[i]);
        assert actions[p] == init[p];
      } else {
        assert AsksFor(actions[|init|], RunAll(EMPTY, actions, threshold).table[i]);
      }
    }
  }

  /** A credit that is posted raises its account by its amount, a debit lowers it, and nothing else moves. */
  lemma {:induction false} PostingMoves(actions: seq<Action>, threshold: real, k: nat)
    requires k < |RunAll(EMPTY, actions, threshold).wire|
    ensures var s := RunAll(EMPTY, actions, threshold); var x := s.wire[k].order; var after := Step(s, Deliver(k, true), threshold).ledger;
      && x.account in s.ledger.balances && after.elsewhere == s.ledger.elsewhere
      && after.posted == s.ledger.posted + {x.key} && Step(s, Deliver(k, false), threshold).ledger == s.ledger
      && after.balances == (if x.key in s.ledger.posted then s.ledger.balances
           else if x.direction.Credit? then s.ledger.balances[x.account := s.ledger.balances[x.account] + x.amount]
           else s.ledger.balances[x.account := s.ledger.balances[x.account] - x.amount])
  {
    var s := RunAll(EMPTY, actions, threshold);
    ReachableInv(actions, threshold);
    hide RunAll;
    assert LetterOk(s, s.wire[k]) && RowOk(s.table[s.wire[k].id], s.ledger, threshold);
    hide Inv;
  }

  /** An adjustment reads APPLIED only when the ledger posted it, and nothing the ledger posted is
      still waiting for approval. */
  lemma {:induction false} AppliedIsPosted(actions: seq<Action>, threshold: real, i: nat)
    requires i < |RunAll(EMPTY, actions, threshold).table|
    ensures var s := RunAll(EMPTY, actions, threshold);
      && (s.table[i].status.Applied? ==> s.table[i].key in s.ledger.posted)
      && (s.table[i].key in s.ledger.posted ==> !s.table[i].status.PendingApproval?)
  {
    ReachableInv(actions, threshold);
    hide RunAll;
    assert RowOk(RunAll(EMPTY, actions, threshold).table[i], RunAll(EMPTY, actions, threshold).ledger, threshold);
  }

  /** Money above the threshold moves only with an approver who is not the requester. */
  lemma {:induction false} LargeSumsNeedTwo(actions: seq<Action>, threshold: real, i: nat)
    requires i < |RunAll(EMPTY, actions, threshold).table|
    ensures var s := RunAll(EMPTY, actions, threshold); var x := s.table[i];
      && x.amount > 0.0
      && (x.key in s.ledger.posted && x.amount > threshold ==> x.approvedBy.Some? && x.approvedBy.value != x.requestedBy)
  {
    ReachableInv(actions, threshold);
    hide RunAll;
    assert RowOk(RunAll(EMPTY, actions, threshold).table[i], RunAll(EMPTY, actions, threshold).ledger, threshold);
  }

  // ------------------------------------------------------------ what a rejection is worth

  /** Some request is between two awaited calls about this adjustment. */
  ghost predicate InHand(s: State, id: nat) {
    exists r :: r in s.runs && !s.runs[r].Ended? && s.runs[r].id == id
  }

  /** Somebody is at work on it, or a request for it, perhaps long given up, is on its way. */
  ghost predicate InFlight(s: State, id: nat) {
    InHand(s, id) || exists k :: 0 <= k < |s.wire| && s.wire[k].id == id
  }

  /** Some continuation of the run posts this adjustment. */
  ghost predicate CanPost(s: State, id: nat, threshold: real)
    requires id < |s.table|
  {
    exists more :: s.table[id].key in RunAll(s, more, threshold).ledger.posted
  }

  /** With nothing in flight for it, no single step touches a rejected adjustment or its posting. */
  lemma RejectedStep(s: State, id: nat, a: Action, threshold: real)
    requires Inv(s, threshold) && id < |s.table| && s.table[id].status.Rejected? && !InFlight(s, id)
    ensures var s' := Step(s, a, threshold);
      && id < |s'.table| && s'.table[id] == s.table[id] && !InFlight(s', id)
      && (s.table[id].key in s'.ledger.posted ==> s.table[id].key in s.ledger.posted)
  {
    if !Enabled(s, a) { return; }
    if a.Deliver? {
      RejectedDelivery(s, id, a.k, a.accepts, threshold);
      hide DeliverStep;
    } else {
      PlainRejectedStep(s, id, a, threshold);
      hide Step;
    }
  }

  lemma PlainRejectedStep(s: State, id: nat, a: Action, threshold: real)
    requires id < |s.table| && s.table[id].status.Rejected? && !InFlight(s, id) && Enabled(s, a) && !a.Deliver?
    ensures var s' := Step(s, a, threshold);
      id < |s'.table| && s'.table[id] == s.table[id] && !InFlight(s', id) && s'.ledger.posted == s.ledger.posted
  {
    hide Fresh;
  }

  lemma RejectedDelivery(s: State, id: nat, k: nat, accepts: bool, threshold: real)
    requires Inv(s, threshold) && id < |s.table| && !InFlight(s, id) && k < |s.wire|
    ensures var s' := DeliverStep(s, k, accepts);
      && s'.table == s.table && !InFlight(s', id)
      && (s.table[id].key in s'.ledger.posted ==> s.table[id].key in s.ledger.posted)
  {
    var l := s.wire[k];
    assert LetterOk(s, l) && l.id != id;
    assert s.table[l.id].key == l.order.key != s.table[id].key by {
      if l.id < id { assert s.table[l.id].key != s.table[id].key; } else { assert s.table[id].key != s.table[l.id].key; }
    }
    hide Inv;
  }

  lemma {:induction false} RejectedStays(s: State, id: nat, more: seq<Action>, threshold: real)
    requires Inv(s, threshold) && id < |s.table| && s.table[id].status.Rejected? && !InFlight(s, id)
    ensures var s' := RunAll(s, more, threshold);
      && Inv(s', threshold) && id < |s'.table| && s'.table[id] == s.table[id] && !InFlight(s', id)
      && (s.table[id].key in s'.ledger.posted ==> s.table[id].key in s.ledger.posted)
    decreases |more|
  {
    if more != [] {
      var init := more[..|more| - 1];
      RejectedStays(s, id, init, threshold);
      hide Inv, Step, InFlight;
      RejectedStep(RunAll(s, init, threshold), id, more[|more| - 1], threshold);
      StepKeepsInv(RunAll(s, init, threshold), more[|more| - 1], threshold);
    }
  }

  lemma {:induction false} RunPrepend(s: State, a: Action, more: seq<Action>, threshold: real)
    ensures RunAll(s, [a] + more, threshold) == RunAll(Step(s, a, threshold), more, threshold)
    decreases |more|
  {
    hide Step;
    if more == [] {
      assert [a] + more == [a] && [a][..0] == [];
    } else {
      RunPrepend(s, a, more[..|more| - 1], threshold);
      assert ([a] + more)[..|more|] == [a] + more[..|more| - 1];
    }
  }

  /** One more step first: what can be posted afterwards can be posted now. */
  lemma CanPostAfter(s: State, id: nat, a: Action, threshold: real)
    requires id < |s.table| && id < |Step(s, a, threshold).table| && Step(s, a, threshold).table[id].key == s.table[id].key
    requires CanPost(Step(s, a, threshold), id, threshold)
    ensures CanPost(s, id, threshold)
  {
    var more :| s.table[id].key in RunAll(Step(s, a, threshold), more, threshold).ledger.posted;
    RunPrepend(s, a, more, threshold);
  }

  /** A request on its way can still be delivered. */
  lemma LetterPosts(s: State, id: nat, k: nat, threshold: real)
    requires Inv(s, threshold) && id < |s.table| && k < |s.wire| && s.wire[k].id == id
    ensures CanPost(s, id, threshold)
  {
    assert LetterOk(s, s.wire[k]) && RowOk(s.table[id], s.ledger, threshold);
    hide Inv;
    var after := Step(s, Deliver(k, true), threshold);
    assert s.table[id].key in after.ledger.posted;
    assert RunAll(after, [], threshold) == after;
    CanPostAfter(s, id, Deliver(k, true), threshold);
  }

  lemma CallingPosts(s: State, id: nat, r: nat, threshold: real)
    requires Inv(s, threshold) && id < |s.table| && r in s.runs && s.runs[r].Calling? && s.runs[r].id == id
    ensures CanPost(s, id, threshold)
  {
    StepKeepsInv(s, Send(r), threshold);
    hide Inv, RunAll;
    LetterPosts(Step(s, Send(r), threshold), id, |s.wire|, threshold);
    CanPostAfter(s, id, Send(r), threshold);
  }

  lemma ApplyingPosts(s: State, id: nat, r: nat, threshold: real)
    requires Inv(s, threshold) && id < |s.table| && r in s.runs && s.runs[r] == Applying(id)
    ensures CanPost(s, id, threshold)
  {
    StepKeepsInv(s, ApplyRead(r), threshold);
    hide Inv, RunAll;
    CallingPosts(Step(s, ApplyRead(r), threshold), id, r, threshold);
    CanPostAfter(s, id, ApplyRead(r), threshold);
  }

  lemma ApprovingPosts(s: State, id: nat, r: nat, threshold: real)
    requires Inv(s, threshold) && id < |s.table| && r in s.runs && s.runs[r].Approving? && s.runs[r].id == id
    ensures CanPost(s, id, threshold)
  {
    StepKeepsInv(s, ApproveWrite(r, Committed), threshold);
    hide Inv, RunAll;
    ApplyingPosts(Step(s, ApproveWrite(r, Committed), threshold), id, r, threshold);
    CanPostAfter(s, id, ApproveWrite(r, Committed), threshold);
  }

  lemma FailingPosts(s: State, id: nat, r: nat, threshold: real)
    requires Inv(s, threshold) && id < |s.table| && r in s.runs && s.runs[r] == Failing(id)
    ensures CanPost(s, id, threshold)
  {
    StepKeepsInv(s, WriteFailed(r, Committed), threshold);
    hide Inv, RunAll;
    FailedPosts(Step(s, WriteFailed(r, Committed), threshold), id, threshold);
    CanPostAfter(s, id, WriteFailed(r, Committed), threshold);
  }

  lemma FailedPosts(s: State, id: nat, threshold: real)
    requires Inv(s, threshold) && id < |s.table| && s.table[id].status.Failed?
    ensures CanPost(s, id, threshold)
  {
    var q := UnusedNat(s.runs.Keys);
    StepKeepsInv(s, RetryRead(q, id), threshold);
    hide Inv, RunAll;
    ApplyingPosts(Step(s, RetryRead(q, id), threshold), id, q, threshold);
    CanPostAfter(s, id, RetryRead(q, id), threshold);
  }

  lemma WaitingPosts(s: State, id: nat, r: nat, threshold: real)
    requires Inv(s, threshold) && id < |s.table| && r in s.runs && (s.runs[r].Awaiting? || s.runs[r].Replied?) && s.runs[r].id == id
    ensures CanPost(s, id, threshold)
  {
    StepKeepsInv(s, Timeout(r), threshold);
    hide Inv, RunAll;
    FailingPosts(Step(s, Timeout(r), threshold), id, r, threshold);
    CanPostAfter(s, id, Timeout(r), threshold);
  }

  lemma RunInHandPosts(s: State, id: nat, r: nat, threshold: real)
    requires Inv(s, threshold) && id < |s.table| && s.table[id].key !in s.ledger.posted
    requires r in s.runs && !s.runs[r].Ended? && s.runs[r].id == id
    ensures CanPost(s, id, threshold)
  {
    assert RunOk(s, s.runs[r]);
    hide Inv, RunAll, Step;
    match s.runs[r]
    case Calling(_, _) => CallingPosts(s, id, r, threshold);
    case Applying(_) => ApplyingPosts(s, id, r, threshold);
    case Approving(_, _) => ApprovingPosts(s, id, r, threshold);
    case Failing(_) => FailingPosts(s, id, r, threshold);
    case Awaiting(_) => WaitingPosts(s, id, r, threshold);
    case Replied(_, _) => WaitingPosts(s, id, r, threshold);
    case _ =>
  }

  /** `reject` looks at no status, so a rejected adjustment can still be posted. It can exactly when
      some request was already at work on it, or a request to the ledger, even one its sender timed
      out on, is still on its way. */
  lemma {:induction false} RejectedPostsOnlyFromFlight(actions: seq<Action>, id: nat, threshold: real)
    requires var s := RunAll(EMPTY, actions, threshold);
      id < |s.table| && s.table[id].status.Rejected? && s.table[id].key !in s.ledger.posted
    ensures var s := RunAll(EMPTY, actions, threshold); CanPost(s, id, threshold) <==> InFlight(s, id)
  {
    var s := RunAll(EMPTY, actions, threshold);
    ReachableInv(actions, threshold);
    hide Inv, RunAll;
    if InHand(s, id) {
      var r :| r in s.runs && !s.runs[r].Ended? && s.runs[r].id == id;
      RunInHandPosts(s, id, r, threshold);
    } else if InFlight(s, id) {
      var k :| 0 <= k < |s.wire| && s.wire[k].id == id;
      LetterPosts(s, id, k, threshold);
    } else if CanPost(s, id, threshold) {
      var more :| s.table[id].key in RunAll(s, more, threshold).ledger.posted;
      RejectedStays(s, id, more, threshold);
    }
  }

  lemma GivenUp(s: State, r: nat, threshold: real)
    requires r in s.runs && s.runs[r].Awaiting? && s.runs[r].id < |s.table|
    ensures Step(Step(s, Timeout(r), threshold), WriteFailed(r, Committed), threshold) ==
      Goto(SetStatus(s, s.runs[r].id, Failed), r, Ended)
  {
    var s1 := Step(s, Timeout(r), threshold);
    assert s1 == Goto(s, r, Failing(s.runs[r].id));
    hide RequestStep, ApproveWriteStep, DeliverStep;
  }

  /** A request whose sender timed out posts after the row was marked FAILED and then rejected, with
      nobody at work on it any more. */
  lemma {:induction false} TimedOutRequestPostsLate(actions: seq<Action>, r: nat, k: nat, threshold: real)
    requires var s := RunAll(EMPTY, actions, threshold); k < |s.wire| && s.wire[k].r == r && r in s.runs && s.runs[r].Awaiting?
    ensures var s := RunAll(EMPTY, actions, threshold); var id := s.wire[k].id;
      var failed := Step(Step(s, Timeout(r), threshold), WriteFailed(r, Committed), threshold);
      && id < |failed.table| && failed.table[id].status.Failed? && failed.runs[r].Ended?
      && failed.table[id].key in DeliverStep(Step(failed, Reject(id), threshold), k, true).ledger.posted
  {
    ReachableInv(actions, threshold);
    var s := RunAll(EMPTY, actions, threshold);
    hide RunAll;
    var id := s.wire[k].id;
    assert LetterOk(s, s.wire[k]) && RowOk(s.table[id], s.ledger, threshold);
    hide Inv;
    GivenUp(s, r, threshold);
    var failed := Goto(SetStatus(s, id, Failed), r, Ended);
    assert Step(failed, Reject(id), threshold) == SetStatus(failed, id, Rejected) by { hide SetStatus, DeliverStep; }
    hide Step;
  }

  /** A process may stop at any of its awaited calls, and a caller may give up on any answer: that takes
      back nothing it has written or sent. */
  lemma {:induction false} StoppingTakesNothingBack(s: State, r: nat, threshold: real)
    requires r in s.runs
    ensures var s' := Step(s, Crash(r), threshold);
      s'.runs[r] == Ended && s'.table == s.table && s'.ledger == s.ledger && s'.wire == s.wire
    ensures s.runs[r].Awaiting? || s.runs[r].Replied? ==>
      var s' := Step(s, Timeout(r), threshold);
      s'.runs[r] == Failing(s.runs[r].id) && s'.table == s.table && s'.ledger == s.ledger && s'.wire == s.wire
  {
  }

  /** Delivering a request for a key the ledger has posted moves no balance: late answers, retries and
      requests given up on come to one movement. */
  lemma {:induction false} RepostMovesNothing(s: State, k: nat, accepts: bool, threshold: real)
    requires k < |s.wire| && s.wire[k].order.key in s.ledger.posted
    ensures Step(s, Deliver(k, accepts), threshold).ledger == s.ledger
  {
  }

  // ------------------------------------------------------------ the service

  /** How a call to the ledger ends for its caller. `Lost`: the ledger posted, but no answer came back
      in time. `Late`: the timer ran out with the request still on its way. */
  datatype Answer = Accepted | Declined | Lost | Late

  /** How the awaited calls of one `apply` end. */
  datatype Fate = Fate(answer: Answer, applied: Write, audited: bool, failed: Write)

  /** One more action at the end of the history. */
  lemma Took(past: seq<Action>, s: State, s': State, a: Action, threshold: real)
    requires s == RunAll(EMPTY, past, threshold) && s' == Step(s, a, threshold)
    ensures s' == RunAll(EMPTY, past + [a], threshold)
  {
    assert (past + [a])[..|past|] == past;
  }

  /** The last request on its way is delivered. */
  lemma LastDelivered(s: State, id: nat, accepts: bool, threshold: real)
    requires Inv(s, threshold) && s.wire != [] && id < |s.table| && SameOrder(s.table[id], s.wire[|s.wire| - 1].order)
    ensures var s' := Step(s, Deliver(|s.wire| - 1, accepts), threshold);
      && s'.table == s.table && s'.wire == s.wire[..|s.wire| - 1]
      && s'.runs == DeliverStep(s, |s.wire| - 1, accepts).runs
      && (accepts ==> s.table[id].key in s'.ledger.posted) && (!accepts ==> s'.ledger == s.ledger)
      && (s.table[id].key in s.ledger.posted ==> s'.ledger == s.ledger)
  {
    assert RowOk(s.table[id], s.ledger, threshold);
    hide Inv;
  }

  /** The service and the ledger it calls. `past` is every action so far, by these methods and by
      requests that run beside them. */
  class CreditsService {
    const threshold: real
    var table: seq<Adjustment>
    var ledger: Ledger
    ghost var wire: seq<Letter>
    ghost var runs: map<nat, Run>
    ghost var past: seq<Action>

    ghost function Model(): State
      reads this
    {
      State(table, ledger, wire, runs)
    }

    /** The fields are what the history makes of an empty system. */
    ghost predicate Ok()
      reads this
    {
      Model() == RunAll(EMPTY, past, threshold)
    }

    constructor (threshold: real)
      ensures Ok() && past == [] && this.threshold == threshold
    {
      this.threshold := threshold;
      table, ledger, wire, runs, past := [], Ledger(map[], {}, map[]), [], map[], [];
    }

    /** `apply` reads the row it is about to send. */
    method ReadRow(r: nat, id: nat)
      requires Ok() && id < |table| && r in runs && runs[r] == Applying(id)
      modifies this`runs, this`past
      ensures Ok() && past == old(past) + [ApplyRead(r)]
      ensures r in runs && runs[r] == Calling(id, table[id])
    {
      ghost var before := Model();
      runs := runs[r := Calling(id, table[id])];
      hide RunAll;
      Took(past, before, Model(), ApplyRead(r), threshold);
      past := past + [ApplyRead(r)];
    }

    /** The POST leaves. */
    method SendOrder(r: nat, id: nat)
      requires Ok() && id < |table| && r in runs && runs[r] == Calling(id, table[id])
      modifies this`runs, this`wire, this`past
      ensures Ok() && past == old(past) + [Send(r)]
      ensures wire == old(wire) + [Letter(r, id, table[id])] && r in runs && runs[r] == Awaiting(id)
    {
      ghost var before := Model();
      hide RunAll;
      wire := wire + [Letter(r, id, table[id])];
      runs := runs[r := Awaiting(id)];
      Took(past, before, Model(), Send(r), threshold);
      past := past + [Send(r)];
    }

    /** The ledger handles the last request sent: it moves the balance unless it knows the key. */
    method LedgerHandles(r: nat, id: nat, accepts: bool)
      requires Ok() && id < |table| && r in runs && runs[r] == Awaiting(id)
      requires wire != [] && wire[|wire| - 1] == Letter(r, id, table[id])
      modifies this`runs, this`ledger, this`wire, this`past
      ensures Ok() && past == old(past) + [Deliver(|old(wire)| - 1, accepts)]
      ensures wire == old(wire)[..|old(wire)| - 1] && r in runs && runs[r] == Replied(id, accepts)
      ensures accepts ==> table[id].key in ledger.posted
      ensures !accepts || table[id].key in old(ledger).posted ==> ledger == old(ledger)
    {
      ghost var before := Model();
      ghost var a := Deliver(|wire| - 1, accepts);
      ReachableInv(past, threshold);
      assert RowOk(table[id], ledger, threshold);
      LastDelivered(before, id, accepts, threshold);
      hide RunAll, Inv, LedgerPost;
      if accepts { ledger := LedgerPost(ledger, table[id]); }
      wire := wire[..|wire| - 1];
      runs := runs[r := Replied(id, accepts)];
      assert Model() == Step(before, a, threshold);
      hide Step, DeliverStep;
      Took(past, before, Model(), a, threshold);
      past := past + [a];
    }

    /** The answer arrives, or the timer runs out first. */
    method HearBack(r: nat, id: nat, inTime: bool)
      requires Ok() && r in runs && (runs[r] == Awaiting(id) || (runs[r].Replied? && runs[r].id == id)) && (inTime ==> runs[r].Replied?)
      modifies this`runs, this`past
      ensures Ok() && past == old(past) + [if inTime then Receive(r) else Timeout(r)]
      ensures r in runs && runs[r] == if inTime && old(runs)[r].accepted then Answered(id) else Failing(id)
    {
      ghost var before := Model();
      ghost var a := if inTime then Receive(r) else Timeout(r);
      hide RunAll;
      runs := runs[r := if inTime && runs[r].accepted then Answered(id) else Failing(id)];
      Took(past, before, Model(), a, threshold);
      past := past + [a];
    }

    /** `adjustBalance`: however the call ends, the balance moves at most once for the key; a request
        given up on stays on its way. */
    method CallLedger(r: nat, id: nat, answer: Answer)
      requires Ok() && id < |table| && r in runs && runs[r] == Calling(id, table[id])
      modifies this`runs, this`ledger, this`wire, this`past
      ensures Ok() && old(past) <= past
      ensures r in runs && runs[r] == if answer.Accepted? then Answered(id) else Failing(id)
      ensures answer.Accepted? || answer.Lost? ==> table[id].key in ledger.posted
      ensures answer.Declined? || answer.Late? || table[id].key in old(ledger).posted ==> ledger == old(ledger)
      ensures wire == if answer.Late? then old(wire) + [Letter(r, id, table[id])] else old(wire)
    {
      hide RunAll;
      SendOrder(r, id);
      if answer.Late? {
        HearBack(r, id, false);
      } else {
        LedgerHandles(r, id, !answer.Declined?);
        HearBack(r, id, !answer.Lost?);
        assert wire == old(wire);
      }
    }

    /** The row update to APPLIED after the ledger answered. */
    method MarkApplied(r: nat, id: nat, write: Write)
      requires Ok() && id < |table| && r in runs && runs[r] == Answered(id)
      modifies this`runs, this`table, this`past
      ensures Ok() && past == old(past) + [WriteApplied(r, write)]
      ensures r in runs && runs[r] == if write.Committed? then Auditing(id) else Failing(id)
      ensures table == if write.Refused? then old(table) else old(table)[id := old(table)[id].(status := Applied)]
    {
      ghost var before := Model();
      hide RunAll;
      if !write.Refused? { table := table[id := table[id].(status := Applied)]; }
      runs := runs[r := if write.Committed? then Auditing(id) else Failing(id)];
      Took(past, before, Model(), WriteApplied(r, write), threshold);
      past := past + [WriteApplied(r, write)];
    }

    /** The audit entry of an applied adjustment, still inside the `try`. */
    method RecordApplied(r: nat, id: nat, ok: bool)
      requires Ok() && r in runs && runs[r] == Auditing(id)
      modifies this`runs, this`past
      ensures Ok() && past == old(past) + [Audit(r, ok)]
      ensures r in runs && runs[r] == if ok then Ended else Failing(id)
    {
      ghost var before := Model();
      hide RunAll;
      runs := runs[r := if ok then Ended else Failing(id)];
      Took(past, before, Model(), Audit(r, ok), threshold);
      past := past + [Audit(r, ok)];
    }

    /** The `catch`: the row keeps a durable record of the failed attempt. */
    method MarkFailed(r: nat, id: nat, write: Write)
      requires Ok() && id < |table| && r in runs && runs[r] == Failing(id)
      modifies this`runs, this`table, this`past
      ensures Ok() && past == old(past) + [WriteFailed(r, write)]
      ensures table == if write.Refused? then old(table) else old(table)[id := old(table)[id].(status := Failed)]
    {
      ghost var before := Model();
      hide RunAll;
      if !write.Refused? { table := table[id := table[id].(status := Failed)]; }
      runs := runs[r := Ended];
      Took(past, before, Model(), WriteFailed(r, write), threshold);
      past := past + [WriteFailed(r, write)];
    }

    /** `apply`: it succeeds only when every awaited call does, and then the money moved and the row
        says so; whatever fails inside the `try` marks the row FAILED, even after the money moved. */
    method Apply(r: nat, id: nat, fate: Fate) returns (applied: bool)
      requires Ok() && id < |table| && r in runs && runs[r] == Applying(id)
      modifies this
      ensures Ok() && old(past) <= past
      ensures |table| == |old(table)| && table == old(table)[id := old(table)[id].(status := table[id].status)]
      ensures applied == (fate.answer.Accepted? && fate.applied.Committed? && fate.audited)
      ensures applied ==> table[id].status.Applied?
      ensures !applied && !fate.failed.Refused? ==> table[id].status.Failed?
      ensures fate.answer.Accepted? || fate.answer.Lost? ==> table[id].key in ledger.posted
      ensures fate.answer.Declined? || fate.answer.Late? || old(table)[id].key in old(ledger).posted ==> ledger == old(ledger)
    {
      hide RunAll;
      ReadRow(r, id);
      CallLedger(r, id, fate.answer);
      if fate.answer.Accepted? {
        MarkApplied(r, id, fate.applied);
        if fate.applied.Committed? {
          RecordApplied(r, id, fate.audited);
          if fate.audited { return true; }
        }
      }
      MarkFailed(r, id, fate.failed);
      applied := false;
    }

    /** `request`, up to its own `apply`: a small amount is approved by its requester at once. */
    method Request(r: nat, actor: string, account: string, direction: Direction, amount: Option<real>, key: string, write: Write)
      requires Ok() && r !in runs && Fresh(table, key)
      modifies this
      ensures Ok() && past == old(past) + [Action.Request(r, actor, account, direction, amount, key, write)]
      ensures ledger == old(ledger) && wire == old(wire)
      ensures amount.None? || amount.value <= 0.0 || account !in ledger.balances || write.Refused? ==>
        table == old(table) && runs == old(runs)[r := Ended]
      ensures !(amount.None? || amount.value <= 0.0 || account !in ledger.balances || write.Refused?) ==>
        && |table| == |old(table)| + 1 && table[..|old(table)|] == old(table)
        && var x := table[|old(table)|];
        && x.account == account && x.direction == direction && x.amount == amount.value && x.key == key && x.requestedBy == actor
        && (if amount.value > threshold then x.status.PendingApproval? && x.approvedBy == None else x.status.Approved? && x.approvedBy == Some(actor))
        && runs == old(runs)[r := if amount.value > threshold || write.AckLost? then Ended else Applying(|old(table)|)]
    {
      ghost var before := Model();
      ghost var a := Action.Request(r, actor, account, direction, amount, key, write);
      hide RunAll;
      runs := runs[r := Ended];
      if amount.Some? && amount.value > 0.0 && account in ledger.balances && !write.Refused? {
        if amount.value > threshold {
          table := table + [Adjustment(account, direction, amount.value, key, PendingApproval, actor, None)];
        } else {
          table := table + [Adjustment(account, direction, amount.value, key, Status.Approved, actor, Some(actor))];
          if !write.AckLost? { runs := runs[r := Applying(|table| - 1)]; }
        }
      }
      Took(past, before, Model(), a, threshold);
      past := past + [a];
    }

    /** The checks of `approve`. */
    method BeginApprove(r: nat, actor: string, id: nat) returns (ok: bool)
      requires Ok() && r !in runs
      modifies this`runs, this`past
      ensures Ok() && past == old(past) + [ApproveRead(r, actor, id)]
      ensures ok == (id < |table| && table[id].status.PendingApproval? && table[id].requestedBy != actor)
      ensures r in runs && runs[r] == if ok then Approving(id, actor) else Ended
    {
      ghost var before := Model();
      hide RunAll;
      ok := id < |table| && table[id].status == PendingApproval && table[id].requestedBy != actor;
      runs := runs[r := if ok then Approving(id, actor) else Ended];
      Took(past, before, Model(), ApproveRead(r, actor, id), threshold);
      past := past + [ApproveRead(r, actor, id)];
    }

    /** The write of `approve`, which does not check again. */
    method MarkApproved(r: nat, id: nat, actor: string, write: Write)
      requires Ok() && id < |table| && r in runs && runs[r] == Approving(id, actor)
      modifies this`runs, this`table, this`past
      ensures Ok() && past == old(past) + [ApproveWrite(r, write)]
      ensures table == if write.Refused? then old(table)
        else old(table)[id := old(table)[id].(status := Status.Approved, approvedBy := Some(actor))]
      ensures r in runs && runs[r] == if write.Committed? then Applying(id) else Ended
    {
      ghost var before := Model();
      hide RunAll;
      if !write.Refused? { table := table[id := table[id].(status := Status.Approved, approvedBy := Some(actor))]; }
      runs := runs[r := if write.Committed? then Applying(id) else Ended];
      Took(past, before, Model(), ApproveWrite(r, write), threshold);
      past := past + [ApproveWrite(r, write)];
    }

    /** `approve`: a second person, a pending row, then `apply`. */
    method Approve(r: nat, actor: string, id: nat, write: Write, fate: Fate) returns (applied: bool)
      requires Ok() && r !in runs
      modifies this
      ensures Ok() && old(past) <= past
      ensures applied ==> id < |table| && table[id].status.Applied? && table[id].key in ledger.posted
      ensures applied ==> table[id].approvedBy == Some(actor) && table[id].requestedBy != actor
    {
      hide RunAll;
      var ok := BeginApprove(r, actor, id);
      if !ok { return false; }
      MarkApproved(r, id, actor, write);
      if !write.Committed? { return false; }
      applied := Apply(r, id, fate);
    }

    /** `retry`: only a FAILED row, against the same key. */
    method Retry(r: nat, id: nat, fate: Fate) returns (applied: bool)
      requires Ok() && r !in runs
      modifies this
      ensures Ok() && old(past) <= past
      ensures applied ==> id < |old(table)| && old(table)[id].status.Failed? && old(table)[id].key in ledger.posted
      ensures applied && old(table)[id].key in old(ledger).posted ==> ledger == old(ledger)
    {
      ghost var before := Model();
      var failed := id < |table| && table[id].status == Failed;
      runs := runs[r := if failed then Applying(id) else Ended];
      hide RunAll;
      Took(past, before, Model(), RetryRead(r, id), threshold);
      past := past + [RetryRead(r, id)];
      if !failed { return false; }
      applied := Apply(r, id, fate);
    }

    /** `reject` writes without looking. */
    method Reject(id: nat)
      requires Ok() && id < |table|
      modifies this`table, this`past
      ensures Ok() && past == old(past) + [Action.Reject(id)]
      ensures table == old(table)[id := old(table)[id].(status := Rejected)]
    {
      ghost var before := Model();
      hide RunAll;
      table := table[id := table[id].(status := Rejected)];
      Took(past, before, Model(), Action.Reject(id), threshold);
      past := past + [Action.Reject(id)];
    }
  }
}
