/** Which days the nightly finalisation still owes, which days of history a first start loads, and the
    watermark that a finished day leaves behind. Days are Lagos day numbers, instants UTC milliseconds. */
module CatchUp {
  import opened Prelude
  import opened LagosTime

  const MAX_CATCH_UP_DAYS := 14
  const MAX_HISTORY_DAYS := 120
  const RECENT_DAYS_LEFT_ALONE := 3

  /** The days still owed: from the watermark, or the last two without one, at most a fortnight back. */
  function Owed(processedTo: Option<int>, now: int): seq<int> {
    var yesterday := DayOf(now) - 1;
    var first := if processedTo.Some? then DayOf(processedTo.value) else yesterday - 1;
    Days(Max(first, yesterday - (MAX_CATCH_UP_DAYS - 1)), yesterday)
  }

  /** The days of history to load. */
  function History(firstActivity: Option<int>, now: int): seq<int> {
    if firstActivity.None? then []
    else Days(Max(DayOf(firstActivity.value), DayOf(now) - MAX_HISTORY_DAYS), DayOf(now) - RECENT_DAYS_LEFT_ALONE)
  }

  method MissingFinaliseDays(processedTo: Option<int>, now: int) returns (days: seq<int>)
    ensures days == Owed(processedTo, now)
    ensures |days| <= MAX_CATCH_UP_DAYS && DayOf(now) !in days
  {
    var today := DayOf(now);
    var yesterday := today - 1;
    var earliest := yesterday - (MAX_CATCH_UP_DAYS - 1);
    var cursor := if processedTo.Some? then DayOf(processedTo.value) else yesterday - 1;
    if cursor < earliest { cursor := earliest; }
    ghost var first := cursor;
    days := [];
    while cursor <= yesterday
      invariant days == Days(first, cursor - 1)
      invariant cursor == first || cursor <= yesterday + 1
      decreases yesterday - cursor
    {
      days := days + [cursor];
      cursor := cursor + 1;
    }
  }

  method HistoryDays(firstActivity: Option<int>, now: int) returns (days: seq<int>)
    ensures days == History(firstActivity, now)
    ensures |days| <= MAX_HISTORY_DAYS - RECENT_DAYS_LEFT_ALONE + 1
  {
    if firstActivity.None? { return []; }
    var today := DayOf(now);
    var last := today - RECENT_DAYS_LEFT_ALONE;
    var earliest := today - MAX_HISTORY_DAYS;
    var cursor := DayOf(firstActivity.value);
    if cursor < earliest { cursor := earliest; }
    ghost var first := cursor;
    days := [];
    while cursor <= last
      invariant days == Days(first, cursor - 1)
      invariant cursor == first || cursor <= last + 1
      decreases last - cursor
    {
      days := days + [cursor];
      cursor := cursor + 1;
    }
  }

  lemma InDays(first: int, last: int, d: int)
    ensures d in Days(first, last) <==> first <= d <= last
  {
    if first <= d <= last { assert Days(first, last)[d - first] == d; }
  }

  /** Two adjacent ranges are one. */
  lemma DaysJoin(first: int, middle: int, last: int)
    requires first <= middle + 1 && middle <= last
    ensures Days(first, middle) + Days(middle + 1, last) == Days(first, last)
  {
  }

  // ------------------------------------------------------------ the watermark

  /** A finalise job of the queue. */
  datatype Job = Job(day: int, historical: bool)

  /** The start of the day after the finished one; old days leave it alone. */
  function Finished(watermark: Option<int>, job: Job): Option<int> {
    if job.historical then watermark else Some(DayStart(job.day + 1))
  }

  function AllFinished(watermark: Option<int>, jobs: seq<Job>): Option<int>
    decreases |jobs|
  {
    if jobs == [] then watermark else Finished(AllFinished(watermark, jobs[..|jobs| - 1]), jobs[|jobs| - 1])
  }

  /** The nightly days among the jobs, in the order they finished. */
  function Nightly(jobs: seq<Job>): seq<int>
    decreases |jobs|
  {
    if jobs == [] then []
    else Nightly(jobs[..|jobs| - 1]) + (if jobs[|jobs| - 1].historical then [] else [jobs[|jobs| - 1].day])
  }

  /** The stored watermark, with the jobs that have finished since the start. */
  class RollupsProcessor {
    var watermark: Option<int>
    ghost var start: Option<int>
    ghost var done: seq<Job>

    ghost predicate Consistent()
      reads this
    {
      watermark == AllFinished(start, done)
    }

    constructor ()
      ensures Consistent() && watermark == None && done == []
    {
      watermark, start, done := None, None, [];
    }

    /** The end of the finalise branch: at whatever time it is asked for, an owed day and those before
        it are owed no more and the later ones still are, while a day of history changes nothing. */
    method MarkFinalised(job: Job)
      requires Consistent()
      modifies this
      ensures Consistent() && start == old(start) && done == old(done) + [job]
      ensures job.historical ==> forall now :: Owed(watermark, now) == Owed(old(watermark), now)
      ensures !job.historical ==>
        forall now, k: nat :: k < |Owed(old(watermark), now)| && job.day == Owed(old(watermark), now)[k] ==>
          Owed(watermark, now) == Owed(old(watermark), now)[k + 1..]
    {
      if !job.historical {
        forall now, k: nat | k < |Owed(watermark, now)| && job.day == Owed(watermark, now)[k]
          ensures Owed(Some(DayStart(job.day + 1)), now) == Owed(watermark, now)[k + 1..]
        {
          OwedFrom(watermark, now, k);
        }
        watermark := Some(DayStart(job.day + 1));
      }
      done := done + [job];
      assert done[..|done| - 1] == old(done);
    }

    /** What the runs promise holds of the stored watermark. */
    lemma {:induction false} StoredRestIsOwed(now: int)
      requires Consistent() && forall d :: d in Nightly(done) ==> d in Owed(start, now)
      ensures ExactlyTheRest(Nightly(done), start, watermark, now) <==> IsFront(Nightly(done), Owed(start, now))
    {
      RestIsOwedExactlyWhen(start, now, done);
    }
  }

  /** Owed from the day after an owed one. */
  lemma OwedFrom(watermark: Option<int>, now: int, k: nat)
    requires k < |Owed(watermark, now)|
    ensures Owed(Some(DayStart(Owed(watermark, now)[k] + 1)), now) == Owed(watermark, now)[k + 1..]
  {
    var d := Owed(watermark, now)[k];
    BoundsAreTheDay(d + 1, DayStart(d + 1));
    assert DayOf(DayStart(d + 1)) == d + 1;
  }

  /** The watermark depends on the last nightly day alone. */
  lemma {:induction false} LastNightlyDecides(watermark: Option<int>, jobs: seq<Job>)
    ensures var done := Nightly(jobs);
      AllFinished(watermark, jobs) == if done == [] then watermark else Some(DayStart(done[|done| - 1] + 1))
    decreases |jobs|
  {
    if jobs != [] { LastNightlyDecides(watermark, jobs[..|jobs| - 1]); }
  }

  /** When the last nightly day to finish is an owed one, exactly the days after it are still owed. */
  lemma {:induction false} OwedAfter(watermark: Option<int>, now: int, jobs: seq<Job>, k: nat)
    requires k < |Owed(watermark, now)| && Nightly(jobs) != [] && Nightly(jobs)[|Nightly(jobs)| - 1] == Owed(watermark, now)[k]
    ensures Owed(AllFinished(watermark, jobs), now) == Owed(watermark, now)[k + 1..]
  {
    LastNightlyDecides(watermark, jobs);
    OwedFrom(watermark, now, k);
  }

  /** Finishing the first owed days in order leaves exactly the rest owed, whatever days of history
      finish in between. */
  lemma {:induction false} InOrderLeavesTheRest(watermark: Option<int>, now: int, jobs: seq<Job>)
    requires Nightly(jobs) <= Owed(watermark, now)
    ensures Owed(AllFinished(watermark, jobs), now) == Owed(watermark, now)[|Nightly(jobs)|..]
  {
    LastNightlyDecides(watermark, jobs);
    if Nightly(jobs) != [] { OwedAfter(watermark, now, jobs, |Nightly(jobs)| - 1); }
  }

  /** Out of order, the days before the last one to finish are owed no more, finished or not. */
  lemma {:induction false} OutOfOrderForgets(watermark: Option<int>, now: int, k: nat, j: nat)
    requires j < k < |Owed(watermark, now)|
    ensures Owed(watermark, now)[j] !in Owed(AllFinished(watermark, [Job(Owed(watermark, now)[k], false)]), now)
  {
    var job := Job(Owed(watermark, now)[k], false);
    assert [job][..0] == [] && Nightly([job][..0]) == [];
    assert Nightly([job]) == [Owed(watermark, now)[k]];
    OwedAfter(watermark, now, [job], k);
  }

  /** What is owed after the jobs are the owed days that none of them finished. */
  ghost predicate ExactlyTheRest(done: seq<int>, before: Option<int>, after: Option<int>, now: int) {
    forall d :: d in Owed(after, now) <==> d in Owed(before, now) && d !in done
  }

  /** The finished days are the first owed ones, and the latest of them finished last. */
  ghost predicate IsFront(done: seq<int>, owed: seq<int>) {
    done == [] || exists n :: 1 <= n <= |owed| && (forall d :: d in done <==> d in owed[..n]) && done[|done| - 1] == owed[n - 1]
  }

  lemma OwedAscends(watermark: Option<int>, now: int, i: nat, j: nat)
    requires i < |Owed(watermark, now)| && j < |Owed(watermark, now)|
    ensures Owed(watermark, now)[i] < Owed(watermark, now)[j] <==> i < j
  {
  }

  /** In any order of finishing, the unfinished owed days are exactly what stays owed if and only if the
      finished ones are a front of the owed days whose last day finished last. */
  lemma {:induction false} RestIsOwedExactlyWhen(watermark: Option<int>, now: int, jobs: seq<Job>)
    requires forall d :: d in Nightly(jobs) ==> d in Owed(watermark, now)
    ensures ExactlyTheRest(Nightly(jobs), watermark, AllFinished(watermark, jobs), now)
      <==> IsFront(Nightly(jobs), Owed(watermark, now))
  {
    var done, owed := Nightly(jobs), Owed(watermark, now);
    LastNightlyDecides(watermark, jobs);
    if done != [] {
      assert done[|done| - 1] in done;
      var k: nat :| k < |owed| && owed[k] == done[|done| - 1];
      OwedAfter(watermark, now, jobs, k);
      forall i: nat, j: nat | i < |owed| && j < |owed| ensures owed[i] < owed[j] <==> i < j { OwedAscends(watermark, now, i, j); }
      hide *;
      RestAfter(done, owed, k);
    }
  }

  lemma RestAfter(done: seq<int>, owed: seq<int>, k: nat)
    requires k < |owed| && done != [] && done[|done| - 1] == owed[k] && forall d :: d in done ==> d in owed
    requires forall i: nat, j: nat :: i < |owed| && j < |owed| ==> (owed[i] < owed[j] <==> i < j)
    ensures (forall d :: d in owed[k + 1..] <==> d in owed && d !in done) <==> IsFront(done, owed)
  {
    assert owed == owed[..k + 1] + owed[k + 1..];
    forall i: nat, j: nat | i <= k < j < |owed| ensures owed[i] != owed[j] {}
    if forall d :: d in owed[k + 1..] <==> d in owed && d !in done {
      assert forall d :: d in done <==> d in owed[..k + 1];
    }
    if IsFront(done, owed) {
      var n :| 1 <= n <= |owed| && (forall d :: d in done <==> d in owed[..n]) && done[|done| - 1] == owed[n - 1];
      assert n - 1 == k;
    }
  }

  /** A day is owed exactly when it is before today, not before the watermark and within a fortnight:
      never today, never more than 14, and a gap older than that is lost. */
  lemma {:induction false} OwedExactly(watermark: Option<int>, now: int, d: int)
    ensures d in Owed(watermark, now) <==>
      DayOf(now) - MAX_CATCH_UP_DAYS <= d < DayOf(now)
      && d >= (if watermark.Some? then DayOf(watermark.value) else DayOf(now) - 2)
    ensures |Owed(watermark, now)| <= MAX_CATCH_UP_DAYS
  {
    var yesterday := DayOf(now) - 1;
    var first := if watermark.Some? then DayOf(watermark.value) else yesterday - 1;
    InDays(Max(first, yesterday - (MAX_CATCH_UP_DAYS - 1)), yesterday, d);
  }

  // ------------------------------------------------------------ a first start

  /** On a first start the history and the owed days never overlap, and together they hold every day
      since the first activity, 120 days back at most, up to yesterday. */
  lemma {:induction false} FirstStartCovers(firstActivity: int, now: int, d: int)
    ensures d in History(Some(firstActivity), now) ==> d !in Owed(None, now)
    ensures Max(DayOf(firstActivity), DayOf(now) - MAX_HISTORY_DAYS) <= d < DayOf(now) ==>
      d in History(Some(firstActivity), now) || d in Owed(None, now)
  {
    OwedExactly(None, now, d);
    InDays(Max(DayOf(firstActivity), DayOf(now) - MAX_HISTORY_DAYS), DayOf(now) - RECENT_DAYS_LEFT_ALONE, d);
  }

  /** They are exactly those days, in order, when the first activity is at least two days old; a
      younger product also finalises days from before it existed. */
  lemma {:induction false} FirstStartIsExact(firstActivity: int, now: int)
    ensures History(Some(firstActivity), now) + Owed(None, now)
      == Days(Max(DayOf(firstActivity), DayOf(now) - MAX_HISTORY_DAYS), DayOf(now) - 1)
      <==> DayOf(firstActivity) <= DayOf(now) - 2
  {
    var today := DayOf(now);
    var first := Max(DayOf(firstActivity), today - MAX_HISTORY_DAYS);
    assert Owed(None, now) == Days(today - 2, today - 1);
    if first <= today - 2 { DaysJoin(first, today - 3, today - 1); }
    else { assert |Days(first, today - 1)| <= 1; }
  }
}
