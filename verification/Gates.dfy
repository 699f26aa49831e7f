/**
 * The two time gates of the main loop: a report every ten seconds or so, and the
 * once-a-second work of the core and the sensors. Each is a static variable compared with the
 * seconds counted so far.
 */
module Gates {

  /** `timestamp` after the loop has seen these second counts. */
  function ReportStamp(secs: seq<int>): int {
    if secs == [] then 0
    else
      var last, sec := ReportStamp(secs[..|secs| - 1]), secs[|secs| - 1];
      if sec > last + 10 then sec else last
  }

  /** Whether the report is made in round k. */
  predicate Reports(secs: seq<int>, k: nat)
    requires k < |secs|
  {
    secs[k] > ReportStamp(secs[..k]) + 10
  }

  /** `periodic_timestamp` after the loop has seen these second counts. */
  function PeriodicStamp(secs: seq<int>): int {
    if secs == [] then 0
    else
      var last, sec := PeriodicStamp(secs[..|secs| - 1]), secs[|secs| - 1];
      if sec > last then sec else last
  }

  /** Whether the once-a-second work is done in round k. */
  predicate Fires(secs: seq<int>, k: nat)
    requires k < |secs|
  {
    secs[k] > PeriodicStamp(secs[..k])
  }

  function Firings(secs: seq<int>): nat {
    if secs == [] then 0
    else Firings(secs[..|secs| - 1]) + (if Fires(secs, |secs| - 1) then 1 else 0)
  }

  /** The periodic stamp is the largest count seen, and never below zero. */
  lemma {:induction false} PeriodicStampIsMaximum(secs: seq<int>)
    ensures PeriodicStamp(secs) >= 0
    ensures forall j | 0 <= j < |secs| :: secs[j] <= PeriodicStamp(secs)
    ensures PeriodicStamp(secs) == 0 || PeriodicStamp(secs) in secs
  {
    if secs != [] {
      var front := secs[..|secs| - 1];
      PeriodicStampIsMaximum(front);
      assert forall j | 0 <= j < |front| :: secs[j] == front[j];
      assert PeriodicStamp(secs) == secs[|secs| - 1] || PeriodicStamp(secs) == PeriodicStamp(front);
    }
  }

  /** The work is done in exactly those rounds that see a larger count than all rounds before. */
  lemma {:induction false} FiresOnNewMaximum(secs: seq<int>, k: nat)
    requires k < |secs|
    ensures Fires(secs, k) <==> secs[k] > 0 && forall j | 0 <= j < k :: secs[j] < secs[k]
  {
    var front := secs[..k];
    PeriodicStampIsMaximum(front);
    assert forall j | 0 <= j < k :: front[j] == secs[j];
    if PeriodicStamp(front) != 0 {
      var j :| 0 <= j < |front| && front[j] == PeriodicStamp(front);
      assert secs[j] == PeriodicStamp(front);
    }
  }

  /** It is done no more often than seconds have passed. */
  lemma {:induction false} FiringsAtMostSeconds(secs: seq<int>)
    ensures Firings(secs) <= PeriodicStamp(secs)
  {
    if secs != [] {
      FiringsAtMostSeconds(secs[..|secs| - 1]);
    }
  }

  /** After any round the last report is less than eleven seconds old. */
  lemma {:induction false} ReportIsRecent(secs: seq<int>)
    requires secs != []
    ensures secs[|secs| - 1] <= ReportStamp(secs) + 10
    ensures ReportStamp(secs[..|secs| - 1]) <= ReportStamp(secs)
  {
  }

  lemma {:induction false} ReportStampGrows(secs: seq<int>, k: nat)
    requires k <= |secs|
    ensures ReportStamp(secs[..k]) <= ReportStamp(secs)
  {
    if k < |secs| {
      var front := secs[..|secs| - 1];
      ReportStampGrows(front, k);
      assert front[..k] == secs[..k];
      ReportIsRecent(secs);
    } else {
      assert secs[..k] == secs;
    }
  }

  /** Any two reports are at least eleven seconds apart, and the first is not made before second eleven. */
  lemma {:induction false} ReportsAreApart(secs: seq<int>, j: nat, k: nat)
    requires j < k < |secs| && Reports(secs, j) && Reports(secs, k)
    ensures secs[j] >= 11 && secs[k] >= secs[j] + 11
  {
    ReportStampGrows(secs[..j], 0);
    var upToJ := secs[..j + 1];
    assert upToJ[..j] == secs[..j];
    assert ReportStamp(upToJ) == secs[j];
    assert secs[..k][..j + 1] == upToJ;
    ReportStampGrows(secs[..k], j + 1);
  }

  /** The stamp is the second of the last report, or zero; earlier reports saw smaller ones. */
  lemma {:induction false} StampOfLastReport(secs: seq<int>)
    ensures ReportStamp(secs) >= 0
    ensures forall j | 0 <= j < |secs| && Reports(secs, j) :: secs[j] <= ReportStamp(secs)
    ensures ReportStamp(secs) == 0 || exists j :: 0 <= j < |secs| && Reports(secs, j) && secs[j] == ReportStamp(secs)
  {
    if secs != [] {
      var front, last := secs[..|secs| - 1], |secs| - 1;
      StampOfLastReport(front);
      assert forall j | 0 <= j < last :: front[..j] == secs[..j];
      assert forall j | 0 <= j < last :: Reports(front, j) <==> Reports(secs, j);
      if !Reports(secs, last) && ReportStamp(front) != 0 {
        var j :| 0 <= j < |front| && Reports(front, j) && front[j] == ReportStamp(front);
        assert Reports(secs, j);
      }
    }
  }

  /** A report is made in exactly those rounds that are eleven seconds past the start and past every earlier report. */
  lemma {:induction false} ReportsWhenDue(secs: seq<int>, k: nat)
    requires k < |secs|
    ensures Reports(secs, k) <==> secs[k] >= 11 && forall j | 0 <= j < k && Reports(secs, j) :: secs[k] >= secs[j] + 11
  {
    var front := secs[..k];
    StampOfLastReport(front);
    assert forall j | 0 <= j < k :: front[..j] == secs[..j];
    assert forall j | 0 <= j < k :: Reports(front, j) <==> Reports(secs, j);
    if ReportStamp(front) != 0 {
      var j :| 0 <= j < |front| && Reports(front, j) && front[j] == ReportStamp(front);
      assert Reports(secs, j) && secs[j] == ReportStamp(front);
    }
  }

  /** The static variables, and the second counts seen since the start. */
  class Clock {
    var timestamp: int
    var periodicTimestamp: int
    ghost var reportRounds: seq<int>
    ghost var periodicRounds: seq<int>

    ghost predicate Valid()
      reads this
    {
      timestamp == ReportStamp(reportRounds) && periodicTimestamp == PeriodicStamp(periodicRounds)
    }

    constructor ()
      ensures Valid() && reportRounds == [] && periodicRounds == []
    {
      timestamp, periodicTimestamp, reportRounds, periodicRounds := 0, 0, [], [];
    }

    method Report(secCnt: int) returns (reported: bool)
      requires Valid()
      modifies this
      ensures Valid() && reportRounds == old(reportRounds) + [secCnt] && periodicRounds == old(periodicRounds)
      ensures reported <==> Reports(reportRounds, |old(reportRounds)|)
    {
      reported := false;
      reportRounds := reportRounds + [secCnt];
      assert reportRounds[..|reportRounds| - 1] == old(reportRounds);
      if secCnt > timestamp + 10 {
        timestamp := secCnt;
        reported := true;
      }
    }

    method Periodic(secCnt: int) returns (fired: bool)
      requires Valid()
      modifies this
      ensures Valid() && periodicRounds == old(periodicRounds) + [secCnt] && reportRounds == old(reportRounds)
      ensures fired <==> Fires(periodicRounds, |old(periodicRounds)|)
    {
      fired := false;
      periodicRounds := periodicRounds + [secCnt];
      assert periodicRounds[..|periodicRounds| - 1] == old(periodicRounds);
      if secCnt > periodicTimestamp {
        periodicTimestamp := secCnt;
        fired := true;
      }
    }
  }
}
