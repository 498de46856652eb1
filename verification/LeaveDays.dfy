/** Leave lengths with half-day ends, and the part of a leave that falls in a payroll period.
    A day d has two half-day slots: its morning 2 * d and its afternoon 2 * d + 1. */
module LeaveDays {

  import opened Calendar

  datatype DaysResult = Days(days: real) | EndBeforeStart | InvalidHalfDay

  datatype LeaveWindow = LeaveWindow(start: Day, end: Day, startHalf: bool, endHalf: bool)

  datatype PayPeriod = PayPeriod(start: Day, end: Day)

  /** Inclusive day count. */
  function CalculateDays(start: Day, end: Day): DaysResult {
    if end < start then EndBeforeStart else Days((end - start) as real + 1.0)
  }

  function CalculateRequestDays(w: LeaveWindow): DaysResult {
    var whole := CalculateDays(w.start, w.end);
    if !whole.Days? then whole
    else if w.start == w.end && w.startHalf && w.endHalf then InvalidHalfDay
    else
      var days := whole.days - (if w.startHalf then 0.5 else 0.0) - (if w.endHalf then 0.5 else 0.0);
      if days <= 0.0 then InvalidHalfDay else Days(days)
  }

  /** The payroll run's share of one leave: the overlap, less the half-day ends that fall inside it. */
  function UnpaidDaysIn(w: LeaveWindow, p: PayPeriod): real {
    var overlapStart := if p.start > w.start then p.start else w.start;
    var overlapEnd := if p.end < w.end then p.end else w.end;
    var whole := CalculateDays(overlapStart, overlapEnd);
    if !whole.Days? then 0.0
    else
      var days := whole.days
                  - (if w.startHalf && overlapStart == w.start then 0.5 else 0.0)
                  - (if w.endHalf && overlapEnd == w.end then 0.5 else 0.0);
      if days > 0.0 then days else 0.0
  }

  function TotalUnpaid(ws: seq<LeaveWindow>, p: PayPeriod): real {
    if ws == [] then 0.0 else TotalUnpaid(ws[..|ws| - 1], p) + UnpaidDaysIn(ws[|ws| - 1], p)
  }

  /** The window loop of the payroll run. */
  method SumUnpaidDays(ws: seq<LeaveWindow>, p: PayPeriod) returns (unpaid: real)
    ensures unpaid == TotalUnpaid(ws, p)
  {
    unpaid := 0.0;
    for i := 0 to |ws|
      invariant unpaid == TotalUnpaid(ws[..i], p)
    {
      assert ws[..i + 1][..i] == ws[..i];
      unpaid := unpaid + UnpaidDaysIn(ws[i], p);
    }
    assert ws[..|ws|] == ws;
  }

  // ---- Reference: half-day slots ---------------------------------------------------------------

  ghost predicate Between(lo: int, x: int, hi: int) {
    lo <= x < hi
  }

  ghost function Range(lo: int, hi: int): set<int> {
    set x | lo <= x < hi && Between(lo, x, hi)
  }

  /** All half days of the window's days, except a morning worked at the start and an afternoon
      worked at the end. */
  ghost predicate Away(w: LeaveWindow, slot: int) {
    && w.start <= slot / 2 <= w.end
    && !(w.startHalf && slot == 2 * w.start)
    && !(w.endHalf && slot == 2 * w.end + 1)
  }

  ghost function LeaveSlots(w: LeaveWindow): set<int> {
    set x | 2 * w.start <= x < 2 * w.end + 2 && Away(w, x)
  }

  ghost function PeriodSlots(p: PayPeriod): set<int> {
    Range(2 * p.start, 2 * p.end + 2)
  }

  lemma {:induction false} RangeSize(lo: int, hi: int)
    ensures |Range(lo, hi)| == if lo <= hi then hi - lo else 0
    decreases hi - lo
  {
    if lo < hi {
      RangeSize(lo, hi - 1);
      assert Range(lo, hi) == Range(lo, hi - 1) + {hi - 1};
    } else {
      assert Range(lo, hi) == {};
    }
  }

  /** Slots of a leave inside a period form one run of slots. */
  lemma SharedSlots(w: LeaveWindow, p: PayPeriod)
    ensures LeaveSlots(w) * PeriodSlots(p) == Range(FirstShared(w, p), LastShared(w, p))
  {
  }

  ghost function FirstShared(w: LeaveWindow, p: PayPeriod): int {
    var first := 2 * w.start + if w.startHalf then 1 else 0;
    if 2 * p.start > first then 2 * p.start else first
  }

  ghost function LastShared(w: LeaveWindow, p: PayPeriod): int {
    var last := 2 * w.end + 2 - if w.endHalf then 1 else 0;
    if 2 * p.end + 2 < last then 2 * p.end + 2 else last
  }

  lemma SharedCount(w: LeaveWindow, p: PayPeriod)
    ensures |LeaveSlots(w) * PeriodSlots(p)|
      == if FirstShared(w, p) <= LastShared(w, p) then LastShared(w, p) - FirstShared(w, p) else 0
  {
    SharedSlots(w, p);
    RangeSize(FirstShared(w, p), LastShared(w, p));
  }

  lemma UnpaidDaysByBounds(w: LeaveWindow, p: PayPeriod)
    ensures 2.0 * UnpaidDaysIn(w, p)
      == if FirstShared(w, p) <= LastShared(w, p) then (LastShared(w, p) - FirstShared(w, p)) as real else 0.0
  {
  }

  /** The clipped interval arithmetic is half the number of slots the leave and the period share. */
  lemma UnpaidDaysCountSlots(w: LeaveWindow, p: PayPeriod)
    ensures 2.0 * UnpaidDaysIn(w, p) == |LeaveSlots(w) * PeriodSlots(p)| as real
  {
    SharedCount(w, p);
    UnpaidDaysByBounds(w, p);
  }

  /** A request is accepted exactly when it covers a slot, and its length is half its slots. */
  lemma RequestDaysCountSlots(w: LeaveWindow)
    ensures CalculateRequestDays(w) ==
      if w.end < w.start then EndBeforeStart
      else if LeaveSlots(w) == {} then InvalidHalfDay
      else Days(|LeaveSlots(w)| as real / 2.0)
  {
    var lo := 2 * w.start + if w.startHalf then 1 else 0;
    var hi := 2 * w.end + 2 - if w.endHalf then 1 else 0;
    assert LeaveSlots(w) == Range(lo, hi);
    RangeSize(lo, hi);
    if lo < hi {
      assert lo in LeaveSlots(w);
    }
  }

  // ---- The overlap filter of the leave query ---------------------------------------------------

  predicate Overlaps(w: LeaveWindow, p: PayPeriod) {
    w.start <= p.end && w.end >= p.start
  }

  function Overlapping(ws: seq<LeaveWindow>, p: PayPeriod): seq<LeaveWindow> {
    if ws == [] then []
    else
      var rest := Overlapping(ws[..|ws| - 1], p);
      if Overlaps(ws[|ws| - 1], p) then rest + [ws[|ws| - 1]] else rest
  }

  /** The query's date filter only saves work: windows outside the period count for nothing. */
  lemma {:induction false} FilterChangesNothing(ws: seq<LeaveWindow>, p: PayPeriod)
    ensures TotalUnpaid(Overlapping(ws, p), p) == TotalUnpaid(ws, p)
  {
    if ws != [] {
      var n := |ws| - 1;
      FilterChangesNothing(ws[..n], p);
      if Overlaps(ws[n], p) {
        var rest := Overlapping(ws[..n], p);
        assert (rest + [ws[n]])[..|rest|] == rest;
      } else {
        assert UnpaidDaysIn(ws[n], p) == 0.0;
      }
    }
  }

  // ---- Consecutive periods tile a leave --------------------------------------------------------

  ghost predicate Consecutive(periods: seq<PayPeriod>) {
    && (forall i :: 0 <= i < |periods| ==> periods[i].start <= periods[i].end)
    && (forall i :: 0 < i < |periods| ==> periods[i].start == periods[i - 1].end + 1)
  }

  function AcrossPeriods(w: LeaveWindow, periods: seq<PayPeriod>): real {
    if periods == [] then 0.0
    else AcrossPeriods(w, periods[..|periods| - 1]) + UnpaidDaysIn(w, periods[|periods| - 1])
  }

  lemma SplitPeriod(w: LeaveWindow, p: PayPeriod, q: PayPeriod)
    requires p.start <= p.end && q.start == p.end + 1 && q.start <= q.end
    ensures UnpaidDaysIn(w, p) + UnpaidDaysIn(w, q) == UnpaidDaysIn(w, PayPeriod(p.start, q.end))
  {
  }

  lemma {:induction false} PeriodsMerge(w: LeaveWindow, periods: seq<PayPeriod>)
    requires periods != [] && Consecutive(periods)
    ensures periods[0].start <= periods[|periods| - 1].end
    ensures AcrossPeriods(w, periods) == UnpaidDaysIn(w, PayPeriod(periods[0].start, periods[|periods| - 1].end))
  {
    var n := |periods| - 1;
    if n == 0 {
      assert periods[..0] == [];
    } else {
      PeriodsMerge(w, periods[..n]);
      SplitPeriod(w, PayPeriod(periods[0].start, periods[n - 1].end), periods[n]);
    }
  }

  /** When consecutive periods cover an accepted leave, the unpaid days of the single periods add up
      to the length of the request: nothing is lost or counted twice, half-day ends included. */
  lemma PeriodsTileLeave(w: LeaveWindow, periods: seq<PayPeriod>)
    requires CalculateRequestDays(w).Days?
    requires periods != [] && Consecutive(periods)
    requires periods[0].start <= w.start && w.end <= periods[|periods| - 1].end
    ensures CalculateRequestDays(w) == Days(AcrossPeriods(w, periods))
  {
    var whole := PayPeriod(periods[0].start, periods[|periods| - 1].end);
    PeriodsMerge(w, periods);
    UnpaidDaysCountSlots(w, whole);
    RequestDaysCountSlots(w);
    assert LeaveSlots(w) * PeriodSlots(whole) == LeaveSlots(w);
  }

  /** Every slot of the covered stretch lies in exactly one of the periods. */
  lemma {:induction false} SlotInOnePeriod(periods: seq<PayPeriod>, slot: int) returns (k: nat)
    requires periods != [] && Consecutive(periods)
    requires 2 * periods[0].start <= slot < 2 * periods[|periods| - 1].end + 2
    ensures k < |periods|
    ensures forall i :: 0 <= i < |periods| ==> (slot in PeriodSlots(periods[i]) <==> i == k)
  {
    var n := |periods| - 1;
    if n > 0 && slot < 2 * periods[n].start {
      k := SlotInOnePeriod(periods[..n], slot);
      forall i | 0 <= i < |periods|
        ensures slot in PeriodSlots(periods[i]) <==> i == k
      {
        assert i < n ==> periods[..n][i] == periods[i];
      }
    } else {
      k := n;
      EarlierPeriodsEndBefore(periods, n);
      assert slot in PeriodSlots(periods[n]);
    }
  }

  lemma {:induction false} EarlierPeriodsEndBefore(periods: seq<PayPeriod>, n: nat)
    requires Consecutive(periods) && n < |periods|
    ensures forall i :: 0 <= i < n ==> periods[i].end < periods[n].start
  {
    if n > 0 {
      EarlierPeriodsEndBefore(periods, n - 1);
    }
  }

  // ---- Several leaves in one period ------------------------------------------------------------

  ghost function SlotsAway(ws: seq<LeaveWindow>, p: PayPeriod): set<int> {
    if ws == [] then {}
    else SlotsAway(ws[..|ws| - 1], p) + LeaveSlots(ws[|ws| - 1]) * PeriodSlots(p)
  }

  ghost predicate DisjointIn(ws: seq<LeaveWindow>, p: PayPeriod) {
    forall i, j :: 0 <= i < j < |ws| ==> LeaveSlots(ws[i]) * LeaveSlots(ws[j]) * PeriodSlots(p) == {}
  }

  lemma {:induction false} AwayInSome(ws: seq<LeaveWindow>, p: PayPeriod, slot: int)
    ensures slot in SlotsAway(ws, p) <==>
      slot in PeriodSlots(p) && exists i :: 0 <= i < |ws| && slot in LeaveSlots(ws[i])
  {
    if ws != [] {
      var n := |ws| - 1;
      AwayInSome(ws[..n], p, slot);
      if i :| 0 <= i < |ws| && slot in LeaveSlots(ws[i]) && i < n {
        assert slot in LeaveSlots(ws[..n][i]);
      }
    }
  }

  lemma DisjointOneMore(ws: seq<LeaveWindow>, p: PayPeriod)
    requires ws != []
    ensures var n := |ws| - 1;
      DisjointIn(ws, p) <==>
        DisjointIn(ws[..n], p) && SlotsAway(ws[..n], p) * (LeaveSlots(ws[n]) * PeriodSlots(p)) == {}
  {
    var n := |ws| - 1;
    var last := LeaveSlots(ws[n]) * PeriodSlots(p);
    if slot :| slot in SlotsAway(ws[..n], p) * last {
      AwayInSome(ws[..n], p, slot);
      var i :| 0 <= i < n && slot in LeaveSlots(ws[..n][i]);
      assert slot in LeaveSlots(ws[i]) * LeaveSlots(ws[n]) * PeriodSlots(p);
    }
    if i, j :| 0 <= i < j < |ws| && LeaveSlots(ws[i]) * LeaveSlots(ws[j]) * PeriodSlots(p) != {} {
      var slot :| slot in LeaveSlots(ws[i]) * LeaveSlots(ws[j]) * PeriodSlots(p);
      if j == n {
        assert slot in LeaveSlots(ws[..n][i]);
        AwayInSome(ws[..n], p, slot);
        assert slot in SlotsAway(ws[..n], p) * last;
      } else {
        assert ws[..n][i] == ws[i] && ws[..n][j] == ws[j];
      }
    }
    assert forall i, j :: 0 <= i < j < n ==> ws[..n][i] == ws[i] && ws[..n][j] == ws[j];
  }

  lemma UnionSize(a: set<int>, b: set<int>)
    ensures |a + b| <= |a| + |b| && (|a + b| == |a| + |b| <==> a * b == {})
  {
  }

  /** The unpaid days are at least the time away in the period, and are exactly that time if and only
      if no two of the leaves overlap inside the period; nothing in the code rules overlaps out. */
  lemma {:induction false} UnpaidDaysAreTimeAway(ws: seq<LeaveWindow>, p: PayPeriod)
    ensures 2.0 * TotalUnpaid(ws, p) >= |SlotsAway(ws, p)| as real
    ensures 2.0 * TotalUnpaid(ws, p) == |SlotsAway(ws, p)| as real <==> DisjointIn(ws, p)
  {
    if ws != [] {
      var n := |ws| - 1;
      UnpaidDaysAreTimeAway(ws[..n], p);
      UnpaidDaysCountSlots(ws[n], p);
      DisjointOneMore(ws, p);
      UnionSize(SlotsAway(ws[..n], p), LeaveSlots(ws[n]) * PeriodSlots(p));
    }
  }

  lemma {:induction false} AwayWithinPeriod(ws: seq<LeaveWindow>, p: PayPeriod)
    ensures SlotsAway(ws, p) <= PeriodSlots(p)
  {
    if ws != [] {
      AwayWithinPeriod(ws[..|ws| - 1], p);
    }
  }

  lemma {:induction false} SubsetSize(a: set<int>, b: set<int>)
    requires a <= b
    ensures |a| <= |b|
  {
    assert b == a + (b - a);
  }

  lemma AwaySize(ws: seq<LeaveWindow>, p: PayPeriod)
    requires p.start <= p.end
    ensures |SlotsAway(ws, p)| <= 2 * (p.end - p.start) + 2
  {
    AwayWithinPeriod(ws, p);
    SubsetSize(SlotsAway(ws, p), PeriodSlots(p));
    RangeSize(2 * p.start, 2 * p.end + 2);
  }

  /** Leaves that do not overlap never cost more than the period's days. */
  lemma {:induction false} UnpaidWithinPeriod(ws: seq<LeaveWindow>, p: PayPeriod)
    requires DisjointIn(ws, p) && p.start <= p.end
    ensures TotalUnpaid(ws, p) <= CalculateDays(p.start, p.end).days
  {
    UnpaidDaysAreTimeAway(ws, p);
    AwaySize(ws, p);
  }
}
