/** What holds along whole payroll histories: one finalize per idempotency key, and balanced journals. */
module PayrollHistories {
  import opened Options
  import opened Sums
  import opened Payroll
  import opened PayrollPeriods

  // ---- Idempotency keys ------------------------------------------------------------------------

  /** The hash stored for a key never changes, whatever fails. */
  lemma StoredHashIsFixed(l: Ledger, ev: Event, k: KeyId)
    requires k in l.keys
    ensures k in Step(l, ev).0.keys && Step(l, ev).0.keys[k].hash == l.keys[k].hash
  {
  }

  lemma {:induction false} StoredHashStaysFixed(l: Ledger, events: seq<Event>, i: nat, j: nat, k: KeyId)
    requires i <= j <= |events| && k in After(l, events[..i]).keys
    ensures k in After(l, events[..j]).keys
    ensures After(l, events[..j]).keys[k].hash == After(l, events[..i]).keys[k].hash
    decreases j
  {
    if i < j {
      StoredHashStaysFixed(l, events, i, j - 1, k);
      AfterOneMore(l, events, j - 1);
      StoredHashIsFixed(After(l, events[..j - 1]), events[j - 1], k);
    }
  }

  lemma AfterOneMore(l: Ledger, events: seq<Event>, i: nat)
    requires i < |events|
    ensures After(l, events[..i + 1]) == Step(After(l, events[..i]), events[i]).0
  {
    assert events[..i + 1][..i] == events[..i];
  }

  /** Every stored response is the one a finalize gives. */
  predicate StoresFinalized(l: Ledger) {
    forall k :: k in l.keys ==> l.keys[k].response == FINALIZED_BODY
  }

  lemma StepStoresFinalized(l: Ledger, ev: Event)
    requires StoresFinalized(l)
    ensures StoresFinalized(Step(l, ev).0)
  {
  }

  lemma {:induction false} AlwaysStoresFinalized(l: Ledger, events: seq<Event>)
    requires StoresFinalized(l)
    ensures StoresFinalized(After(l, events))
  {
    if events != [] {
      AlwaysStoresFinalized(l, events[..|events| - 1]);
      StepStoresFinalized(After(l, events[..|events| - 1]), events[|events| - 1]);
    }
  }

  lemma SuccessIsStored(l: Ledger, ev: Event)
    requires ev.FinalizePayroll? && !ev.saveFails && Step(l, ev).1.FinalizeDone?
    ensures Lookup(Step(l, ev).0.keys, KeyId(ev.user, ev.key)) == Some(KeyEntry(ev.id, Step(l, ev).1.body))
  {
  }

  lemma StoredAnswers(l: Ledger, ev: Event)
    requires ev.FinalizePayroll? && !ev.lookupFails && KeyId(ev.user, ev.key) in l.keys && ev.key != ""
    ensures var entry := l.keys[KeyId(ev.user, ev.key)];
      Step(l, ev) == (l, if entry.hash == ev.id then Replayed(entry.response) else KeyConflict)
  {
  }

  /** A key finalizes at most once, across reopens and re-runs, once its first success has been saved:
      whatever else fails, each later call that can look the key up replays the first response for the
      same period, or conflicts for another, and changes nothing. */
  lemma KeyFinalizesOnce(l: Ledger, events: seq<Event>, i: nat, j: nat)
    requires StoresFinalized(l) && i < j < |events|
    requires events[i].FinalizePayroll? && events[j].FinalizePayroll?
    requires events[i].user == events[j].user && events[i].key == events[j].key
    requires ResponseAt(l, events, i).FinalizeDone? && !events[i].saveFails && !events[j].lookupFails
    ensures ResponseAt(l, events, j) ==
      if events[j].id == events[i].id then Replayed(ResponseAt(l, events, i).body) else KeyConflict
    ensures Step(After(l, events[..j]), events[j]).0 == After(l, events[..j])
  {
    var k := KeyId(events[i].user, events[i].key);
    SuccessIsStored(After(l, events[..i]), events[i]);
    AfterOneMore(l, events, i);
    StoredHashStaysFixed(l, events, i + 1, j, k);
    AlwaysStoresFinalized(l, events[..j]);
    StoredAnswers(After(l, events[..j]), events[j]);
  }

  /** Which calls finalize, by what they find: the key is not seen stored, the period can be finalized,
      and saving the key does not run into another period's hash. */
  lemma FinalizesIff(l: Ledger, ev: Event)
    requires ev.FinalizePayroll?
    ensures Step(l, ev).1.FinalizeDone? <==>
      Finalizes(l, ev) && ev.commit == Committed && (ev.saveFails || !KeyOfAnother(l, ev))
    ensures Step(l, ev).0 != l <==> Finalizes(l, ev) && ev.commit != RolledBack
  {
    if Finalizes(l, ev) && ev.commit != RolledBack {
      assert Step(l, ev).0.periods[ev.id].status == Finalized;
    }
  }

  /** After a first success that has been saved, a later call with the key finalizes again if and only if
      its own lookup fails, its period can be finalized again, its commit goes through, and saving either
      fails or is for the same period; and it changes anything only if its lookup fails. */
  lemma KeyFinalizesAgainIff(l: Ledger, events: seq<Event>, i: nat, j: nat)
    requires i < j < |events| && events[i].FinalizePayroll? && events[j].FinalizePayroll?
    requires events[i].user == events[j].user && events[i].key == events[j].key
    requires ResponseAt(l, events, i).FinalizeDone? && !events[i].saveFails
    ensures var here, ev := After(l, events[..j]), events[j];
      ResponseAt(l, events, j).FinalizeDone?
      <==> ev.lookupFails && CanFinalize(here, ev.id) && ev.commit == Committed
           && (ev.saveFails || ev.id == events[i].id)
    ensures var here, ev := After(l, events[..j]), events[j];
      Step(here, ev).0 != here <==> ev.lookupFails && CanFinalize(here, ev.id) && ev.commit != RolledBack
  {
    SuccessIsStored(After(l, events[..i]), events[i]);
    AfterOneMore(l, events, i);
    StoredHashStaysFixed(l, events, i + 1, j, KeyId(events[i].user, events[i].key));
    FinalizesIff(After(l, events[..j]), events[j]);
  }

  // ---- The journal -----------------------------------------------------------------------------

  ghost predicate Balanced(results: map<RowKey, Amounts>) {
    forall k :: k in results ==> results[k].gross == results[k].deductions + results[k].net
  }

  lemma {:induction false} PayAllBalanced(
    results: map<RowKey, Amounts>, id: string, period: Period, employees: seq<EmployeeData>)
    requires Balanced(results)
    ensures Balanced(PayAll(results, id, period, employees))
  {
    if employees != [] {
      PayAllBalanced(results, id, period, employees[..|employees| - 1]);
    }
  }

  lemma {:induction false} AlwaysBalanced(events: seq<Event>)
    ensures Balanced(After(EMPTY_LEDGER, events).results)
  {
    if events != [] {
      var l, ev := After(EMPTY_LEDGER, events[..|events| - 1]), events[|events| - 1];
      AlwaysBalanced(events[..|events| - 1]);
      if ev.RunPayroll? && ev.id in l.periods {
        var through := Through(ev.employees, l.periods[ev.id], ev.limit);
        PayAllBalanced(l.results, ev.id, l.periods[ev.id], ev.employees[..through]);
      }
    }
  }

  ghost function Rows(results: map<RowKey, Amounts>, id: string): map<RowKey, Amounts> {
    map k | k in results && k.period == id :: results[k]
  }

  ghost function GrossColumn(rows: map<RowKey, Amounts>): map<RowKey, real> {
    map k | k in rows :: rows[k].gross
  }

  ghost function DeductionColumn(rows: map<RowKey, Amounts>): map<RowKey, real> {
    map k | k in rows :: rows[k].deductions
  }

  ghost function NetColumn(rows: map<RowKey, Amounts>): map<RowKey, real> {
    map k | k in rows :: rows[k].net
  }

  /** PeriodTotals: the sums of gross, deductions and net over a period's results. */
  ghost function PeriodTotals(results: map<RowKey, Amounts>, id: string): Amounts {
    var rows := Rows(results, id);
    Amounts(MapSum(GrossColumn(rows)), MapSum(DeductionColumn(rows)), MapSum(NetColumn(rows)))
  }

  /** After any history, the expense a period's journal debits equals the deductions and cash it credits. */
  lemma JournalBalances(events: seq<Event>, id: string)
    ensures var totals := PeriodTotals(After(EMPTY_LEDGER, events).results, id);
      totals.gross == totals.deductions + totals.net
  {
    var results := After(EMPTY_LEDGER, events).results;
    AlwaysBalanced(events);
    var rows := Rows(results, id);
    MapSumAdds(GrossColumn(rows), DeductionColumn(rows), NetColumn(rows));
  }
}
