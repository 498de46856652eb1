/** The payroll tables as the handlers change them, call by call and write by write. What fails in a
    call is an argument of it. */
module PayrollStore {
  import opened Payroll
  import opened PayrollPeriods

  class PayrollTables {
    var periods: map<string, Period>
    var results: map<RowKey, Amounts>
    var payslips: map<RowKey, nat>
    var keys: map<KeyId, KeyEntry>

    ghost function State(): Ledger
      reads this
    {
      Ledger(periods, results, payslips, keys)
    }

    constructor ()
      ensures State() == EMPTY_LEDGER
    {
      periods, results, payslips, keys := map[], map[], map[], map[];
    }

    /** `limit` employees can be worked through before a read or upsert fails. */
    method RunPayroll(id: string, employees: seq<EmployeeData>, limit: nat, statusSet: bool)
      returns (response: Response)
      modifies this
      ensures (State(), response) == Step(old(State()), Event.RunPayroll(id, employees, limit, statusSet))
    {
      if id !in periods {
        return NotFound;
      }
      var period := periods[id];
      if period.status == Finalized {
        return InvalidState;
      }
      var through := UpsertResults(id, period, employees, limit);
      if through < |employees| || !statusSet {
        return ServerError;
      }
      periods := periods[id := period.(status := Reviewed)];
      response := RunDone;
    }

    /** The employee loop: skip other schedules, compute and upsert the rest, stop at the first failure. */
    method UpsertResults(id: string, period: Period, employees: seq<EmployeeData>, limit: nat) returns (through: nat)
      modifies this`results
      ensures through == Through(employees, period, limit)
      ensures results == PayAll(old(results), id, period, employees[..through])
    {
      through := 0;
      while through < |employees| && through < limit
        invariant through <= limit && Readable(employees, through, period)
        invariant results == PayAll(old(results), id, period, employees[..through])
      {
        PayOneMore(old(results), id, period, employees, through);
        var readable := UpsertResult(id, period, employees[through]);
        if !readable {
          break;
        }
        through := through + 1;
      }
      ThroughIs(employees, period, limit, through);
    }

    /** One employee's turn; no turn without readable input lines, unless it is not the run's schedule. */
    method UpsertResult(id: string, period: Period, e: EmployeeData) returns (readable: bool)
      modifies this`results
      ensures readable <==> InSchedule(e, period) ==> e.inputs.Some?
      ensures results == PayOne(old(results), id, period, e)
    {
      readable := !InSchedule(e, period) || e.inputs.Some?;
      if Paid(e, period) {
        var amounts := PayEmployee(e, period.dates);
        results := results[RowKey(id, e.id) := amounts];
      }
    }

    /** The transaction works on copies that only the commit makes visible. */
    method FinalizePeriod(id: string, commit: Commit) returns (response: Response)
      modifies this`periods, this`payslips
      ensures (State(), response) == PayrollPeriods.FinalizePeriod(old(State()), id, commit)
    {
      if commit == RolledBack {
        return ServerError;
      }
      if id !in periods {
        return NotFound;
      }
      if periods[id].status != Reviewed {
        return InvalidState;
      }
      var txPeriods := periods[id := periods[id].(status := Finalized)];
      var txPayslips := AddPayslips(payslips, results, id);
      if !HasPayslip(txPayslips, id) {
        return NoResults;
      }
      periods, payslips := txPeriods, txPayslips;
      response := if commit == Committed then FinalizeDone(FINALIZED_BODY) else ServerError;
    }

    /** IdempotencyStore.Save. */
    method SaveIdempotencyKey(k: KeyId, hash: string, body: string) returns (conflict: bool)
      modifies this`keys
      ensures keys == SaveKey(old(keys), k, hash, body)
      ensures conflict <==> k in old(keys) && old(keys)[k].hash != hash
    {
      conflict := k in keys && keys[k].hash != hash;
      if !conflict {
        keys := keys[k := KeyEntry(hash, body)];
      }
    }

    method FinalizePayroll(id: string, user: string, key: string, lookupFails: bool, commit: Commit, saveFails: bool)
      returns (response: Response)
      modifies this
      ensures (State(), response)
        == Step(old(State()), Event.FinalizePayroll(id, user, key, lookupFails, commit, saveFails))
    {
      if key == "" {
        return Invalid;
      }
      var k := KeyId(user, key);
      var stored := CheckKey(keys, k, id, lookupFails);
      if stored.Some? {
        return stored.value;
      }
      response := FinalizePeriod(id, commit);
      if response.FinalizeDone? && !saveFails {
        var conflict := SaveIdempotencyKey(k, id, response.body);
        if conflict {
          response := KeyConflict;
        }
      }
    }

    method ReopenPeriod(id: string, reason: string, statusFails: bool, resultsKept: bool, payslipsKept: bool)
      returns (response: Response)
      modifies this
      ensures (State(), response)
        == Step(old(State()), Event.ReopenPeriod(id, reason, statusFails, resultsKept, payslipsKept))
    {
      if reason == "" {
        return Invalid;
      }
      if id !in periods {
        return NotFound;
      }
      if periods[id].status != Finalized {
        return InvalidState;
      }
      if statusFails {
        return ServerError;
      }
      periods := periods[id := periods[id].(status := Draft)];
      if !resultsKept {
        results := DropPeriod(results, id);
      }
      if !payslipsKept {
        payslips := DropPeriod(payslips, id);
      }
      response := ReopenDone;
    }
  }

  lemma PayOneMore(results: map<RowKey, Amounts>, id: string, period: Period, employees: seq<EmployeeData>, n: nat)
    requires n < |employees|
    ensures PayAll(results, id, period, employees[..n + 1])
      == PayOne(PayAll(results, id, period, employees[..n]), id, period, employees[n])
  {
    assert employees[..n + 1][..n] == employees[..n];
  }
}
