/** The arithmetic behind the write-behind counters: which record a leg charges,
    what a record must show for a list of stored legs, and how a database table
    looks once queued partitions have been written over it. */
module Ledger {
  import opened Models

  // ---- charging ----------------------------------------------------------

  /** The record of manager `k` that a leg names; 0 when it names none. */
  function Named(k: Kind, c: Call): int {
    match k
    case Freemin => if c.numberServiceId == 0 || c.servicePackageId != 1 then 0 else c.servicePackageStatsId
    case Package => if c.numberServiceId == 0 || c.servicePackageId <= 1 then 0 else c.servicePackageStatsId
    case TrunkSettings => c.trunkSettingsStatsId
    case NnpMinute => c.statsNnpPackageMinuteId
  }

  function Seconds(k: Kind, c: Call): int {
    if k == TrunkSettings then c.billedTime else c.packageTime
  }

  function Credit(k: Kind, c: Call): real {
    if k == Freemin || k == Package then c.packageCredit else c.cost
  }

  /** The leg is added to its record: sums grow, the first and last leg are noted. */
  function Charge(k: Kind, row: Row, c: Call): Row {
    row.(usedSeconds := row.usedSeconds + Seconds(k, c),
         usedCredit := row.usedCredit + Credit(k, c),
         minCallId := if row.minCallId == 0 then c.id else row.minCallId,
         maxCallId := c.id)
  }

  // ---- what a list of legs amounts to -------------------------------------

  function SecondsOf(k: Kind, id: int, calls: seq<Call>): int {
    if calls == [] then 0
    else
      var c := calls[|calls| - 1];
      SecondsOf(k, id, calls[..|calls| - 1]) + if Named(k, c) == id then Seconds(k, c) else 0
  }

  function CreditOf(k: Kind, id: int, calls: seq<Call>): real {
    if calls == [] then 0.0
    else
      var c := calls[|calls| - 1];
      CreditOf(k, id, calls[..|calls| - 1]) + if Named(k, c) == id then Credit(k, c) else 0.0
  }

  /** The id of the first leg naming the record, 0 if there is none. */
  function FirstOf(k: Kind, id: int, calls: seq<Call>): int {
    if calls == [] then 0
    else
      var c := calls[|calls| - 1];
      var before := FirstOf(k, id, calls[..|calls| - 1]);
      if before == 0 && Named(k, c) == id then c.id else before
  }

  /** The id of the last leg naming the record, 0 if there is none. */
  function LastOf(k: Kind, id: int, calls: seq<Call>): int {
    if calls == [] then 0
    else
      var c := calls[|calls| - 1];
      if Named(k, c) == id then c.id else LastOf(k, id, calls[..|calls| - 1])
  }

  /** The record shows exactly what the legs naming it amount to. */
  predicate Tallies(k: Kind, row: Row, calls: seq<Call>) {
    && row.usedSeconds == SecondsOf(k, row.id, calls)
    && row.usedCredit == CreditOf(k, row.id, calls)
    && row.minCallId == FirstOf(k, row.id, calls)
    && row.maxCallId == LastOf(k, row.id, calls)
  }

  /** Table and legs agree: every record tallies, no leg names a missing record. */
  predicate Consistent(k: Kind, rows: map<int, Row>, calls: seq<Call>) {
    && (forall id | id in rows :: rows[id].id == id > 0 && Tallies(k, rows[id], calls))
    && (forall i | 0 <= i < |calls| :: Named(k, calls[i]) == 0 || Named(k, calls[i]) in rows)
  }

  lemma {:induction false} UnnamedTallyIsZero(k: Kind, id: int, calls: seq<Call>)
    requires forall i | 0 <= i < |calls| :: Named(k, calls[i]) != id
    ensures SecondsOf(k, id, calls) == 0 && CreditOf(k, id, calls) == 0.0
    ensures FirstOf(k, id, calls) == 0 && LastOf(k, id, calls) == 0
  {
    if calls != [] {
      UnnamedTallyIsZero(k, id, calls[..|calls| - 1]);
    }
  }

  /** Charging the record a new leg names keeps table and legs in agreement. */
  lemma ChargeKeepsConsistent(k: Kind, rows: map<int, Row>, calls: seq<Call>, c: Call)
    requires Consistent(k, rows, calls)
    requires Named(k, c) == 0 || Named(k, c) in rows
    ensures Consistent(k, if Named(k, c) == 0 then rows else rows[Named(k, c) := Charge(k, rows[Named(k, c)], c)],
                       calls + [c])
  {
    var id := Named(k, c);
    var all := calls + [c];
    var rows' := if id == 0 then rows else rows[id := Charge(k, rows[id], c)];
    assert all[..|all| - 1] == calls && all[|all| - 1] == c;
  }

  /** A record opened for the first time tallies with legs that cannot name it. */
  lemma OpenKeepsConsistent(k: Kind, rows: map<int, Row>, calls: seq<Call>, row: Row)
    requires Consistent(k, rows, calls)
    requires row.id > 0 && row.id !in rows
    requires row.usedSeconds == 0 && row.usedCredit == 0.0 && row.minCallId == 0 && row.maxCallId == 0
    ensures Consistent(k, rows[row.id := row], calls)
  {
    UnnamedTallyIsZero(k, row.id, calls);
  }

  // ---- a table with partitions written over it ------------------------------

  /** The table after the partitions have been written over it, oldest first. */
  function Overlay<R>(base: map<int, R>, parts: seq<map<int, R>>): map<int, R> {
    if parts == [] then base else Overlay(base, parts[..|parts| - 1]) + parts[|parts| - 1]
  }

  /** A changed record is copied into the newest partition. */
  function Touch<R>(parts: seq<map<int, R>>, id: int, row: R): (r: seq<map<int, R>>)
    requires parts != []
    ensures |r| == |parts|
    ensures forall j | 0 <= j < |parts| :: r[..j] == parts[..j]
  {
    parts[|parts| - 1 := parts[|parts| - 1][id := row]]
  }

  lemma {:induction false} OverlayTouch<R>(base: map<int, R>, parts: seq<map<int, R>>, id: int, row: R)
    requires parts != []
    ensures Overlay(base, Touch(parts, id, row)) == Overlay(base, parts)[id := row]
  {
    var touched := Touch(parts, id, row);
    assert touched[..|parts| - 1] == parts[..|parts| - 1];
  }

  lemma {:induction false} OverlayAppend<R>(base: map<int, R>, parts: seq<map<int, R>>, part: map<int, R>)
    ensures Overlay(base, parts + [part]) == Overlay(base, parts) + part
  {
    var all := parts + [part];
    assert all[..|all| - 1] == parts;
  }

  /** Writing the oldest partition first changes nothing in the end. */
  lemma {:induction false} OverlayShift<R>(base: map<int, R>, parts: seq<map<int, R>>)
    requires parts != []
    ensures Overlay(base + parts[0], parts[1..]) == Overlay(base, parts)
  {
    if |parts| == 1 {
      assert parts[..0] == [] && parts[1..] == [];
    } else {
      var front := parts[..|parts| - 1];
      OverlayShift(base, front);
      assert parts[1..][..|parts[1..]| - 1] == front[1..];
    }
  }

  /** A record is in the overlay exactly when the table or some partition has it. */
  lemma {:induction false} OverlayKeys<R>(base: map<int, R>, parts: seq<map<int, R>>, id: int)
    ensures id in Overlay(base, parts) <==> id in base || exists j :: 0 <= j < |parts| && id in parts[j]
  {
    if parts != [] {
      var front := parts[..|parts| - 1];
      OverlayKeys(base, front, id);
      assert forall j | 0 <= j < |front| :: front[j] == parts[j];
      if j :| 0 <= j < |parts| && id in parts[j] {
        if j < |front| { assert id in front[j]; }
      }
    }
  }

  // ---- queued legs -----------------------------------------------------------

  /** The legs of all partitions, oldest first. */
  function Flat<T>(parts: seq<seq<T>>): seq<T> {
    if parts == [] then [] else Flat(parts[..|parts| - 1]) + parts[|parts| - 1]
  }

  function PushLast<T>(parts: seq<seq<T>>, t: T): (r: seq<seq<T>>)
    requires parts != []
    ensures |r| == |parts|
    ensures forall j | 0 <= j < |parts| :: r[..j] == parts[..j]
  {
    parts[|parts| - 1 := parts[|parts| - 1] + [t]]
  }

  lemma {:induction false} FlatPush<T>(parts: seq<seq<T>>, t: T)
    requires parts != []
    ensures Flat(PushLast(parts, t)) == Flat(parts) + [t]
  {
    var pushed := PushLast(parts, t);
    assert pushed[..|parts| - 1] == parts[..|parts| - 1];
  }

  lemma {:induction false} FlatAppend<T>(parts: seq<seq<T>>, part: seq<T>)
    ensures Flat(parts + [part]) == Flat(parts) + part
  {
    var all := parts + [part];
    assert all[..|all| - 1] == parts;
  }

  lemma {:induction false} FlatShift<T>(parts: seq<seq<T>>)
    requires parts != []
    ensures Flat(parts) == parts[0] + Flat(parts[1..])
  {
    if |parts| == 1 {
      assert parts[..0] == [] && parts[1..] == [];
    } else {
      var front := parts[..|parts| - 1];
      FlatShift(front);
      assert parts[1..][..|parts[1..]| - 1] == front[1..];
    }
  }
}
