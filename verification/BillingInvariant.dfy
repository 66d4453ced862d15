/** What every reachable state of the billing pipeline satisfies, and why each
    step keeps it. */
module BillingInvariant {
  import opened Models
  import opened Ledger
  import opened BillingState

  // ---- counters ---------------------------------------------------------------------

  /** The table tallies with the legs now and after writing any number of queued partitions. */
  predicate Snapshots(k: Kind, base: map<int, Row>, rowParts: seq<map<int, Row>>, stored: seq<Call>,
                      callParts: seq<seq<Call>>) {
    && |rowParts| == |callParts|
    && forall j | 0 <= j <= |rowParts| :: Consistent(k, Overlay(base, rowParts[..j]), stored + Flat(callParts[..j]))
  }

  /** Each owner's list and the records agree. */
  predicate Listed(m: Manager) {
    && (forall o, id | o in m.byOwner && id in m.byOwner[o] :: id in m.live && m.live[id].owner == o)
    && (forall id | id in m.live :: m.live[id].owner in m.byOwner && id in m.byOwner[m.live[id].owner])
  }

  /** The records in memory are the table with the queued partitions written over it,
      and ids up to the last one given out are all that is in use. */
  predicate LiveMatches(m: Manager, rows: map<int, Row>) {
    && (forall id | id in m.live :: id in rows && rows[id] == m.live[id])
    && (forall id | id in rows :: 0 < id <= m.lastId)
    && 0 <= m.lastId
  }

  predicate KindOk(k: Kind, m: Manager, base: map<int, Row>, rowParts: seq<map<int, Row>>, stored: seq<Call>,
                   callParts: seq<seq<Call>>) {
    && Snapshots(k, base, rowParts, stored, callParts)
    && LiveMatches(m, Overlay(base, rowParts))
    && Listed(m)
  }

  lemma {:induction false} FullSnapshot(k: Kind, base: map<int, Row>, rowParts: seq<map<int, Row>>, stored: seq<Call>,
                                        callParts: seq<seq<Call>>)
    requires Snapshots(k, base, rowParts, stored, callParts)
    ensures Consistent(k, Overlay(base, rowParts), stored + Flat(callParts))
  {
    assert rowParts[..|rowParts|] == rowParts && callParts[..|callParts|] == callParts;
  }

  /** Snapshots change only at the end when only the newest partition changes. */
  lemma {:induction false} SnapshotsWithLast(k: Kind, base: map<int, Row>, rowParts: seq<map<int, Row>>,
                                             rowParts': seq<map<int, Row>>,
                          stored: seq<Call>, callParts: seq<seq<Call>>, callParts': seq<seq<Call>>)
    requires Snapshots(k, base, rowParts, stored, callParts) && rowParts != []
    requires |rowParts'| == |rowParts| && |callParts'| == |callParts|
    requires forall j | 0 <= j < |rowParts| :: rowParts'[..j] == rowParts[..j] && callParts'[..j] == callParts[..j]
    requires Consistent(k, Overlay(base, rowParts'), stored + Flat(callParts'))
    ensures Snapshots(k, base, rowParts', stored, callParts')
  {
    forall j | 0 <= j <= |rowParts'|
      ensures Consistent(k, Overlay(base, rowParts'[..j]), stored + Flat(callParts'[..j]))
    {
      if j == |rowParts'| {
        assert rowParts'[..j] == rowParts' && callParts'[..j] == callParts';
      } else {
        assert Consistent(k, Overlay(base, rowParts[..j]), stored + Flat(callParts[..j]));
      }
    }
  }

  /** The partitions after a leg was added. */
  function ChargedParts(k: Kind, m: Manager, rowParts: seq<map<int, Row>>, c: Call): seq<map<int, Row>>
    requires rowParts != [] && (Named(k, c) == 0 || Named(k, c) in m.live)
  {
    var id := Named(k, c);
    if id == 0 then rowParts else Touch(rowParts, id, Charge(k, m.live[id], c))
  }

  lemma AddKeepsKind(k: Kind, m: Manager, base: map<int, Row>, rowParts: seq<map<int, Row>>,
                     stored: seq<Call>, callParts: seq<seq<Call>>, info: CallInfo)
    requires KindOk(k, m, base, rowParts, stored, callParts) && rowParts != [] && m.parts != []
    requires Named(k, info.call) == 0 || Named(k, info.call) in m.live
    requires k == Package && Named(k, info.call) != 0 ==> info.prepaid
    ensures KindOk(k, AddToManager(k, m, info), base, ChargedParts(k, m, rowParts, info.call), stored,
                   PushLast(callParts, info.call))
  {
    var c := info.call;
    var id := Named(k, c);
    var rows, calls := Overlay(base, rowParts), stored + Flat(callParts);
    var rowParts', callParts' := ChargedParts(k, m, rowParts, c), PushLast(callParts, c);
    FullSnapshot(k, base, rowParts, stored, callParts);
    FlatPush(callParts, c);
    assert stored + Flat(callParts') == calls + [c];
    ChargeKeepsConsistent(k, rows, calls, c);
    if id != 0 {
      OverlayTouch(base, rowParts, id, Charge(k, m.live[id], c));
    }
    SnapshotsWithLast(k, base, rowParts, rowParts', stored, callParts, callParts');
  }

  lemma OpenKeepsKind(k: Kind, m: Manager, base: map<int, Row>, rowParts: seq<map<int, Row>>,
                      stored: seq<Call>, callParts: seq<seq<Call>>, q: Query)
    requires KindOk(k, m, base, rowParts, stored, callParts) && rowParts != [] && m.parts != []
    ensures var opened' := Open(m, q);
            KindOk(k, opened', base, Touch(rowParts, opened'.lastId, opened'.live[opened'.lastId]), stored, callParts)
  {
    var m' := Open(m, q);
    var row := m'.live[m'.lastId];
    var rows := Overlay(base, rowParts);
    FullSnapshot(k, base, rowParts, stored, callParts);
    OpenKeepsConsistent(k, rows, stored + Flat(callParts), row);
    OverlayTouch(base, rowParts, row.id, row);
    SnapshotsWithLast(k, base, rowParts, Touch(rowParts, row.id, row), stored, callParts, callParts);
    OpenKeepsListed(m, q);
  }

  lemma OpenKeepsListed(m: Manager, q: Query)
    requires Listed(m) && m.parts != [] && m.lastId + 1 !in m.live
    ensures Listed(Open(m, q))
  {
    var m' := Open(m, q);
    forall o, id | o in m'.byOwner && id in m'.byOwner[o]
      ensures id in m'.live && m'.live[id].owner == o
    {
      if o == q.owner && id != m'.lastId {
        assert id in Ids(m, o);
      }
    }
    forall id | id in m'.live
      ensures m'.live[id].owner in m'.byOwner && id in m'.byOwner[m'.live[id].owner]
    {
      if id != m'.lastId && m'.live[id].owner == q.owner {
        assert id in Ids(m, q.owner);
      } else if id == m'.lastId {
        assert m'.byOwner[q.owner][0] == id;
      }
    }
  }

  /** Closing a partition writes nothing: a new, empty one is opened. */
  lemma AppendKeepsKind(k: Kind, m: Manager, base: map<int, Row>, rowParts: seq<map<int, Row>>,
                        stored: seq<Call>, callParts: seq<seq<Call>>)
    requires KindOk(k, m, base, rowParts, stored, callParts)
    ensures KindOk(k, AppendPart(m), base, rowParts + [map[]], stored, callParts + [[]])
  {
    OverlayAppend(base, rowParts, map[]);
    FlatAppend(callParts, []);
    FullSnapshot(k, base, rowParts, stored, callParts);
    var rowParts', callParts' := rowParts + [map[]], callParts + [[]];
    forall j | 0 <= j <= |rowParts'|
      ensures Consistent(k, Overlay(base, rowParts'[..j]), stored + Flat(callParts'[..j]))
    {
      if j <= |rowParts| {
        assert rowParts'[..j] == rowParts[..j] && callParts'[..j] == callParts[..j];
        assert Consistent(k, Overlay(base, rowParts[..j]), stored + Flat(callParts[..j]));
      } else {
        assert rowParts'[..j] == rowParts' && callParts'[..j] == callParts';
        assert Overlay(base, rowParts') == Overlay(base, rowParts) && Flat(callParts') == Flat(callParts);
      }
    }
  }

  /** Committing partition 0 moves the table on by exactly one snapshot. */
  lemma CommitKeepsKind(k: Kind, m: Manager, base: map<int, Row>, rowParts: seq<map<int, Row>>,
                        stored: seq<Call>, callParts: seq<seq<Call>>)
    requires KindOk(k, m, base, rowParts, stored, callParts) && rowParts != []
    ensures KindOk(k, m, base + rowParts[0], rowParts[1..], stored + callParts[0], callParts[1..])
  {
    OverlayShift(base, rowParts);
    forall j | 0 <= j <= |rowParts| - 1
      ensures Consistent(k, Overlay(base + rowParts[0], rowParts[1..][..j]),
                         stored + callParts[0] + Flat(callParts[1..][..j]))
    {
      assert rowParts[..j + 1][1..] == rowParts[1..][..j] && callParts[..j + 1][1..] == callParts[1..][..j];
      OverlayShift(base, rowParts[..j + 1]);
      FlatShift(callParts[..j + 1]);
      assert stored + Flat(callParts[..j + 1]) == stored + callParts[0] + Flat(callParts[1..][..j]);
    }
  }

  lemma LoadKeepsKind(k: Kind, m: Manager, base: map<int, Row>, rowParts: seq<map<int, Row>>,
                      stored: seq<Call>, callParts: seq<seq<Call>>, byOwner: Listing, maxId: int, lastTime: int)
    requires KindOk(k, m, base, rowParts, stored, callParts)
    requires Lists(byOwner, Recent(base, lastTime)) && IsMaxKey(base, maxId)
    ensures KindOk(k, Loaded(base, lastTime, byOwner, maxId), base, [map[]], stored, [[]])
  {
    assert rowParts[..0] == [] && callParts[..0] == [];
    assert Consistent(k, Overlay(base, rowParts[..0]), stored + Flat(callParts[..0]));
    var none: seq<map<int, Row>> := [map[]];
    var empty: seq<seq<Call>> := [[]];
    assert none[..0] == [] && none[..1] == none && empty[..0] == [] && empty[..1] == empty;
    assert Overlay(base, none) == base && Flat(empty) == [];
    assert stored + [] == stored;
    var loaded := Loaded(base, lastTime, byOwner, maxId);
    forall o, id | o in loaded.byOwner && id in loaded.byOwner[o]
      ensures id in loaded.live && loaded.live[id].owner == o
    {
      var i :| 0 <= i < |byOwner[o]| && byOwner[o][i] == id;
    }
  }
}
