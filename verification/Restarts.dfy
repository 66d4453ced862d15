/** The database answers the queries of a starting process in every good state: a crash can come
    at any moment. */
module Restarts {
  import opened Models
  import opened BillingState
  import opened BillingSafety
  import opened BillingTheorems

  // ---- a listing of the records by owner ---------------------------------------------------

  /** Records of one owner, each once, the latest window first. */
  ghost predicate ListOf(rows: map<int, Row>, ids: seq<int>, owner: int) {
    && (forall id | id in ids :: id in rows && rows[id].owner == owner)
    && (forall i, j | 0 <= i < j < |ids| :: ids[i] != ids[j] && rows[ids[i]].from >= rows[ids[j]].from)
  }

  function Insert(rows: map<int, Row>, ids: seq<int>, id: int): (r: seq<int>)
    requires id in rows && forall k | k in ids :: k in rows
    ensures forall k :: k in r <==> k in ids || k == id
  {
    if ids == [] then [id]
    else
      var first := ids[0];
      assert first in ids;
      if rows[first].from <= rows[id].from then [id] + ids else [first] + Insert(rows, ids[1..], id)
  }

  lemma FirstOfList(rows: map<int, Row>, ids: seq<int>, owner: int)
    requires ListOf(rows, ids, owner) && ids != []
    ensures ListOf(rows, ids[1..], owner)
    ensures ids[0] in rows && rows[ids[0]].owner == owner
    ensures forall k | k in ids[1..] :: k in rows && k != ids[0] && rows[ids[0]].from >= rows[k].from
  {
    var first, rest := ids[0], ids[1..];
    assert first in ids;
    forall k | k in rest
      ensures k in rows && k != first && rows[first].from >= rows[k].from
    {
      var i :| 0 <= i < |rest| && rest[i] == k;
      assert ids[i + 1] == k && k in ids;
    }
  }

  lemma Prepended(rows: map<int, Row>, first: int, rest: seq<int>, owner: int)
    requires ListOf(rows, rest, owner) && first in rows && rows[first].owner == owner
    requires forall k | k in rest :: k in rows && k != first && rows[first].from >= rows[k].from
    ensures ListOf(rows, [first] + rest, owner)
  {
    assert forall i | 0 <= i < |rest| :: rest[i] in rest;
  }

  lemma {:induction false} InsertKeepsList(rows: map<int, Row>, ids: seq<int>, id: int, owner: int)
    requires ListOf(rows, ids, owner) && id in rows && rows[id].owner == owner && id !in ids
    ensures forall k | k in ids :: k in rows
    ensures ListOf(rows, Insert(rows, ids, id), owner)
    decreases |ids|
  {
    Listed(rows, ids, owner);
    hide ListOf;
    if ids == [] {
      NothingListed(rows, owner);
      Prepended(rows, id, [], owner);
      assert [id] + [] == [id];
    } else {
      var first, rest := ids[0], ids[1..];
      FirstOfList(rows, ids, owner);
      if rows[first].from <= rows[id].from {
        LatestFirst(rows, ids, id, owner);
      } else {
        InsertKeepsList(rows, rest, id, owner);
        Prepended(rows, first, Insert(rows, rest, id), owner);
      }
    }
  }

  lemma LatestFirst(rows: map<int, Row>, ids: seq<int>, id: int, owner: int)
    requires ListOf(rows, ids, owner) && ids != [] && id in rows && rows[id].owner == owner && id !in ids
    requires ids[0] in rows && rows[ids[0]].from <= rows[id].from
    ensures ListOf(rows, [id] + ids, owner)
  {
    hide ListOf;
    FirstOfList(rows, ids, owner);
    assert ids == [ids[0]] + ids[1..];
    forall k | k in ids
      ensures k in rows && k != id && rows[id].from >= rows[k].from
    {
      assert k == ids[0] || k in ids[1..];
    }
    Prepended(rows, id, ids, owner);
  }

  /** What a listing is, owner by owner. */
  ghost predicate ListsEach(byOwner: Listing, rows: map<int, Row>) {
    && (forall o | o in byOwner :: ListOf(rows, byOwner[o], o))
    && (forall id | id in rows :: rows[id].owner in byOwner && id in byOwner[rows[id].owner])
  }

  lemma EachIsLists(byOwner: Listing, rows: map<int, Row>)
    requires ListsEach(byOwner, rows)
    ensures Lists(byOwner, rows)
  {
    forall o | o in byOwner
      ensures forall i | 0 <= i < |byOwner[o]| :: byOwner[o][i] in rows && rows[byOwner[o][i]].owner == o
      ensures forall i, j | 0 <= i < j < |byOwner[o]| ::
                byOwner[o][i] != byOwner[o][j] && rows[byOwner[o][i]].from >= rows[byOwner[o][j]].from
    {
      ByIndex(rows, byOwner[o], o);
    }
  }

  lemma ByIndex(rows: map<int, Row>, ids: seq<int>, owner: int)
    requires ListOf(rows, ids, owner)
    ensures forall i | 0 <= i < |ids| :: ids[i] in rows && rows[ids[i]].owner == owner
    ensures forall i, j | 0 <= i < j < |ids| :: ids[i] != ids[j] && rows[ids[i]].from >= rows[ids[j]].from
  {
    forall i | 0 <= i < |ids|
      ensures ids[i] in rows && rows[ids[i]].owner == owner
    {
      assert ids[i] in ids;
    }
  }

  lemma {:induction false} ListingExists(rows: map<int, Row>) returns (byOwner: Listing)
    ensures ListsEach(byOwner, rows)
    decreases |rows|
  {
    if rows.Keys == {} {
      byOwner := map[];
    } else {
      var id := SomeOf(rows.Keys);
      var rest := rows - {id};
      var before := ListingExists(rest);
      byOwner := Inserted(before, rest, id, rows);
    }
  }

  lemma ListOfMore(rest: map<int, Row>, rows: map<int, Row>, ids: seq<int>, owner: int)
    requires ListOf(rest, ids, owner) && forall k | k in rest :: k in rows && rows[k] == rest[k]
    ensures ListOf(rows, ids, owner)
  {
    forall i, j | 0 <= i < j < |ids|
      ensures ids[i] != ids[j] && rows[ids[i]].from >= rows[ids[j]].from
    {
      assert ids[i] in ids && ids[j] in ids;
    }
  }

  lemma Inserted(before: Listing, rest: map<int, Row>, id: int, rows: map<int, Row>) returns (byOwner: Listing)
    requires id in rows && rest == rows - {id} && ListsEach(before, rest)
    ensures ListsEach(byOwner, rows)
  {
    hide Insert, ListOf;
    var owner := rows[id].owner;
    var ids := if owner in before then before[owner] else [];
    NothingListed(rest, owner);
    assert ListOf(rest, ids, owner);
    Listed(rest, ids, owner);
    ListOfMore(rest, rows, ids, owner);
    byOwner := before[owner := Insert(rows, ids, id)];
    InsertKeepsList(rows, ids, id, owner);
    forall o | o in byOwner
      ensures ListOf(rows, byOwner[o], o)
    {
      if o != owner { ListOfMore(rest, rows, before[o], o); }
    }
    assert forall k | k in rows && k != id :: k in rest && rest[k] == rows[k];
  }

  lemma NothingListed(rows: map<int, Row>, owner: int)
    ensures ListOf(rows, [], owner)
  {
  }

  lemma Listed(rows: map<int, Row>, ids: seq<int>, owner: int)
    requires ListOf(rows, ids, owner)
    ensures forall k | k in ids :: k in rows
  {
  }

  // ---- the highest id ------------------------------------------------------------------------

  lemma {:induction false} MaxKeyExists(rows: map<int, Row>) returns (n: int)
    ensures IsMaxKey(rows, n)
    decreases |rows|
  {
    if rows.Keys == {} {
      n := 0;
    } else {
      var id := SomeOf(rows.Keys);
      var rest := rows - {id};
      var m := MaxKeyExists(rest);
      n := if rest == map[] then id else Max(id, m);
      assert forall k | k in rows :: k == id || k in rest;
    }
  }

  // ---- starting ----------------------------------------------------------------------------------

  lemma {:induction false} AnswersFor(rows: map<int, Row>, lastTime: int) returns (byOwner: Listing, n: int)
    ensures Lists(byOwner, Recent(rows, lastTime)) && IsMaxKey(rows, n)
  {
    hide Lists, IsMaxKey, ListsEach;
    byOwner := ListingExists(Recent(rows, lastTime));
    EachIsLists(byOwner, Recent(rows, lastTime));
    n := MaxKeyExists(rows);
  }

  /** In every good state, whatever the threads were about to do, the process can be gone and a new
      one start; and what it starts from is a good state again. */
  lemma {:induction false} RestartIsPossible(s: State)
    requires Inv(s)
    ensures HaveParts(s)
    ensures exists listings, maxIds :: Enabled(s, Restart(listings, maxIds)) && Inv(StepRestart(s, listings, maxIds))
  {
    hide Inv, Lists, IsMaxKey, MaxTime, Recent, StepRestart, Core, Shape, Frozen, Numbered, Room, Calculating;
    InvHasCore(s);
    CoreHasParts(s);
    var last := MaxTime(s.db.calls);
    var l1, n1 := AnswersFor(s.db.rows.freemin, last);
    var l2, n2 := AnswersFor(s.db.rows.package, last);
    var l3, n3 := AnswersFor(s.db.rows.trunkSettings, last);
    var l4, n4 := AnswersFor(s.db.rows.nnpMinute, last);
    var listings, maxIds := PerKind(l1, l2, l3, l4), PerKind(n1, n2, n3, n4);
    forall k: Kind
      ensures Lists(listings.At(k), Recent(s.db.rows.At(k), last)) && IsMaxKey(s.db.rows.At(k), maxIds.At(k))
    {
    }
    assert Enabled(s, Restart(listings, maxIds));
    RestartKeepsInv(s, listings, maxIds);
  }
}
