/** The legs a CDR table gives rise to, and what a restart from the highest stored
    ids makes of them. */
module LegSequence {
  import opened Models
  import opened BillingState

  /** How a leg is identified: the counters charged to it are not part of this. */
  datatype Leg = Leg(id: int, peerId: int, cdrId: int, orig: bool)

  function LegOf(c: Call): Leg {
    Leg(c.id, c.peerId, c.cdrId, c.orig)
  }

  function Skeleton(calls: seq<Call>): (legs: seq<Leg>)
    ensures |legs| == |calls|
    ensures forall i | 0 <= i < |calls| :: legs[i] == LegOf(calls[i])
  {
    seq(|calls|, i requires 0 <= i < |calls| => LegOf(calls[i]))
  }

  /** The legs of one CDR, numbered after `last`. */
  function PairOf(cdr: Cdr, last: int): seq<Leg> {
    if cdr.technical then [] else [Leg(last + 1, last + 2, cdr.id, true), Leg(last + 2, last + 1, cdr.id, false)]
  }

  /** The legs of a CDR table, numbered from 1. */
  function AllLegs(cdrs: seq<Cdr>): (legs: seq<Leg>)
    ensures |legs| % 2 == 0
    ensures forall i | 0 <= i < |legs| :: legs[i].id == i + 1
  {
    if cdrs == [] then []
    else
      var before := AllLegs(cdrs[..|cdrs| - 1]);
      before + PairOf(cdrs[|cdrs| - 1], |before|)
  }

  /** The legs after further CDRs were calculated on top of what is there. */
  function Continue(legs: seq<Leg>, cdrs: seq<Cdr>): (r: seq<Leg>)
    ensures legs <= r && (|r| - |legs|) % 2 == 0
    decreases |cdrs|
  {
    if cdrs == [] then legs else Continue(legs + PairOf(cdrs[0], |legs|), cdrs[1..])
  }

  /** CDR ids are positive and grow along the table. */
  predicate Sorted(cdrs: seq<Cdr>) {
    && (forall i | 0 <= i < |cdrs| :: cdrs[i].id > 0)
    && (forall i, j | 0 <= i < j < |cdrs| :: cdrs[i].id < cdrs[j].id)
  }

  lemma {:induction false} SelectSkips(table: seq<Cdr>, lastId: int, fetched: nat, limit: nat)
    requires fetched <= |table| && forall j | 0 <= j < fetched :: table[j].id <= lastId
    ensures Select(table, lastId, limit) == Select(table[fetched..], lastId, limit)
    decreases fetched
  {
    if fetched == 0 {
      assert table[0..] == table;
    } else {
      assert table[1..][fetched - 1..] == table[fetched..];
      SelectSkips(table[1..], lastId, fetched - 1, limit);
    }
  }

  lemma {:induction false} SelectTakes(table: seq<Cdr>, lastId: int, limit: nat)
    requires forall j | 0 <= j < |table| :: table[j].id > lastId
    ensures Select(table, lastId, limit) == table[..if limit < |table| then limit else |table|]
    decreases limit
  {
    if table != [] && limit > 0 {
      SelectTakes(table[1..], lastId, limit - 1);
      var end := if limit < |table| then limit else |table|;
      assert [table[0]] + table[1..][..end - 1] == table[..end];
    }
  }

  /** On a table kept in id order, paging by key reads the next slice. */
  lemma {:induction false} SelectIsSlice(table: seq<Cdr>, lastId: int, fetched: nat, limit: nat)
    requires fetched <= |table| && forall j | 0 <= j < |table| :: table[j].id <= lastId <==> j < fetched
    ensures Select(table, lastId, limit) ==
            table[fetched..if fetched + limit < |table| then fetched + limit else |table|]
  {
    hide Select;
    SelectSkips(table, lastId, fetched, limit);
    SelectTakes(table[fetched..], lastId, limit);
    var n := if limit < |table| - fetched then limit else |table| - fetched;
    assert table[fetched..][..n] == table[fetched..fetched + n];
  }

  lemma {:induction false} CountUpToSplits(table: seq<Cdr>, id: int)
    requires Sorted(table)
    ensures CountUpTo(table, id) <= |table|
    ensures forall j | 0 <= j < |table| :: table[j].id <= id <==> j < CountUpTo(table, id)
  {
    if table != [] {
      var front := table[..|table| - 1];
      CountUpToSplits(front, id);
      assert forall j | 0 <= j < |front| :: front[j] == table[j];
    }
  }

  /** With legs numbered 1, 2, 3, ... the highest id is their number. */
  lemma {:induction false} MaxIdIsCount(calls: seq<Call>)
    requires forall i | 0 <= i < |calls| :: calls[i].id == i + 1
    ensures MaxId(calls) == |calls|
  {
    if |calls| > 1 {
      MaxIdIsCount(calls[..|calls| - 1]);
    }
  }

  lemma {:induction false} LegsNameCdrs(cdrs: seq<Cdr>)
    requires Sorted(cdrs)
    ensures cdrs == [] ==> AllLegs(cdrs) == []
    ensures forall i | 0 <= i < |AllLegs(cdrs)| :: AllLegs(cdrs)[i].cdrId <= cdrs[|cdrs| - 1].id
  {
    if cdrs != [] {
      var front := cdrs[..|cdrs| - 1];
      LegsNameCdrs(front);
      assert front != [] ==> front[|front| - 1].id < cdrs[|cdrs| - 1].id;
    }
  }

  lemma {:induction false} AllLegsPrefix(cdrs: seq<Cdr>, n: nat)
    requires n <= |cdrs|
    ensures AllLegs(cdrs[..n]) <= AllLegs(cdrs)
    decreases |cdrs|
  {
    if n < |cdrs| {
      AllLegsPrefix(cdrs[..|cdrs| - 1], n);
      assert cdrs[..|cdrs| - 1][..n] == cdrs[..n];
    } else {
      assert cdrs[..n] == cdrs;
    }
  }

  /** An even number of legs ends with the pair of some CDR. */
  lemma {:induction false} EvenPrefix(cdrs: seq<Cdr>, n: nat) returns (e: nat)
    requires n <= |AllLegs(cdrs)| && n % 2 == 0
    ensures e <= |cdrs| && AllLegs(cdrs)[..n] == AllLegs(cdrs[..e])
    ensures if n == 0 then e == 0 else e > 0 && AllLegs(cdrs)[n - 1].cdrId == cdrs[e - 1].id
  {
    if n == 0 {
      e := 0;
    } else {
      var front := cdrs[..|cdrs| - 1];
      hide AllLegs, PairOf;
      LastPair(cdrs);
      if n <= |AllLegs(front)| {
        e := EvenPrefix(front, n);
        assert front[..e] == cdrs[..e] && front[e - 1] == cdrs[e - 1];
        PrefixOfPrefix(AllLegs(front), AllLegs(cdrs), n);
      } else {
        e := |cdrs|;
        NextEven(|AllLegs(front)|, n);
        PrefixOfPrefix(AllLegs(cdrs), AllLegs(cdrs), n);
        assert cdrs[..e] == cdrs;
      }
    }
  }

  lemma {:induction false} PrefixOfPrefix<T>(a: seq<T>, b: seq<T>, n: nat)
    requires a <= b && n <= |a|
    ensures a[..n] == b[..n] && (n > 0 ==> a[n - 1] == b[n - 1]) && a[..|a|] == a
  {
  }

  lemma NextEven(a: nat, n: nat)
    requires a % 2 == 0 && n % 2 == 0 && a < n
    ensures n >= a + 2
  {
  }

  /** The legs of a table end with those of its last CDR, two or none. */
  lemma {:induction false} LastPair(cdrs: seq<Cdr>)
    requires cdrs != []
    ensures var front := AllLegs(cdrs[..|cdrs| - 1]);
            front <= AllLegs(cdrs) && |front| <= |AllLegs(cdrs)| <= |front| + 2 &&
            (|AllLegs(cdrs)| > |front| ==> AllLegs(cdrs)[|AllLegs(cdrs)| - 1].cdrId == cdrs[|cdrs| - 1].id)
  {
  }

  lemma {:induction false} MaxCdrIdIsLast(calls: seq<Call>)
    requires forall i | 0 <= i < |calls| :: calls[i].cdrId <= calls[|calls| - 1].cdrId
    requires forall i, j | 0 <= i <= j < |calls| :: calls[i].cdrId <= calls[j].cdrId
    ensures calls != [] ==> MaxCdrId(calls) == calls[|calls| - 1].cdrId
  {
    if |calls| > 1 {
      MaxCdrIdIsLast(calls[..|calls| - 1]);
    }
  }

  lemma {:induction false} LegsAreOrdered(cdrs: seq<Cdr>)
    requires Sorted(cdrs)
    ensures forall i, j | 0 <= i <= j < |AllLegs(cdrs)| :: AllLegs(cdrs)[i].cdrId <= AllLegs(cdrs)[j].cdrId
  {
    if cdrs != [] {
      var front, last := cdrs[..|cdrs| - 1], cdrs[|cdrs| - 1];
      var before, legs := AllLegs(front), AllLegs(cdrs);
      LegsAreOrdered(front);
      LegsNameCdrs(front);
      assert front != [] ==> front[|front| - 1].id < last.id;
      hide Sorted; hide AllLegs;
      assert forall i | 0 <= i < |before| :: legs[i] == before[i] && legs[i].cdrId <= last.id;
      assert forall j | |before| <= j < |legs| :: legs[j].cdrId == last.id;
    }
  }

  /** Cut between two CDRs, the stored legs are those of the CDRs up to the highest
      stored CDR id. */
  lemma {:induction false} EvenCutIsAtACdr(cdrs: seq<Cdr>, stored: seq<Call>)
    requires Sorted(cdrs) && Skeleton(stored) <= AllLegs(cdrs) && |stored| % 2 == 0
    ensures var done := CountUpTo(cdrs, MaxCdrId(stored));
            done <= |cdrs| && Skeleton(stored) == AllLegs(cdrs[..done])
  {
    var n := |stored|;
    var e := EvenPrefix(cdrs, n);
    assert AllLegs(cdrs)[..n] == Skeleton(stored);
    if n > 0 {
      LegsAreOrdered(cdrs);
      forall i, j | 0 <= i <= j < n ensures stored[i].cdrId <= stored[j].cdrId {
        assert LegOf(stored[i]) == AllLegs(cdrs)[i] && LegOf(stored[j]) == AllLegs(cdrs)[j];
      }
      MaxCdrIdIsLast(stored);
      assert LegOf(stored[n - 1]) == AllLegs(cdrs)[n - 1];
      assert MaxCdrId(stored) == cdrs[e - 1].id;
    }
    hide AllLegs, Skeleton, MaxCdrId;
    CountUpToIs(cdrs, MaxCdrId(stored), e);
  }

  lemma {:induction false} CountUpToIs(cdrs: seq<Cdr>, id: int, e: nat)
    requires Sorted(cdrs) && e <= |cdrs| && (if e == 0 then id == 0 else id == cdrs[e - 1].id)
    ensures CountUpTo(cdrs, id) == e
  {
    CountUpToSplits(cdrs, id);
    hide CountUpTo;
    var done := CountUpTo(cdrs, id);
    assert e > 0 ==> cdrs[e - 1].id <= id && e - 1 < done;
    assert e < |cdrs| ==> cdrs[e].id > id && !(e < done);
  }

  lemma {:induction false} ContinueCompletes(cdrs: seq<Cdr>, done: nat)
    requires done <= |cdrs|
    ensures Continue(AllLegs(cdrs[..done]), cdrs[done..]) == AllLegs(cdrs)
    decreases |cdrs| - done
  {
    if done == |cdrs| {
      assert cdrs[..done] == cdrs;
    } else {
      ContinueCompletes(cdrs, done + 1);
      assert cdrs[..done + 1][..done] == cdrs[..done];
      assert cdrs[done..][1..] == cdrs[done + 1..];
    }
  }

  /** A restart resumes after the highest stored CDR id and numbers on from the highest
      stored leg id. It ends with exactly the legs an uninterrupted run would have
      produced if, and only if, the stored legs were not cut within a pair. */
  lemma {:induction false} RestartReplaysIff(cdrs: seq<Cdr>, stored: seq<Call>)
    requires Sorted(cdrs) && Skeleton(stored) <= AllLegs(cdrs)
    ensures MaxId(stored) == |stored|
    ensures var done := CountUpTo(cdrs, MaxCdrId(stored));
            && done <= |cdrs|
            && (Continue(Skeleton(stored), cdrs[done..]) == AllLegs(cdrs) <==> |stored| % 2 == 0)
  {
    hide AllLegs, Continue, CountUpTo, MaxCdrId, MaxId;
    StoredAreNumbered(cdrs, stored);
    MaxIdIsCount(stored);
    var done := CountUpTo(cdrs, MaxCdrId(stored));
    CountUpToSplits(cdrs, MaxCdrId(stored));
    if |stored| % 2 == 0 {
      EvenCutIsAtACdr(cdrs, stored);
      ContinueCompletes(cdrs, done);
    } else {
      assert |Skeleton(stored)| == |stored|;
    }
  }

  lemma {:induction false} StoredAreNumbered(cdrs: seq<Cdr>, stored: seq<Call>)
    requires Skeleton(stored) <= AllLegs(cdrs)
    ensures forall i | 0 <= i < |stored| :: stored[i].id == i + 1
  {
    forall i | 0 <= i < |stored| ensures stored[i].id == i + 1 {
      assert LegOf(stored[i]) == AllLegs(cdrs)[i];
    }
  }

  /** The smallest loss: one CDR, its first leg stored, the process restarted. The
      second leg is never produced, however many CDRs follow. */
  lemma {:induction false} SplitPairIsLost(cdr: Cdr, orig: Call, later: seq<Cdr>)
    requires !cdr.technical && LegOf(orig) == Leg(1, 2, cdr.id, true)
    requires Sorted([cdr] + later)
    ensures CountUpTo([cdr] + later, MaxCdrId([orig])) <= |[cdr] + later|
    ensures var cdrs := [cdr] + later;
            var resumed := Continue(Skeleton([orig]), cdrs[CountUpTo(cdrs, MaxCdrId([orig]))..]);
            && Leg(2, 1, cdr.id, false) in AllLegs(cdrs)
            && Leg(2, 1, cdr.id, false) !in resumed
  {
    var cdrs := [cdr] + later;
    AllLegsPrefix(cdrs, 1);
    assert cdrs[..1] == [cdr] && AllLegs([cdr]) == PairOf(cdr, 0);
    assert AllLegs(cdrs)[1] == Leg(2, 1, cdr.id, false);
    CountUpToSplits(cdrs, cdr.id);
    assert cdrs[0] == cdr && (later != [] ==> cdrs[1] == later[0]);
    assert CountUpTo(cdrs, cdr.id) == 1;
    assert cdrs[1..] == later;
    forall i | 0 <= i < |later| ensures later[i].id > cdr.id { assert later[i] == cdrs[i + 1]; }
    ContinueNamesLater(Skeleton([orig]), later, cdr.id);
  }

  lemma {:induction false} ContinueNamesLater(legs: seq<Leg>, cdrs: seq<Cdr>, id: int)
    requires forall i | 0 <= i < |cdrs| :: cdrs[i].id > id
    ensures forall i | |legs| <= i < |Continue(legs, cdrs)| :: Continue(legs, cdrs)[i].cdrId > id
    decreases |cdrs|
  {
    if cdrs != [] {
      ContinueNamesLater(legs + PairOf(cdrs[0], |legs|), cdrs[1..], id);
    }
  }
}
