/** The two-phase transfer of a call to the region of the account's own trunk. */
module MegaTrunk {
  import opened Models

  datatype ServiceTrunk = ServiceTrunk(
    clientId: int, trunkId: int, serverId: int, activation: int, expire: int, origEnabled: bool, termEnabled: bool)
  datatype ServiceNumber = ServiceNumber(clientId: int, serverId: int)

  /** The trunk services of every account, the trunks and the servers with their hubs. */
  datatype Data = Data(services: map<int, seq<ServiceTrunk>>, trunks: set<int>, hubs: map<int, int>)

  function ServicesOf(d: Data, clientId: int): seq<ServiceTrunk> {
    if clientId in d.services then d.services[clientId] else []
  }

  /** The regions that count as one with a region: all servers of its hub, or itself alone;
      none for a server that is not known. */
  function Siblings(d: Data, region: int): set<int> {
    if region !in d.hubs then {}
    else if d.hubs[region] > 0 then set s | s in d.hubs && d.hubs[s] == d.hubs[region]
    else {region}
  }

  lemma OwnSibling(d: Data, region: int)
    ensures region in Siblings(d, region) <==> region in d.hubs
  {
  }

  predicate Active(t: ServiceTrunk, now: int) {
    t.activation <= now <= t.expire
  }

  predicate TakesCallsFor(t: ServiceTrunk, clientId: int, now: int) {
    Active(t, now) && t.clientId == clientId && t.termEnabled
  }

  predicate BringsCallsOf(t: ServiceTrunk, clientId: int, now: int, source: int) {
    Active(t, now) && t.clientId == clientId && t.origEnabled && t.trunkId == source
  }

  /** The trunk service that decides for the called number: the first active one that takes calls. */
  function FirstTaking(s: seq<ServiceTrunk>, clientId: int, now: int): Option<ServiceTrunk> {
    if s == [] then None
    else if TakesCallsFor(s[0], clientId, now) then Some(s[0])
    else FirstTaking(s[1..], clientId, now)
  }

  datatype Phase = NoPhase | ToRegion(region: int, forceTerm: bool) | ToTrunk(trunk: int)

  /** What a call from a source trunk in a region is to do. */
  function PhaseAt(d: Data, now: int, region: int, source: Option<int>, a: Option<ServiceNumber>,
                   b: Option<ServiceNumber>): Phase {
    if source.None? then NoPhase
    else
      var taking := if b.Some? then FirstTaking(ServicesOf(d, b.value.clientId), b.value.clientId, now) else None;
      if taking.Some? then
        if taking.value.serverId !in Siblings(d, region) then ToRegion(taking.value.serverId, true)
        else if taking.value.trunkId in d.trunks then ToTrunk(taking.value.trunkId)
        else NoPhase
      else if a.Some? && a.value.serverId !in Siblings(d, region) && source.value in d.trunks &&
              exists i :: 0 <= i < |ServicesOf(d, a.value.clientId)| &&
                BringsCallsOf(ServicesOf(d, a.value.clientId)[i], a.value.clientId, now, source.value)
      then ToRegion(a.value.serverId, false)
      else NoPhase
  }

  class StateMegaTrunk {
    const data: Data
    const siblings: set<int>
    const source: Option<int>
    const numberA: Option<ServiceNumber>
    const numberB: Option<ServiceNumber>
    var isPhase1: bool
    var isPhase2: bool
    var destRegion: int
    var destTrunk: Option<int>
    var forceTermAuth: bool
    var skipTermTariff: bool

    constructor (d: Data, region: int, s: Option<int>, a: Option<ServiceNumber>, b: Option<ServiceNumber>)
      ensures Fresh() && data == d && siblings == Siblings(d, region) && source == s && numberA == a && numberB == b
    {
      data, siblings, source, numberA, numberB := d, Siblings(d, region), s, a, b;
      isPhase1, isPhase2, destRegion, destTrunk := false, false, 0, None;
      forceTermAuth, skipTermTariff := false, false;
    }

    predicate Fresh()
      reads this
    {
      !isPhase1 && !isPhase2 && !forceTermAuth && !skipTermTariff
    }

    ghost predicate Shows(p: Phase)
      reads this
    {
      match p
      case NoPhase => Fresh()
      case ToRegion(region, force) => isPhase1 && !isPhase2 && destRegion == region && forceTermAuth == force &&
        !skipTermTariff
      case ToTrunk(trunk) => !isPhase1 && isPhase2 && destTrunk == Some(trunk) && !forceTermAuth && skipTermTariff
    }

    method PhaseCalc(now: int, ghost region: int)
      requires Fresh() && siblings == Siblings(data, region)
      modifies this
      ensures Shows(PhaseAt(data, now, region, source, numberA, numberB))
      ensures !(isPhase1 && isPhase2)
    {
      hide Siblings;
      if source.None? {
        return;
      }
      if numberB.Some? {
        var client := numberB.value.clientId;
        var list := ServicesOf(data, client);
        var i := 0;
        assert list[0..] == list;
        while i < |list|
          invariant 0 <= i <= |list| && Fresh()
          invariant FirstTaking(list[i..], client, now) == FirstTaking(list, client, now)
        {
          if TakesCallsFor(list[i], client, now) {
            if list[i].serverId !in siblings {
              destRegion := list[i].serverId;
              isPhase1 := true;
              forceTermAuth := true;
              return;
            }
            destTrunk := if list[i].trunkId in data.trunks then Some(list[i].trunkId) else None;
            if destTrunk.Some? {
              skipTermTariff := true;
              isPhase2 := true;
            }
            return;
          }
          assert list[i..][1..] == list[i + 1..];
          i := i + 1;
        }
        assert list[i..] == [];
      }
      if numberA.Some? {
        var client := numberA.value.clientId;
        var list := ServicesOf(data, client);
        var i := 0;
        while i < |list|
          invariant 0 <= i <= |list| && Fresh()
          invariant forall j :: 0 <= j < i && BringsCallsOf(list[j], client, now, source.value) ==>
              numberA.value.serverId in siblings || source.value !in data.trunks
        {
          if BringsCallsOf(list[i], client, now, source.value) {
            destTrunk := if list[i].trunkId in data.trunks then Some(list[i].trunkId) else None;
            if numberA.value.serverId !in siblings && destTrunk.Some? {
              isPhase1 := true;
              destRegion := numberA.value.serverId;
              return;
            }
          }
          i := i + 1;
        }
      }
    }
  }

  lemma {:induction false} FirstTakingIsFirst(s: seq<ServiceTrunk>, clientId: int, now: int)
    ensures var r := FirstTaking(s, clientId, now);
            (r.None? <==> forall i :: 0 <= i < |s| ==> !TakesCallsFor(s[i], clientId, now)) &&
            (r.Some? ==> exists i :: 0 <= i < |s| && s[i] == r.value && TakesCallsFor(s[i], clientId, now) &&
                                     forall j :: 0 <= j < i ==> !TakesCallsFor(s[j], clientId, now))
  {
    hide TakesCallsFor;
    if s != [] && !TakesCallsFor(s[0], clientId, now) {
      FirstTakingIsFirst(s[1..], clientId, now);
      assert forall i :: 0 < i < |s| ==> s[i] == s[1..][i - 1];
      if FirstTaking(s[1..], clientId, now).Some? {
        var r := FirstTaking(s[1..], clientId, now).value;
        var i :| 0 <= i < |s[1..]| && s[1..][i] == r && TakesCallsFor(s[1..][i], clientId, now) &&
                 forall j :: 0 <= j < i ==> !TakesCallsFor(s[1..][j], clientId, now);
        assert s[i + 1] == r;
        forall j | 0 <= j < i + 1
          ensures !TakesCallsFor(s[j], clientId, now)
        {
          if j > 0 { assert s[j] == s[1..][j - 1]; }
        }
      }
    }
  }

  /** A call sent on to a region is not sent on again from there, from whatever trunk it comes
      in, exactly when that region is a known server. */
  lemma NoPingPongIff(d: Data, now: int, region: int, source: Option<int>, a: Option<ServiceNumber>,
                      b: Option<ServiceNumber>)
    requires PhaseAt(d, now, region, source, a, b).ToRegion?
    ensures var next := PhaseAt(d, now, region, source, a, b).region;
            (forall from: Option<int> :: !PhaseAt(d, now, next, from, a, b).ToRegion?) <==> next in d.hubs
  {
    hide Siblings, FirstTaking, BringsCallsOf;
    var next := PhaseAt(d, now, region, source, a, b).region;
    OwnSibling(d, next);
    if next in d.hubs {
      forall from: Option<int>
        ensures !PhaseAt(d, now, next, from, a, b).ToRegion?
      {
        NotTwice(d, now, region, source, from, a, b);
      }
    } else {
      NoSiblings(d, next);
      assert PhaseAt(d, now, next, source, a, b).ToRegion?;
    }
  }

  /** Such a call, sent on for ever: the account of the called number has its trunk on server 99, which
      is not among the servers, so the call is sent there from server 1 and from 99 to 99 again. */
  lemma SentOnForEver(d: Data, source: int)
    requires d == Data(map[7 := [ServiceTrunk(7, 5, 99, 0, 100, true, true)]], {5}, map[1 := 0])
    ensures PhaseAt(d, 50, 1, Some(source), None, Some(ServiceNumber(7, 1))) == ToRegion(99, true)
    ensures PhaseAt(d, 50, 99, Some(source), None, Some(ServiceNumber(7, 1))) == ToRegion(99, true)
  {
    NoSiblings(d, 99);
    assert ServicesOf(d, 7)[0] == ServiceTrunk(7, 5, 99, 0, 100, true, true);
  }

  lemma NoSiblings(d: Data, region: int)
    requires region !in d.hubs
    ensures Siblings(d, region) == {}
  {
  }

  lemma NotTwice(d: Data, now: int, region: int, source: Option<int>, from: Option<int>, a: Option<ServiceNumber>,
                 b: Option<ServiceNumber>)
    requires PhaseAt(d, now, region, source, a, b).ToRegion?
    requires var next := PhaseAt(d, now, region, source, a, b).region; next in Siblings(d, next)
    ensures !PhaseAt(d, now, PhaseAt(d, now, region, source, a, b).region, from, a, b).ToRegion?
  {
    hide Siblings, FirstTaking, BringsCallsOf;
  }
}
