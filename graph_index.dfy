/** The in-memory graph index: four lookup maps built once from the entity collections
    (zone outgoing routes, zone incoming routes, postcode to zones, zone to postcodes) and
    total getters over them that answer `[]` for an unknown key. */
module Index {
  import opened Common
  import opened DataModel

  /** Key of a provider zone: (providerId, zoneCode). */
  datatype ZoneKey = ZoneKey(provider: string, zone: string)

  /** The index. `providerZones` is the provider-keyed dict of zones in insertion order;
      `zoneRoutes` is the list of route lists held as the values of the provider-keyed route dict
      (its keys are never read). */
  datatype GraphIndex = GraphIndex(
    postcodes: map<string, Postcode>,
    providerZones: seq<(string, seq<ProviderZone>)>,
    zoneRoutes: seq<seq<ProviderZoneRoute>>,
    zoneAdj: map<ZoneKey, seq<ProviderZoneRoute>>,
    revZoneAdj: map<ZoneKey, seq<ProviderZoneRoute>>,
    pcToZones: map<string, seq<ZoneKey>>,
    zoneToPCs: map<ZoneKey, seq<string>>)
  {
    /** The four maps are the ones the constructor derives from the collections. */
    ghost predicate Valid() {
      && zoneAdj == Group(Keyed(Flatten(zoneRoutes), true))
      && revZoneAdj == Group(Keyed(Flatten(zoneRoutes), false))
      && pcToZones == Group(MembershipEntries(providerZones))
      && zoneToPCs == LastWrite(ZoneEntries(providerZones))
    }

    function GetOutgoingRoutes(providerId: string, fromZone: string): seq<ProviderZoneRoute> {
      var k := ZoneKey(providerId, fromZone);
      if k in zoneAdj then zoneAdj[k] else []
    }

    function GetIncomingRoutes(providerId: string, toZone: string): seq<ProviderZoneRoute> {
      var k := ZoneKey(providerId, toZone);
      if k in revZoneAdj then revZoneAdj[k] else []
    }

    function GetZonesForPostcode(postcode: string): seq<ZoneKey> {
      if postcode in pcToZones then pcToZones[postcode] else []
    }

    function GetPostcodesForZone(providerId: string, zoneCode: string): seq<string> {
      var k := ZoneKey(providerId, zoneCode);
      if k in zoneToPCs then zoneToPCs[k] else []
    }

    /** The provider keys, in insertion order. */
    function GetProviders(): (ps: seq<string>)
      ensures |ps| == |providerZones|
      ensures forall i :: 0 <= i < |ps| ==> ps[i] == providerZones[i].0
      ensures forall p :: p in ps <==> exists i :: 0 <= i < |providerZones| && providerZones[i].0 == p
    {
      seq(|providerZones|, i requires 0 <= i < |providerZones| => providerZones[i].0)
    }
  }

  /** The index is the one its constructor builds and no route is priced below zero for the
      weight `w`. */
  ghost predicate NonNegativePrices(idx: GraphIndex, w: real) {
    idx.Valid() && forall r :: r in Flatten(idx.zoneRoutes) ==> r.CalculateCost(w) >= 0.0
  }

  /** The key a route is filed under: its source zone for the outgoing map, its target zone
      for the incoming map, in both cases with the route's own provider. */
  function RouteKey(r: ProviderZoneRoute, outgoing: bool): ZoneKey {
    if outgoing then ZoneKey(r.providerId, r.fromZone) else ZoneKey(r.providerId, r.toZone)
  }

  /** The routes paired with their keys, in input order. */
  function Keyed(rs: seq<ProviderZoneRoute>, outgoing: bool): seq<(ZoneKey, ProviderZoneRoute)> {
    if rs == [] then []
    else Keyed(rs[..|rs| - 1], outgoing) + [(RouteKey(rs[|rs| - 1], outgoing), rs[|rs| - 1])]
  }

  lemma KeyedSnoc(rs: seq<ProviderZoneRoute>, r: ProviderZoneRoute, outgoing: bool)
    ensures Keyed(rs + [r], outgoing) == Keyed(rs, outgoing) + [(RouteKey(r, outgoing), r)]
  {
    assert (rs + [r])[..|rs|] == rs;
  }

  lemma {:induction false} InKeyed(rs: seq<ProviderZoneRoute>, outgoing: bool, k: ZoneKey, r: ProviderZoneRoute)
    ensures (k, r) in Keyed(rs, outgoing) <==> r in rs && RouteKey(r, outgoing) == k
  {
    if rs != [] {
      var n := |rs| - 1;
      InKeyed(rs[..n], outgoing, k, r);
      assert rs == rs[..n] + [rs[n]];
    }
  }

  /** (postcode, zone key) for every postcode of every zone, in iteration order. */
  function PostcodeEntries(pcs: seq<string>, key: ZoneKey): seq<(string, ZoneKey)> {
    if pcs == [] then [] else PostcodeEntries(pcs[..|pcs| - 1], key) + [(pcs[|pcs| - 1], key)]
  }

  function ZoneListEntries(p: string, zones: seq<ProviderZone>): seq<(string, ZoneKey)> {
    if zones == [] then []
    else
      var z := zones[|zones| - 1];
      ZoneListEntries(p, zones[..|zones| - 1]) + PostcodeEntries(z.postcodes, ZoneKey(p, z.zoneCode))
  }

  function MembershipEntries(pz: seq<(string, seq<ProviderZone>)>): seq<(string, ZoneKey)> {
    if pz == [] then []
    else MembershipEntries(pz[..|pz| - 1]) + ZoneListEntries(pz[|pz| - 1].0, pz[|pz| - 1].1)
  }

  /** (zone key, member list) for every zone, in iteration order; the key's provider is the dict
      key the zone is listed under. */
  function ZoneKeyEntries(p: string, zones: seq<ProviderZone>): seq<(ZoneKey, seq<string>)> {
    if zones == [] then []
    else
      var z := zones[|zones| - 1];
      ZoneKeyEntries(p, zones[..|zones| - 1]) + [(ZoneKey(p, z.zoneCode), z.postcodes)]
  }

  function ZoneEntries(pz: seq<(string, seq<ProviderZone>)>): seq<(ZoneKey, seq<string>)> {
    if pz == [] then []
    else ZoneEntries(pz[..|pz| - 1]) + ZoneKeyEntries(pz[|pz| - 1].0, pz[|pz| - 1].1)
  }

  /** The postcode records keyed by code (a dict comprehension: a later record with the same code
      replaces an earlier one). */
  function CodeEntries(ps: seq<Postcode>): seq<(string, Postcode)> {
    if ps == [] then [] else CodeEntries(ps[..|ps| - 1]) + [(ps[|ps| - 1].code, ps[|ps| - 1])]
  }

  // ---------------------------------------------------------------------------------------
  // Construction

  /** Builds the outgoing (`outgoing`) or incoming adjacency: every route appended, in input
      order, to the list under its key. */
  method BuildRouteAdjacency(zoneRoutes: seq<seq<ProviderZoneRoute>>, outgoing: bool)
    returns (adj: map<ZoneKey, seq<ProviderZoneRoute>>)
    ensures adj == Group(Keyed(Flatten(zoneRoutes), outgoing))
  {
    adj := map[];
    var i := 0;
    while i < |zoneRoutes|
      invariant 0 <= i <= |zoneRoutes|
      invariant adj == Group(Keyed(Flatten(zoneRoutes[..i]), outgoing))
    {
      var routeList := zoneRoutes[i];
      ghost var done := Flatten(zoneRoutes[..i]);
      var j := 0;
      assert done + routeList[..0] == done;
      while j < |routeList|
        invariant 0 <= j <= |routeList|
        invariant adj == Group(Keyed(done + routeList[..j], outgoing))
      {
        var route := routeList[j];
        var key := RouteKey(route, outgoing);
        // `if key not in adj: adj[key] = []` then `adj[key].append(route)`
        var existing := if key in adj then adj[key] else [];
        AdjacencyStep(adj, done, routeList, j, outgoing);
        adj := adj[key := existing + [route]];
        j := j + 1;
      }
      AdjacencyRow(zoneRoutes, i, j);
      i := i + 1;
    }
    assert zoneRoutes[..i] == zoneRoutes;
  }

  lemma AdjacencyStep(adj: map<ZoneKey, seq<ProviderZoneRoute>>, done: seq<ProviderZoneRoute>,
                      routeList: seq<ProviderZoneRoute>, j: nat, outgoing: bool)
    requires j < |routeList| && adj == Group(Keyed(done + routeList[..j], outgoing))
    ensures var key := RouteKey(routeList[j], outgoing);
      adj[key := (if key in adj then adj[key] else []) + [routeList[j]]]
        == Group(Keyed(done + routeList[..j + 1], outgoing))
  {
    var prefix := done + routeList[..j];
    assert done + routeList[..j + 1] == prefix + [routeList[j]];
    KeyedSnoc(prefix, routeList[j], outgoing);
    GroupSnoc(Keyed(prefix, outgoing), RouteKey(routeList[j], outgoing), routeList[j]);
  }

  lemma AdjacencyRow(zoneRoutes: seq<seq<ProviderZoneRoute>>, i: nat, j: nat)
    requires i < |zoneRoutes| && j == |zoneRoutes[i]|
    ensures Flatten(zoneRoutes[..i]) + zoneRoutes[i][..j] == Flatten(zoneRoutes[..i + 1])
  {
    assert zoneRoutes[i][..j] == zoneRoutes[i];
    FlattenSnoc(zoneRoutes, i);
  }

  /** Builds postcode -> [(providerId, zoneCode)]: for every zone under every provider key, the
      zone's key is appended under each of its member postcodes. */
  method BuildPCtoZoneMap(providerZones: seq<(string, seq<ProviderZone>)>)
    returns (pcToZones: map<string, seq<ZoneKey>>)
    ensures pcToZones == Group(MembershipEntries(providerZones))
  {
    pcToZones := map[];
    var i := 0;
    while i < |providerZones|
      invariant 0 <= i <= |providerZones|
      invariant pcToZones == Group(MembershipEntries(providerZones[..i]))
    {
      var (providerId, zones) := providerZones[i];
      ghost var done := MembershipEntries(providerZones[..i]);
      var j := 0;
      assert done + ZoneListEntries(providerId, zones[..0]) == done;
      while j < |zones|
        invariant 0 <= j <= |zones|
        invariant pcToZones == Group(done + ZoneListEntries(providerId, zones[..j]))
      {
        var zone := zones[j];
        var key := ZoneKey(providerId, zone.zoneCode);
        ghost var before := done + ZoneListEntries(providerId, zones[..j]);
        var k := 0;
        assert before + PostcodeEntries(zone.postcodes[..0], key) == before;
        while k < |zone.postcodes|
          invariant 0 <= k <= |zone.postcodes|
          invariant pcToZones == Group(before + PostcodeEntries(zone.postcodes[..k], key))
        {
          var pc := zone.postcodes[k];
          var existing := if pc in pcToZones then pcToZones[pc] else [];
          MembershipStep(pcToZones, before, zone.postcodes, k, key);
          pcToZones := pcToZones[pc := existing + [key]];
          k := k + 1;
        }
        ZoneListEntriesSnoc(done, providerId, zones, j);
        j := j + 1;
      }
      MembershipEntriesSnoc(providerZones, i);
      i := i + 1;
    }
    assert providerZones[..i] == providerZones;
  }

  lemma MembershipStep(m: map<string, seq<ZoneKey>>, before: seq<(string, ZoneKey)>, pcs: seq<string>,
                       k: nat, key: ZoneKey)
    requires k < |pcs| && m == Group(before + PostcodeEntries(pcs[..k], key))
    ensures m[pcs[k] := (if pcs[k] in m then m[pcs[k]] else []) + [key]]
         == Group(before + PostcodeEntries(pcs[..k + 1], key))
  {
    assert pcs[..k + 1][..k] == pcs[..k];
    assert before + PostcodeEntries(pcs[..k + 1], key)
        == (before + PostcodeEntries(pcs[..k], key)) + [(pcs[k], key)];
    GroupSnoc(before + PostcodeEntries(pcs[..k], key), pcs[k], key);
  }

  lemma ZoneListEntriesSnoc(done: seq<(string, ZoneKey)>, p: string, zones: seq<ProviderZone>, j: nat)
    requires j < |zones|
    ensures done + ZoneListEntries(p, zones[..j + 1])
         == (done + ZoneListEntries(p, zones[..j]))
            + PostcodeEntries(zones[j].postcodes[..|zones[j].postcodes|], ZoneKey(p, zones[j].zoneCode))
  {
    assert zones[..j + 1][..j] == zones[..j];
    assert zones[j].postcodes[..|zones[j].postcodes|] == zones[j].postcodes;
  }

  lemma MembershipEntriesSnoc(pz: seq<(string, seq<ProviderZone>)>, i: nat)
    requires i < |pz|
    ensures MembershipEntries(pz[..i + 1])
         == MembershipEntries(pz[..i]) + ZoneListEntries(pz[i].0, pz[i].1[..|pz[i].1|])
  {
    assert pz[..i + 1][..i] == pz[..i];
    assert pz[i].1[..|pz[i].1|] == pz[i].1;
  }

  /** Builds (providerId, zoneCode) -> postcodes: each zone's member list assigned under its key,
      so a later zone with the same key replaces an earlier one. */
  method BuildZoneToPCMap(providerZones: seq<(string, seq<ProviderZone>)>)
    returns (zoneToPCs: map<ZoneKey, seq<string>>)
    ensures zoneToPCs == LastWrite(ZoneEntries(providerZones))
  {
    zoneToPCs := map[];
    var i := 0;
    while i < |providerZones|
      invariant 0 <= i <= |providerZones|
      invariant zoneToPCs == LastWrite(ZoneEntries(providerZones[..i]))
    {
      var (providerId, zones) := providerZones[i];
      ghost var done := ZoneEntries(providerZones[..i]);
      var j := 0;
      assert done + ZoneKeyEntries(providerId, zones[..0]) == done;
      while j < |zones|
        invariant 0 <= j <= |zones|
        invariant zoneToPCs == LastWrite(done + ZoneKeyEntries(providerId, zones[..j]))
      {
        var zone := zones[j];
        var key := ZoneKey(providerId, zone.zoneCode);
        ZoneKeyStep(zoneToPCs, done, providerId, zones, j);
        zoneToPCs := zoneToPCs[key := zone.postcodes];
        j := j + 1;
      }
      ZoneEntriesSnoc(providerZones, i);
      i := i + 1;
    }
    assert providerZones[..i] == providerZones;
  }

  lemma ZoneKeyStep(m: map<ZoneKey, seq<string>>, done: seq<(ZoneKey, seq<string>)>, p: string,
                    zones: seq<ProviderZone>, j: nat)
    requires j < |zones| && m == LastWrite(done + ZoneKeyEntries(p, zones[..j]))
    ensures m[ZoneKey(p, zones[j].zoneCode) := zones[j].postcodes]
         == LastWrite(done + ZoneKeyEntries(p, zones[..j + 1]))
  {
    assert zones[..j + 1][..j] == zones[..j];
    var key := ZoneKey(p, zones[j].zoneCode);
    assert done + ZoneKeyEntries(p, zones[..j + 1])
        == (done + ZoneKeyEntries(p, zones[..j])) + [(key, zones[j].postcodes)];
    LastWriteSnoc(done + ZoneKeyEntries(p, zones[..j]), key, zones[j].postcodes);
  }

  lemma ZoneEntriesSnoc(pz: seq<(string, seq<ProviderZone>)>, i: nat)
    requires i < |pz|
    ensures ZoneEntries(pz[..i + 1]) == ZoneEntries(pz[..i]) + ZoneKeyEntries(pz[i].0, pz[i].1[..|pz[i].1|])
  {
    assert pz[..i + 1][..i] == pz[..i];
    assert pz[i].1[..|pz[i].1|] == pz[i].1;
  }

  /** Builds the index from the postcode list, the provider-keyed zones and the route lists. */
  method NewGraphIndex(
    postcodes: seq<Postcode>,
    providerZones: seq<(string, seq<ProviderZone>)>,
    zoneRoutes: seq<seq<ProviderZoneRoute>>)
    returns (g: GraphIndex)
    ensures g.Valid()
    ensures g.postcodes == LastWrite(CodeEntries(postcodes))
    ensures g.providerZones == providerZones && g.zoneRoutes == zoneRoutes
  {
    var zoneAdj := BuildRouteAdjacency(zoneRoutes, true);
    var revZoneAdj := BuildRouteAdjacency(zoneRoutes, false);
    var pcToZones := BuildPCtoZoneMap(providerZones);
    var zoneToPCs := BuildZoneToPCMap(providerZones);
    g := GraphIndex(LastWrite(CodeEntries(postcodes)), providerZones, zoneRoutes,
                    zoneAdj, revZoneAdj, pcToZones, zoneToPCs);
  }

  /** The zone lists of the provider-keyed dict, in insertion order. */
  function ZoneLists(pz: seq<(string, seq<ProviderZone>)>): (ls: seq<seq<ProviderZone>>)
    ensures |ls| == |pz| && forall i :: 0 <= i < |pz| ==> ls[i] == pz[i].1
  {
    seq(|pz|, i requires 0 <= i < |pz| => pz[i].1)
  }

  /** Every zone of every provider, concatenated in insertion order (the provider argument is
      not consulted). */
  method GetAllZones(g: GraphIndex, providerId: string) returns (zones: seq<ProviderZone>)
    ensures zones == Flatten(ZoneLists(g.providerZones))
    ensures forall z :: z in zones <==>
      exists i :: 0 <= i < |g.providerZones| && z in g.providerZones[i].1
  {
    ghost var lists := ZoneLists(g.providerZones);
    zones := [];
    var i := 0;
    while i < |g.providerZones|
      invariant 0 <= i <= |g.providerZones|
      invariant zones == Flatten(lists[..i])
    {
      FlattenSnoc(lists, i);
      zones := zones + g.providerZones[i].1;
      i := i + 1;
    }
    assert lists[..i] == lists;
    forall z ensures z in zones <==> exists j :: 0 <= j < |g.providerZones| && z in g.providerZones[j].1 {
      InFlatten(lists, z);
    }
  }

  // ---------------------------------------------------------------------------------------
  // What the getters answer

  /** The outgoing routes of (p, z) are the routes of that provider leaving that zone, in input
      order; `[]` when there are none. */
  lemma {:induction false} OutgoingRoutesSpec(g: GraphIndex, p: string, z: string, r: ProviderZoneRoute)
    requires g.Valid()
    ensures g.GetOutgoingRoutes(p, z) == ValuesAt(Keyed(Flatten(g.zoneRoutes), true), ZoneKey(p, z))
    ensures r in g.GetOutgoingRoutes(p, z) <==>
      r in Flatten(g.zoneRoutes) && r.providerId == p && r.fromZone == z
  {
    var e := Keyed(Flatten(g.zoneRoutes), true);
    GroupIsValuesAt(e, ZoneKey(p, z));
    InValuesAt(e, ZoneKey(p, z), r);
    InKeyed(Flatten(g.zoneRoutes), true, ZoneKey(p, z), r);
  }

  /** The incoming routes of (p, z) are the routes of that provider arriving at that zone, in
      input order; `[]` when there are none. */
  lemma {:induction false} IncomingRoutesSpec(g: GraphIndex, p: string, z: string, r: ProviderZoneRoute)
    requires g.Valid()
    ensures g.GetIncomingRoutes(p, z) == ValuesAt(Keyed(Flatten(g.zoneRoutes), false), ZoneKey(p, z))
    ensures r in g.GetIncomingRoutes(p, z) <==>
      r in Flatten(g.zoneRoutes) && r.providerId == p && r.toZone == z
  {
    var e := Keyed(Flatten(g.zoneRoutes), false);
    GroupIsValuesAt(e, ZoneKey(p, z));
    InValuesAt(e, ZoneKey(p, z), r);
    InKeyed(Flatten(g.zoneRoutes), false, ZoneKey(p, z), r);
  }

  /** A route is an outgoing route of its source zone exactly when it is an incoming route of its
      target zone. */
  lemma OutgoingIncomingMirror(g: GraphIndex, r: ProviderZoneRoute)
    requires g.Valid()
    ensures r in g.GetOutgoingRoutes(r.providerId, r.fromZone) <==>
            r in g.GetIncomingRoutes(r.providerId, r.toZone)
  {
    OutgoingRoutesSpec(g, r.providerId, r.fromZone, r);
    IncomingRoutesSpec(g, r.providerId, r.toZone, r);
  }

  lemma {:induction false} InPostcodeEntries(pcs: seq<string>, key: ZoneKey, pc: string, k: ZoneKey)
    ensures (pc, k) in PostcodeEntries(pcs, key) <==> pc in pcs && k == key
  {
    if pcs != [] {
      var n := |pcs| - 1;
      InPostcodeEntries(pcs[..n], key, pc, k);
      assert pcs == pcs[..n] + [pcs[n]];
    }
  }

  lemma {:induction false} InZoneListEntries(p: string, zones: seq<ProviderZone>, pc: string, k: ZoneKey)
    ensures (pc, k) in ZoneListEntries(p, zones) <==>
      exists zone :: zone in zones && k == ZoneKey(p, zone.zoneCode) && pc in zone.postcodes
  {
    if zones != [] {
      var n := |zones| - 1;
      var z := zones[n];
      InZoneListEntries(p, zones[..n], pc, k);
      InPostcodeEntries(z.postcodes, ZoneKey(p, z.zoneCode), pc, k);
      assert zones == zones[..n] + [z];
      if exists zone :: zone in zones && k == ZoneKey(p, zone.zoneCode) && pc in zone.postcodes {
        var zone :| zone in zones && k == ZoneKey(p, zone.zoneCode) && pc in zone.postcodes;
        if zone != z {
          assert zone in zones[..n];
        }
      }
    }
  }

  /** Some zone filed under one of the provider keys of `pz` has key `k` and lists `pc`. */
  ghost predicate ListsPostcode(pz: seq<(string, seq<ProviderZone>)>, pc: string, k: ZoneKey) {
    exists i, zone :: 0 <= i < |pz| && zone in pz[i].1 && k == ZoneKey(pz[i].0, zone.zoneCode)
                      && pc in zone.postcodes
  }

  lemma ListsPostcodeSnoc(pz: seq<(string, seq<ProviderZone>)>, pc: string, k: ZoneKey)
    requires pz != []
    ensures var n := |pz| - 1;
      ListsPostcode(pz, pc, k) <==>
        ListsPostcode(pz[..n], pc, k) ||
        exists zone :: zone in pz[n].1 && k == ZoneKey(pz[n].0, zone.zoneCode) && pc in zone.postcodes
  {
    var n := |pz| - 1;
    if ListsPostcode(pz, pc, k) {
      var i, zone :| 0 <= i < |pz| && zone in pz[i].1 && k == ZoneKey(pz[i].0, zone.zoneCode)
                     && pc in zone.postcodes;
      if i < n {
        assert pz[..n][i] == pz[i];
      }
    }
    if ListsPostcode(pz[..n], pc, k) {
      var i, zone :| 0 <= i < n && zone in pz[..n][i].1 && k == ZoneKey(pz[..n][i].0, zone.zoneCode)
                     && pc in zone.postcodes;
      assert pz[..n][i] == pz[i];
    }
  }

  lemma {:induction false} InMembershipEntries(pz: seq<(string, seq<ProviderZone>)>, pc: string, k: ZoneKey)
    ensures (pc, k) in MembershipEntries(pz) <==> ListsPostcode(pz, pc, k)
  {
    if pz != [] {
      var n := |pz| - 1;
      InMembershipEntries(pz[..n], pc, k);
      InZoneListEntries(pz[n].0, pz[n].1, pc, k);
      ListsPostcodeSnoc(pz, pc, k);
    }
  }

  /** (p, zc) is listed for a postcode exactly when some zone filed under provider key p has code
      zc and lists the postcode (the dict key is used, not the zone's own providerId). */
  lemma ZonesForPostcodeSpec(g: GraphIndex, pc: string, p: string, zc: string)
    requires g.Valid()
    ensures ZoneKey(p, zc) in g.GetZonesForPostcode(pc) <==>
      exists i, zone :: 0 <= i < |g.providerZones| && zone in g.providerZones[i].1
                        && g.providerZones[i].0 == p && zone.zoneCode == zc && pc in zone.postcodes
  {
    var e := MembershipEntries(g.providerZones);
    GroupIsValuesAt(e, pc);
    InValuesAt(e, pc, ZoneKey(p, zc));
    InMembershipEntries(g.providerZones, pc, ZoneKey(p, zc));
  }

  lemma {:induction false} InZoneKeyEntries(p: string, zones: seq<ProviderZone>, k: ZoneKey, pcs: seq<string>)
    ensures (k, pcs) in ZoneKeyEntries(p, zones) <==>
      exists zone :: zone in zones && k == ZoneKey(p, zone.zoneCode) && zone.postcodes == pcs
  {
    if zones != [] {
      var n := |zones| - 1;
      InZoneKeyEntries(p, zones[..n], k, pcs);
      assert zones == zones[..n] + [zones[n]];
    }
  }

  /** Some provider key of `pz` files a zone giving the entry `(k, pcs)`. */
  ghost predicate FilesZone(pz: seq<(string, seq<ProviderZone>)>, k: ZoneKey, pcs: seq<string>) {
    exists i :: 0 <= i < |pz| && (k, pcs) in ZoneKeyEntries(pz[i].0, pz[i].1)
  }

  lemma FilesZoneSnoc(pz: seq<(string, seq<ProviderZone>)>, k: ZoneKey, pcs: seq<string>)
    requires pz != []
    ensures var n := |pz| - 1;
      FilesZone(pz, k, pcs) <==> FilesZone(pz[..n], k, pcs) || (k, pcs) in ZoneKeyEntries(pz[n].0, pz[n].1)
  {
    var n := |pz| - 1;
    if FilesZone(pz, k, pcs) {
      var i :| 0 <= i < |pz| && (k, pcs) in ZoneKeyEntries(pz[i].0, pz[i].1);
      if i < n {
        assert pz[..n][i] == pz[i];
      }
    }
    if FilesZone(pz[..n], k, pcs) {
      var i :| 0 <= i < n && (k, pcs) in ZoneKeyEntries(pz[..n][i].0, pz[..n][i].1);
      assert pz[..n][i] == pz[i];
    }
  }

  lemma {:induction false} InZoneEntries(pz: seq<(string, seq<ProviderZone>)>, k: ZoneKey, pcs: seq<string>)
    ensures (k, pcs) in ZoneEntries(pz) <==> FilesZone(pz, k, pcs)
  {
    if pz != [] {
      InZoneEntries(pz[..|pz| - 1], k, pcs);
      FilesZoneSnoc(pz, k, pcs);
    }
  }

  /** Some provider key `p` lists a zone with code `zc`. */
  ghost predicate ZoneListed(pz: seq<(string, seq<ProviderZone>)>, p: string, zc: string) {
    exists i, zone :: 0 <= i < |pz| && zone in pz[i].1 && pz[i].0 == p && zone.zoneCode == zc
  }

  /** A zone key is in the zone -> postcodes map exactly when some provider lists that zone. */
  lemma ZoneKeyKnown(pz: seq<(string, seq<ProviderZone>)>, p: string, zc: string)
    ensures ZoneKey(p, zc) in LastWrite(ZoneEntries(pz)) <==> ZoneListed(pz, p, zc)
  {
    var k := ZoneKey(p, zc);
    var e := ZoneEntries(pz);
    LastWriteWins(e, k);
    if ZoneListed(pz, p, zc) {
      var i, zone :| 0 <= i < |pz| && zone in pz[i].1 && pz[i].0 == p && zone.zoneCode == zc;
      InZoneKeyEntries(pz[i].0, pz[i].1, k, zone.postcodes);
      InZoneEntries(pz, k, zone.postcodes);
      assert (k, zone.postcodes) in e;
    } else if k in LastWrite(e) {
      var j :| 0 <= j < |e| && e[j].0 == k;
      assert (k, e[j].1) in e;
      InZoneEntries(pz, k, e[j].1);
      var i :| 0 <= i < |pz| && (k, e[j].1) in ZoneKeyEntries(pz[i].0, pz[i].1);
      InZoneKeyEntries(pz[i].0, pz[i].1, k, e[j].1);
      assert false;
    }
  }

  /** An unlisted zone has no postcodes; a listed one answers the member list of the last zone
      entry with that key. */
  lemma PostcodesForZoneSpec(g: GraphIndex, p: string, zc: string)
    requires g.Valid()
    ensures !ZoneListed(g.providerZones, p, zc) ==> g.GetPostcodesForZone(p, zc) == []
    ensures ZoneListed(g.providerZones, p, zc)
            ==> var e := ZoneEntries(g.providerZones);
                exists i :: 0 <= i < |e| && e[i] == (ZoneKey(p, zc), g.GetPostcodesForZone(p, zc)) &&
                  forall j :: i < j < |e| ==> e[j].0 != ZoneKey(p, zc)
  {
    ZoneKeyKnown(g.providerZones, p, zc);
    LastWriteWins(ZoneEntries(g.providerZones), ZoneKey(p, zc));
  }

  /** A postcode code is known exactly when some record has it, and it maps to a record with
      that code. */
  lemma {:induction false} PostcodeMapSpec(ps: seq<Postcode>, code: string)
    ensures code in LastWrite(CodeEntries(ps)) <==> exists p :: p in ps && p.code == code
    ensures code in LastWrite(CodeEntries(ps)) ==> LastWrite(CodeEntries(ps))[code].code == code
  {
    if ps != [] {
      var n := |ps| - 1;
      PostcodeMapSpec(ps[..n], code);
      assert ps == ps[..n] + [ps[n]];
    }
  }
}
