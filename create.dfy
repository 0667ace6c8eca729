/**
 * The validation half of `vic-machine create` (cmd/vic-machine/create/create.go):
 * the command's flag values are checked, defaulted and turned into the
 * installer's configuration before anything is deployed.
 *
 * The text parsers (net.ParseCIDR, net.ParseIP, ip.ParseIPandMask, ip.Range's
 * text form), name resolution, IP-in-network tests, certificate handling and
 * the registry URL parser are parameters or outcomes given to the methods.
 */
module Create {
  import opened Wrappers
  import opened Strings
  import opened NetTypes
  import opened VnetParams
  import Target

  /**
   * Longest display name the appliance's virtual switch accepts, counted as Go's
   * `len` counts a string: in UTF-8 bytes.
   */
  const MaxDisplayNameLen: nat := 31

  /**
   * The limit is on bytes, not characters: sixteen copies of `é` are sixteen
   * characters but thirty-two bytes, so such a name is too long.
   */
  lemma AccentedNameExceedsLimit()
    ensures var name := seq(16, _ => 'é');
            |name| <= MaxDisplayNameLen && Utf8Len(name) == 32 && Utf8Len(name) > MaxDisplayNameLen
  {
    Utf8LenRepeat('é', 16);
  }

  /** The port group used when --external-network is not given. */
  const DefaultExternalNetwork: string := "VM Network"

  /** data.NetworkConfig: a port group and an optional static address with its gateway. */
  datatype NetworkConfig = NetworkConfig(Name: string, Gateway: IPNet, IP: IPNet)

  const ZeroNetworkConfig: NetworkConfig := NetworkConfig("", ZeroIPNet, ZeroIPNet)

  datatype CreateError =
    /** HasCredentials failed */
    | Credentials(targetError: Target.TargetError)
    /** "key and cert should be specified at the same time" */
    | KeyCertMismatch
    /** "Display name <name> exceeds the permitted 31 characters limit..." */
    | DisplayNameTooLong(name: string)
    /** a gateway, IP range or DNS option did not parse */
    | ContainerNetworkParam(paramError: ParamError)
    /** a --container-network value did not split */
    | ContainerNetworkSplit(splitError: SplitError)
    /** "Inconsistent container network configuration." */
    | InconsistentContainerNetworks
    /** "Error parsing bridge network ip range: ..." */
    | BridgeRangeInvalid(range: string)
    /** "<net> network IP and gateway must both be specified" */
    | IPGatewayPairing(netName: string)
    /** "Invalid <net> network gateway: ..." */
    | InvalidGateway(netName: string)
    /** "Invalid <net> network address - neither IP nor resolvable hostname" */
    | UnresolvableAddress(netName: string)
    /** "Invalid <net> network address: <ip> does not resolve to a gateway compatible IP" */
    | NoCompatibleAddress(netName: string, staticIP: string)
    /** "Invalid DNS server specified" */
    | InvalidDNSServer
    /** "Volume store input must be in format datastore/path:label" */
    | VolumeStoreFormat
    /** "Error occurred while processing volume stores: ..." */
    | VolumeStoresFailed(storeError: CreateError)
    /** loading or generating the TLS certificates failed */
    | CertificatesFailed
    /** "<registry> is an invalid format for registry url" */
    | InsecureRegistryInvalid

  /** The errors processContainerNetworks returns. */
  predicate ContainerNetworkError(e: CreateError) {
    e.ContainerNetworkParam? || e.ContainerNetworkSplit? || e.InconsistentContainerNetworks?
  }

  /** The errors processNetwork returns. */
  predicate NetworkError(e: CreateError) {
    e.IPGatewayPairing? || e.InvalidGateway? || e.UnresolvableAddress? || e.NoCompatibleAddress?
  }

  /** The flag values processParams reads; only the external network name is rewritten. */
  datatype Flags = Flags(
    cert: string,
    key: string,
    containerNetworks: seq<string>,
    containerNetworksGateway: seq<string>,
    containerNetworksIPRanges: seq<string>,
    containerNetworksDNS: seq<string>,
    volumeStores: seq<string>,
    dns: seq<string>,
    clientNetworkName: string,
    clientNetworkGateway: string,
    clientNetworkIP: string,
    externalNetworkName: string,
    externalNetworkGateway: string,
    externalNetworkIP: string,
    managementNetworkName: string,
    managementNetworkGateway: string,
    managementNetworkIP: string,
    BridgeIPRange: string)

  // ------------------------------------------------------ container networks

  /** The four Mapped* maps of the configuration. */
  datatype NetworkMaps = NetworkMaps(
    mapped: map<string, string>,
    gateways: map<string, IPNet>,
    ranges: map<string, seq<IPRange>>,
    dns: map<string, seq<IP>>)

  /** The parsed gateway, range and DNS entries not yet claimed by a container network. */
  datatype Pending = Pending(gws: map<string, IPNet>, pools: map<string, seq<IPRange>>, dns: map<string, seq<IP>>)

  /** Splits a --container-network value into its vSphere name and its alias. */
  type Splitter = string -> Result<(string, string), SplitError>

  /** The name a container network is known by: its alias when one is given, else its vSphere name. */
  function NetworkKey(vnet: string, alias: string): string {
    if alias != "" then alias else vnet
  }

  /**
   * One container network recorded: its key maps to its vSphere name and to
   * the gateway, ranges and DNS servers pending for that name, or Go's zero
   * values when none are.
   */
  function Record(m: NetworkMaps, left: Pending, vnet: string, alias: string): NetworkMaps {
    var key := NetworkKey(vnet, alias);
    NetworkMaps(
      m.mapped[key := vnet],
      m.gateways[key := Get(left.gws, vnet, ZeroIPNet)],
      m.ranges[key := Get(left.pools, vnet, [])],
      m.dns[key := Get(left.dns, vnet, [])])
  }

  /** What stays pending once a vSphere network has been claimed. */
  function Release(left: Pending, vnet: string): Pending {
    Pending(left.gws - {vnet}, left.pools - {vnet}, left.dns - {vnet})
  }

  /**
   * The loop over --container-network from entry k on. A value that does not
   * split stops the loop, leaving the maps as far as they got.
   */
  function MapNetworks(split: Splitter, cns: seq<string>, k: nat, m: NetworkMaps, left: Pending): (NetworkMaps, Pending, Option<SplitError>)
    requires k <= |cns|
    decreases |cns| - k
  {
    if k == |cns| then (m, left, None)
    else
      match split(cns[k])
      case Err(e) => (m, left, Some(e))
      case Ok((vnet, alias)) => MapNetworks(split, cns, k + 1, Record(m, left, vnet, alias), Release(left, vnet))
  }

  /**
   * processContainerNetworks as a function of its inputs and the maps it
   * starts from: parse the gateways, the ranges and the DNS servers, record
   * every container network, and fail when anything parsed is left over.
   */
  function ContainerNetworks(f: Flags, gwParse: EntryParser<IPNet>, rangeParse: EntryParser<IPRange>,
                             dnsParse: EntryParser<IP>, split: Splitter, m0: NetworkMaps): (NetworkMaps, Option<CreateError>)
  {
    match Gateways(f.containerNetworksGateway, gwParse)
    case Err(e) => (m0, Some(ContainerNetworkParam(e)))
    case Ok(gws) =>
      match Collect(f.containerNetworksIPRanges, rangeParse)
      case Err(e) => (m0, Some(ContainerNetworkParam(e)))
      case Ok(pools) =>
        match Collect(f.containerNetworksDNS, dnsParse)
        case Err(e) => (m0, Some(ContainerNetworkParam(e)))
        case Ok(dns) =>
          var (m, left, e) := MapNetworks(split, f.containerNetworks, 0, m0, Pending(gws, pools, dns));
          if e.Some? then (m, Some(ContainerNetworkSplit(e.value)))
          else if |left.gws| > 0 || |left.pools| > 0 || |left.dns| > 0 then (m, Some(InconsistentContainerNetworks))
          else (m, None)
  }

  /** The vSphere networks named by the entries from k on that split. */
  function Listed(split: Splitter, cns: seq<string>, k: nat): set<string>
    requires k <= |cns|
    decreases |cns| - k
  {
    if k == |cns| then {}
    else (if split(cns[k]).Ok? then {split(cns[k]).value.0} else {}) + Listed(split, cns, k + 1)
  }

  /** The key of an entry that splits. */
  function KeyOf(split: Splitter, cn: string): string
    requires split(cn).Ok?
  {
    NetworkKey(split(cn).value.0, split(cn).value.1)
  }

  /** The keys of the entries from k on that split. */
  function Keys(split: Splitter, cns: seq<string>, k: nat): set<string>
    requires k <= |cns|
    decreases |cns| - k
  {
    if k == |cns| then {}
    else (if split(cns[k]).Ok? then {KeyOf(split, cns[k])} else {}) + Keys(split, cns, k + 1)
  }

  /** Every entry from k on splits. */
  ghost predicate AllSplit(split: Splitter, cns: seq<string>, k: nat)
    requires k <= |cns|
  {
    forall i :: k <= i < |cns| ==> split(cns[i]).Ok?
  }

  /** A network is listed exactly when some entry from k on names it. */
  lemma {:induction false} ListedMeans(split: Splitter, cns: seq<string>, k: nat, vnet: string)
    requires k <= |cns|
    ensures vnet in Listed(split, cns, k) <==>
              exists i :: k <= i < |cns| && split(cns[i]).Ok? && split(cns[i]).value.0 == vnet
    decreases |cns| - k
  {
    if k < |cns| {
      ListedMeans(split, cns, k + 1, vnet);
    }
  }

  /** A key is used from k on exactly when some entry from k on has it. */
  lemma {:induction false} KeysMeans(split: Splitter, cns: seq<string>, k: nat, key: string)
    requires k <= |cns|
    ensures key in Keys(split, cns, k) <==> exists i :: k <= i < |cns| && split(cns[i]).Ok? && KeyOf(split, cns[i]) == key
    decreases |cns| - k
  {
    if k < |cns| {
      KeysMeans(split, cns, k + 1, key);
    }
  }

  /**
   * When every entry splits, the loop ends without error and exactly the
   * pending entries of unlisted networks are left over.
   */
  lemma {:induction false} MapNetworksLeavesUnlisted(split: Splitter, cns: seq<string>, k: nat, m: NetworkMaps, left: Pending)
    requires k <= |cns| && AllSplit(split, cns, k)
    ensures MapNetworks(split, cns, k, m, left).2 == None
    ensures MapNetworks(split, cns, k, m, left).1.gws.Keys == left.gws.Keys - Listed(split, cns, k)
    ensures MapNetworks(split, cns, k, m, left).1.pools.Keys == left.pools.Keys - Listed(split, cns, k)
    ensures MapNetworks(split, cns, k, m, left).1.dns.Keys == left.dns.Keys - Listed(split, cns, k)
    decreases |cns| - k
  {
    if k < |cns| {
      var (vnet, alias) := split(cns[k]).value;
      MapNetworksLeavesUnlisted(split, cns, k + 1, Record(m, left, vnet, alias), Release(left, vnet));
    }
  }

  /** When every entry splits, no recorded container network is ever dropped. */
  lemma {:induction false} MapNetworksGrows(split: Splitter, cns: seq<string>, k: nat, m: NetworkMaps, left: Pending)
    requires k <= |cns| && AllSplit(split, cns, k)
    ensures m.mapped.Keys <= MapNetworks(split, cns, k, m, left).0.mapped.Keys
    decreases |cns| - k
  {
    if k < |cns| {
      var (vnet, alias) := split(cns[k]).value;
      MapNetworksGrows(split, cns, k + 1, Record(m, left, vnet, alias), Release(left, vnet));
    }
  }

  /** What the four maps hold for one key, with Go's zero values for a missing key. */
  function At(m: NetworkMaps, key: string): (string, IPNet, seq<IPRange>, seq<IP>) {
    (Get(m.mapped, key, ""), Get(m.gateways, key, ZeroIPNet), Get(m.ranges, key, []), Get(m.dns, key, []))
  }

  /** A key no entry from k on uses keeps what the four maps hold for it. */
  lemma {:induction false} MapNetworksFrame(split: Splitter, cns: seq<string>, k: nat, m: NetworkMaps, left: Pending, key: string)
    requires k <= |cns| && AllSplit(split, cns, k) && key !in Keys(split, cns, k)
    ensures At(MapNetworks(split, cns, k, m, left).0, key) == At(m, key)
    decreases |cns| - k
  {
    if k < |cns| {
      var (vnet, alias) := split(cns[k]).value;
      var m1 := Record(m, left, vnet, alias);
      assert At(m1, key) == At(m, key);
      MapNetworksFrame(split, cns, k + 1, m1, Release(left, vnet), key);
    }
  }

  /** The entries from k on name distinct vSphere networks under distinct keys. */
  ghost predicate Distinct(split: Splitter, cns: seq<string>, k: nat)
    requires k <= |cns| && AllSplit(split, cns, k)
  {
    forall i, j :: k <= i < j < |cns| ==>
      split(cns[i]).value.0 != split(cns[j]).value.0 && KeyOf(split, cns[i]) != KeyOf(split, cns[j])
  }

  /** Entry i is recorded in m under its key, with what `left` held for its vSphere network. */
  ghost predicate Recorded(split: Splitter, cn: string, m: NetworkMaps, left: Pending)
    requires split(cn).Ok?
  {
    var vnet := split(cn).value.0;
    var key := KeyOf(split, cn);
    key in m.mapped && At(m, key) == (vnet, Get(left.gws, vnet, ZeroIPNet), Get(left.pools, vnet, []), Get(left.dns, vnet, []))
  }

  /**
   * With distinct networks and keys, every entry ends up recorded under its key
   * (alias or vSphere name) with its vSphere name and the gateway, ranges and
   * DNS servers given for that vSphere name.
   */
  lemma {:induction false} MapNetworksRecordsEntries(split: Splitter, cns: seq<string>, k: nat, m: NetworkMaps, left: Pending)
    requires k <= |cns| && AllSplit(split, cns, k) && Distinct(split, cns, k)
    ensures forall i :: k <= i < |cns| ==> Recorded(split, cns[i], MapNetworks(split, cns, k, m, left).0, left)
  {
    forall i | k <= i < |cns|
      ensures Recorded(split, cns[i], MapNetworks(split, cns, k, m, left).0, left)
    {
      MapNetworksRecordsEntry(split, cns, k, m, left, i);
    }
  }

  /** Entry i, for one i at k or after. */
  lemma {:induction false} MapNetworksRecordsEntry(split: Splitter, cns: seq<string>, k: nat, m: NetworkMaps, left: Pending, i: nat)
    requires k <= i < |cns| && AllSplit(split, cns, k) && Distinct(split, cns, k)
    ensures Recorded(split, cns[i], MapNetworks(split, cns, k, m, left).0, left)
    decreases |cns| - k
  {
    var (vnet, alias) := split(cns[k]).value;
    if k < i {
      MapNetworksRecordsEntry(split, cns, k + 1, Record(m, left, vnet, alias), Release(left, vnet), i);
      RecordedRelease(split, cns[i], MapNetworks(split, cns, k, m, left).0, left, vnet);
    } else {
      KeysMeans(split, cns, k + 1, KeyOf(split, cns[k]));
      RecordedHead(split, cns, k, m, left);
    }
  }

  /** Releasing another vSphere network does not change what is pending for this entry's. */
  lemma RecordedRelease(split: Splitter, cn: string, m: NetworkMaps, left: Pending, vnet: string)
    requires split(cn).Ok? && split(cn).value.0 != vnet
    requires Recorded(split, cn, m, Release(left, vnet))
    ensures Recorded(split, cn, m, left)
  {
  }

  /** Entry k is recorded when no later entry uses its key. */
  lemma RecordedHead(split: Splitter, cns: seq<string>, k: nat, m: NetworkMaps, left: Pending)
    requires k < |cns| && AllSplit(split, cns, k) && KeyOf(split, cns[k]) !in Keys(split, cns, k + 1)
    ensures Recorded(split, cns[k], MapNetworks(split, cns, k, m, left).0, left)
  {
    var (vnet, alias) := split(cns[k]).value;
    var m1, left1 := Record(m, left, vnet, alias), Release(left, vnet);
    assert MapNetworks(split, cns, k, m, left) == MapNetworks(split, cns, k + 1, m1, left1);
    MapNetworksFrame(split, cns, k + 1, m1, left1, KeyOf(split, cns[k]));
    MapNetworksGrows(split, cns, k + 1, m1, left1);
  }

  /** When every entry splits, something is left pending exactly when a pending network is not listed. */
  lemma LeftoverMeansUnlisted(split: Splitter, cns: seq<string>, m0: NetworkMaps, p: Pending)
    requires AllSplit(split, cns, 0)
    ensures var (m, left, e) := MapNetworks(split, cns, 0, m0, p);
            && e == None
            && ((|left.gws| > 0 || |left.pools| > 0 || |left.dns| > 0) <==>
                  exists vnet :: (vnet in p.gws || vnet in p.pools || vnet in p.dns) && vnet !in Listed(split, cns, 0))
  {
    var left := MapNetworks(split, cns, 0, m0, p).1;
    MapNetworksLeavesUnlisted(split, cns, 0, m0, p);
    if exists vnet :: (vnet in p.gws || vnet in p.pools || vnet in p.dns) && vnet !in Listed(split, cns, 0) {
      var vnet :| (vnet in p.gws || vnet in p.pools || vnet in p.dns) && vnet !in Listed(split, cns, 0);
      assert vnet in left.gws.Keys || vnet in left.pools.Keys || vnet in left.dns.Keys;
    } else {
      assert left.gws.Keys == {} && left.pools.Keys == {} && left.dns.Keys == {};
      assert left.gws == map[] && left.pools == map[] && left.dns == map[];
    }
  }

  /**
   * Once every option parses and every container network splits, processing
   * fails with "Inconsistent container network configuration." exactly when a
   * gateway, IP range or DNS entry names a vSphere network that is not a
   * container network, and otherwise succeeds.
   */
  lemma ContainerNetworksConsistency(f: Flags, gwParse: EntryParser<IPNet>, rangeParse: EntryParser<IPRange>,
                                     dnsParse: EntryParser<IP>, split: Splitter, m0: NetworkMaps)
    requires Gateways(f.containerNetworksGateway, gwParse).Ok?
    requires Collect(f.containerNetworksIPRanges, rangeParse).Ok?
    requires Collect(f.containerNetworksDNS, dnsParse).Ok?
    requires AllSplit(split, f.containerNetworks, 0)
    ensures var gws := Gateways(f.containerNetworksGateway, gwParse).value;
            var pools := Collect(f.containerNetworksIPRanges, rangeParse).value;
            var dns := Collect(f.containerNetworksDNS, dnsParse).value;
            var unlisted := exists vnet :: (vnet in gws || vnet in pools || vnet in dns) && vnet !in Listed(split, f.containerNetworks, 0);
            && (unlisted ==> ContainerNetworks(f, gwParse, rangeParse, dnsParse, split, m0).1 == Some(InconsistentContainerNetworks))
            && (!unlisted ==> ContainerNetworks(f, gwParse, rangeParse, dnsParse, split, m0).1 == None)
  {
    var p := Pending(Gateways(f.containerNetworksGateway, gwParse).value,
                     Collect(f.containerNetworksIPRanges, rangeParse).value,
                     Collect(f.containerNetworksDNS, dnsParse).value);
    LeftoverMeansUnlisted(split, f.containerNetworks, m0, p);
  }

  /**
   * Go's zero-value reads: a vSphere network listed twice under two aliases
   * hands its gateway to the first alias only; the second gets the zero gateway
   * and no ranges or DNS servers.
   */
  lemma SecondAliasGetsZeroValues(vnet: string, a1: string, a2: string, gw: IPNet)
    requires vnet != "" && ':' !in vnet && a1 != "" && ':' !in a1 && a2 != "" && ':' !in a2 && a1 != a2
    ensures var m := MapNetworks(SplitVnetParam, [vnet + ":" + a1, vnet + ":" + a2], 0, NetworkMaps(map[], map[], map[], map[]),
                                 Pending(map[vnet := gw], map[], map[])).0;
            && m.mapped == map[a1 := vnet, a2 := vnet]
            && m.gateways == map[a1 := gw, a2 := ZeroIPNet]
            && m.ranges == map[a1 := [], a2 := []]
  {
    var cns := [vnet + ":" + a1, vnet + ":" + a2];
    SplitVnetParamRoundTrip(vnet, a1);
    SplitVnetParamRoundTrip(vnet, a2);
    var m0 := NetworkMaps(map[], map[], map[], map[]);
    var left0 := Pending(map[vnet := gw], map[], map[]);
    var m1 := Record(m0, left0, vnet, a1);
    var left1 := Release(left0, vnet);
    assert left1.gws == map[];
    var m2 := Record(m1, left1, vnet, a2);
    assert MapNetworks(SplitVnetParam, cns, 0, m0, left0) == MapNetworks(SplitVnetParam, cns, 1, m1, left1);
    assert MapNetworks(SplitVnetParam, cns, 1, m1, left1) == MapNetworks(SplitVnetParam, cns, 2, m2, Release(left1, vnet));
  }

  // ---------------------------------------------------------------- networks

  /** The first address, in resolver order, that lies in the gateway's network. */
  function FirstInNetwork(ips: seq<IP>, gw: IPNet, contains: (IPNet, IP) -> bool): Option<IP>
    decreases |ips|
  {
    if |ips| == 0 then None
    else if contains(gw, ips[0]) then Some(ips[0])
    else FirstInNetwork(ips[1..], gw, contains)
  }

  /** FirstInNetwork finds the first address in the network, and finds nothing only when there is none. */
  lemma {:induction false} FirstInNetworkMeaning(ips: seq<IP>, gw: IPNet, contains: (IPNet, IP) -> bool)
    ensures FirstInNetwork(ips, gw, contains).None? <==> forall i :: 0 <= i < |ips| ==> !contains(gw, ips[i])
    ensures FirstInNetwork(ips, gw, contains).Some? ==>
              exists i :: 0 <= i < |ips| && ips[i] == FirstInNetwork(ips, gw, contains).value && contains(gw, ips[i]) &&
                forall j :: 0 <= j < i ==> !contains(gw, ips[j])
    decreases |ips|
  {
    if |ips| > 0 && !contains(gw, ips[0]) {
      var rest := ips[1..];
      FirstInNetworkMeaning(rest, gw, contains);
      assert forall i :: 0 <= i < |rest| ==> rest[i] == ips[i + 1];
      if FirstInNetwork(rest, gw, contains).Some? {
        var i :| 0 <= i < |rest| && rest[i] == FirstInNetwork(rest, gw, contains).value && contains(gw, rest[i]) &&
                 forall j :: 0 <= j < i ==> !contains(gw, rest[j]);
        assert forall j :: 0 <= j < i + 1 ==> !contains(gw, ips[j]) by {
          forall j | 0 <= j < i + 1 ensures !contains(gw, ips[j]) {
            if j > 0 { assert ips[j] == rest[j - 1]; }
          }
        }
      } else {
        forall i | 0 <= i < |ips| ensures !contains(gw, ips[i]) {
          if i > 0 { assert ips[i] == rest[i - 1]; }
        }
      }
    }
  }

  /**
   * processNetwork's outcome: the network configuration as far as it was
   * filled in, and the error that stopped it.
   */
  function NetworkOutcome(network: NetworkConfig, netName: string, pgName: string, staticIP: string, gateway: string,
                          parseIPandMask: string -> Option<IPNet>, lookupIP: string -> Option<seq<IP>>,
                          contains: (IPNet, IP) -> bool): (NetworkConfig, Option<CreateError>)
  {
    var n := network.(Name := pgName);
    if staticIP == "" && gateway == "" then (n, None)
    else if staticIP == "" || gateway == "" then (n, Some(IPGatewayPairing(netName)))
    else
      match parseIPandMask(gateway)
      case None => (n.(Gateway := ZeroIPNet), Some(InvalidGateway(netName)))
      case Some(gw) =>
        match parseIPandMask(staticIP)
        case Some(ip) => (n.(Gateway := gw, IP := ip), None)
        case None =>
          match lookupIP(staticIP)
          case None => (n.(Gateway := gw, IP := ZeroIPNet), Some(UnresolvableAddress(netName)))
          case Some(ips) =>
            match FirstInNetwork(ips, gw, contains)
            case Some(ip) => (n.(Gateway := gw, IP := IPNet(ip, gw.mask)), None)
            case None => (n.(Gateway := gw, IP := ZeroIPNet), Some(NoCompatibleAddress(netName, staticIP)))
  }

  /**
   * processNetwork always names the port group; with neither address nor
   * gateway it changes nothing else; with only one of them it fails; with both
   * it takes the gateway and either the address written or, for a host name,
   * the first resolved address inside the gateway's network with the gateway's
   * mask. The address it takes always lies in the gateway's network when it
   * was found by resolution.
   */
  lemma NetworkOutcomeMeaning(network: NetworkConfig, netName: string, pgName: string, staticIP: string, gateway: string,
                              parseIPandMask: string -> Option<IPNet>, lookupIP: string -> Option<seq<IP>>,
                              contains: (IPNet, IP) -> bool)
    ensures var (n, err) := NetworkOutcome(network, netName, pgName, staticIP, gateway, parseIPandMask, lookupIP, contains);
            && n.Name == pgName
            && (staticIP == "" && gateway == "" ==> err == None && n == network.(Name := pgName))
            && ((staticIP == "") != (gateway == "") ==> err == Some(IPGatewayPairing(netName)) && n == network.(Name := pgName))
            && (staticIP != "" && gateway != "" && parseIPandMask(gateway).None? ==>
                  err == Some(InvalidGateway(netName)) && n == network.(Name := pgName, Gateway := ZeroIPNet))
            && (staticIP != "" && gateway != "" && parseIPandMask(gateway).Some? ==>
                  var gw := parseIPandMask(gateway).value;
                  && n.Gateway == gw
                  && (parseIPandMask(staticIP).Some? ==> err == None && n.IP == parseIPandMask(staticIP).value)
                  && (parseIPandMask(staticIP).None? && lookupIP(staticIP).None? ==>
                        err == Some(UnresolvableAddress(netName)) && n.IP == ZeroIPNet)
                  && (parseIPandMask(staticIP).None? && lookupIP(staticIP).Some? ==>
                        && (err == None <==> exists i :: 0 <= i < |lookupIP(staticIP).value| && contains(gw, lookupIP(staticIP).value[i]))
                        && (err == None ==>
                              && contains(gw, n.IP.ip) && n.IP.mask == gw.mask
                              && exists i :: 0 <= i < |lookupIP(staticIP).value| && lookupIP(staticIP).value[i] == n.IP.ip &&
                                   forall j :: 0 <= j < i ==> !contains(gw, lookupIP(staticIP).value[j]))
                        && (err != None ==> err == Some(NoCompatibleAddress(netName, staticIP)) && n.IP == ZeroIPNet)))
  {
    if staticIP != "" && gateway != "" && parseIPandMask(gateway).Some? && parseIPandMask(staticIP).None? && lookupIP(staticIP).Some? {
      FirstInNetworkMeaning(lookupIP(staticIP).value, parseIPandMask(gateway).value, contains);
    }
  }

  // ------------------------------------------------------------- DNS servers

  /** The servers parsed before the first one that does not parse. */
  function ParsedServers(ds: seq<string>, parseIP: string -> Option<IP>): seq<IP>
    decreases |ds|
  {
    if |ds| == 0 || parseIP(ds[0]).None? then []
    else [parseIP(ds[0]).value] + ParsedServers(ds[1..], parseIP)
  }

  /** When every server parses, all of them are kept, in order: there is no cap at three. */
  lemma {:induction false} ParsedServersKeepsAll(ds: seq<string>, parseIP: string -> Option<IP>)
    requires forall i :: 0 <= i < |ds| ==> parseIP(ds[i]).Some?
    ensures |ParsedServers(ds, parseIP)| == |ds|
    ensures forall i :: 0 <= i < |ds| ==> ParsedServers(ds, parseIP)[i] == parseIP(ds[i]).value
    decreases |ds|
  {
    if |ds| > 0 {
      assert forall i :: 0 <= i < |ds| - 1 ==> ds[1..][i] == ds[i + 1];
      ParsedServersKeepsAll(ds[1..], parseIP);
    }
  }

  /** When server i is the first that does not parse, exactly the i before it are kept. */
  lemma {:induction false} ParsedServersStopsAtFirstBad(ds: seq<string>, parseIP: string -> Option<IP>, i: nat)
    requires i < |ds| && parseIP(ds[i]).None?
    requires forall j :: 0 <= j < i ==> parseIP(ds[j]).Some?
    ensures ParsedServers(ds, parseIP) == ParsedServers(ds[..i], parseIP)
    ensures |ParsedServers(ds, parseIP)| == i
    decreases i
  {
    if i > 0 {
      var rest := ds[1..];
      assert rest[i - 1] == ds[i];
      assert forall j :: 0 <= j < i - 1 ==> rest[j] == ds[j + 1];
      ParsedServersStopsAtFirstBad(rest, parseIP, i - 1);
      assert ds[..i][1..] == rest[..i - 1];
    }
  }

  // ------------------------------------------------------------ volume stores

  /** Reads a volume store argument as its datastore path and its label. */
  type StoreParser = string -> Option<(string, string)>

  /** A `path:label` volume store: cut at the first `:`; without one it is malformed. */
  function ParseVolumeStore(arg: string): (r: Option<(string, string)>)
    ensures r.None? <==> ':' !in arg
    ensures r.Some? ==> ':' !in r.value.0 && arg == r.value.0 + ":" + r.value.1
  {
    var parts := SplitN2(arg, ':');
    if |parts| != 2 then None else Some((parts[0], parts[1]))
  }

  /** The loop of processVolumeStores from entry k on; false when an entry is malformed. */
  function StoreLocations(parse: StoreParser, args: seq<string>, k: nat, m: map<string, string>): (map<string, string>, bool)
    requires k <= |args|
    decreases |args| - k
  {
    if k == |args| then (m, true)
    else
      match parse(args[k])
      case None => (m, false)
      case Some((location, name)) => StoreLocations(parse, args, k + 1, m[name := location])
  }

  /** Every entry from k on is well formed. */
  ghost predicate AllLabelled(parse: StoreParser, args: seq<string>, k: nat)
    requires k <= |args|
  {
    forall i :: k <= i < |args| ==> parse(args[i]).Some?
  }

  /** The labels of the entries from k on. */
  function Labels(parse: StoreParser, args: seq<string>, k: nat): set<string>
    requires k <= |args| && AllLabelled(parse, args, k)
    decreases |args| - k
  {
    if k == |args| then {} else {parse(args[k]).value.1} + Labels(parse, args, k + 1)
  }

  /** The volume stores are accepted exactly when every entry is well formed. */
  lemma {:induction false} StoreLocationsOkIff(parse: StoreParser, args: seq<string>, k: nat, m: map<string, string>)
    requires k <= |args|
    ensures StoreLocations(parse, args, k, m).1 <==> AllLabelled(parse, args, k)
    decreases |args| - k
  {
    if k < |args| && parse(args[k]).Some? {
      var (location, name) := parse(args[k]).value;
      StoreLocationsOkIff(parse, args, k + 1, m[name := location]);
    }
  }

  /** A label is used from k on exactly when some entry from k on has it. */
  lemma {:induction false} LabelsMeans(parse: StoreParser, args: seq<string>, k: nat, name: string)
    requires k <= |args| && AllLabelled(parse, args, k)
    ensures name in Labels(parse, args, k) <==> exists i :: k <= i < |args| && parse(args[i]).value.1 == name
    decreases |args| - k
  {
    if k < |args| {
      LabelsMeans(parse, args, k + 1, name);
    }
  }

  /** The keys added are exactly the labels, and keys that are not labels keep their location. */
  lemma {:induction false} StoreLocationsKeys(parse: StoreParser, args: seq<string>, k: nat, m: map<string, string>)
    requires k <= |args| && AllLabelled(parse, args, k)
    ensures StoreLocations(parse, args, k, m).0.Keys == m.Keys + Labels(parse, args, k)
    ensures forall l :: l in m && l !in Labels(parse, args, k) ==> StoreLocations(parse, args, k, m).0[l] == m[l]
    decreases |args| - k
  {
    if k < |args| {
      var (location, name) := parse(args[k]).value;
      StoreLocationsKeys(parse, args, k + 1, m[name := location]);
    }
  }

  /** A label given more than once maps to the location of its last entry. */
  lemma {:induction false} StoreLocationsLastWins(parse: StoreParser, args: seq<string>, k: nat, m: map<string, string>, i: nat)
    requires k <= i < |args| && AllLabelled(parse, args, k)
    requires forall j :: i < j < |args| ==> parse(args[j]).value.1 != parse(args[i]).value.1
    ensures parse(args[i]).value.1 in StoreLocations(parse, args, k, m).0
    ensures StoreLocations(parse, args, k, m).0[parse(args[i]).value.1] == parse(args[i]).value.0
    decreases |args| - k
  {
    var (location, name) := parse(args[k]).value;
    var m1 := m[name := location];
    if k < i {
      StoreLocationsLastWins(parse, args, k + 1, m1, i);
    } else {
      LabelsMeans(parse, args, k + 1, name);
      StoreLocationsKeys(parse, args, k + 1, m1);
    }
  }

  /** Cutting at the first `:` takes apart what `location:label` put together, when the location has no `:`. */
  lemma VolumeStoreRoundTrip(location: string, name: string)
    requires ':' !in location
    ensures ParseVolumeStore(location + ":" + name) == Some((location, name))
  {
    var s := location + ":" + name;
    assert s[|location|] == ':';
    var r := ParseVolumeStore(s);
    FirstSeparatorIsUnique(r.value.0, r.value.1, location, name, ':');
  }

  /** a + [c] + b == a' + [c] + b' with no c in a or a' forces a == a' and b == b'. */
  lemma FirstSeparatorIsUnique(a: string, b: string, a': string, b': string, c: char)
    requires c !in a && c !in a' && a + [c] + b == a' + [c] + b'
    ensures a == a' && b == b'
  {
    var s := a + [c] + b;
    assert s[|a|] == c && s[|a'|] == c;
    assert forall i :: 0 <= i < |a| ==> s[i] == a[i];
    assert forall i :: 0 <= i < |a'| ==> s[i] == a'[i];
    assert |a| == |a'|;
    assert a == s[..|a|] && a' == s[..|a'|];
    assert b == s[|a| + 1..] && b' == s[|a'| + 1..];
  }

  // ------------------------------------------------------------ the command

  class Create {
    var flags: Flags
    /** the vSphere target and credentials (common.Target, embedded in data.Data) */
    const target: Target.Target
    /** data.Data fields */
    const DisplayName: string
    var BridgeNetworkName: string
    /** data.Data's BridgeIPRange: the parsed --bridge-network-range, nil until parsed */
    var BridgeIPRangeNet: Option<IPNet>
    var MappedNetworks: map<string, string>
    var MappedNetworksGateways: map<string, IPNet>
    var MappedNetworksIPRanges: map<string, seq<IPRange>>
    var MappedNetworksDNS: map<string, seq<IP>>
    var ClientNetwork: NetworkConfig
    var ExternalNetwork: NetworkConfig
    var ManagementNetwork: NetworkConfig
    var DNS: seq<IP>
    var VolumeLocations: map<string, string>

    /** NewCreate, with the flag values already parsed into it. */
    constructor (flags: Flags, target: Target.Target, displayName: string, bridgeNetworkName: string)
      ensures this.flags == flags && this.target == target
      ensures DisplayName == displayName && BridgeNetworkName == bridgeNetworkName && BridgeIPRangeNet == None
      ensures Maps() == NetworkMaps(map[], map[], map[], map[])
      ensures ClientNetwork == ZeroNetworkConfig && ExternalNetwork == ZeroNetworkConfig && ManagementNetwork == ZeroNetworkConfig
      ensures DNS == [] && VolumeLocations == map[]
    {
      this.flags := flags;
      this.target := target;
      DisplayName := displayName;
      BridgeNetworkName := bridgeNetworkName;
      BridgeIPRangeNet := None;
      MappedNetworks := map[];
      MappedNetworksGateways := map[];
      MappedNetworksIPRanges := map[];
      MappedNetworksDNS := map[];
      ClientNetwork := ZeroNetworkConfig;
      ExternalNetwork := ZeroNetworkConfig;
      ManagementNetwork := ZeroNetworkConfig;
      DNS := [];
      VolumeLocations := map[];
    }

    /** The four Mapped* maps as one value. */
    function Maps(): NetworkMaps
      reads this
    {
      NetworkMaps(MappedNetworks, MappedNetworksGateways, MappedNetworksIPRanges, MappedNetworksDNS)
    }

    /**
     * processContainerNetworks: parse the gateway, range and DNS options, then
     * record each container network; entries left over name networks that are
     * not container networks.
     */
    method ProcessContainerNetworks(cidr: string -> Option<CIDR>, parseRange: string -> Option<IPRange>, parseIP: string -> Option<IP>)
      returns (err: Option<CreateError>)
      modifies this`MappedNetworks, this`MappedNetworksGateways, this`MappedNetworksIPRanges, this`MappedNetworksDNS
      ensures (Maps(), err) == ContainerNetworks(flags, GatewayParser(cidr), RangeParser(parseRange), DNSParser(parseIP), SplitVnetParam, old(Maps()))
      ensures err.Some? ==> ContainerNetworkError(err.value)
    {
      var gwsR := ParseContainerNetworkGateways(flags.containerNetworksGateway, cidr);
      if gwsR.Err? {
        return Some(ContainerNetworkParam(gwsR.error));
      }
      var poolsR := ParseContainerNetworkIPRanges(flags.containerNetworksIPRanges, parseRange);
      if poolsR.Err? {
        return Some(ContainerNetworkParam(poolsR.error));
      }
      var dnsR := ParseContainerNetworkDNS(flags.containerNetworksDNS, parseIP);
      if dnsR.Err? {
        return Some(ContainerNetworkParam(dnsR.error));
      }
      var left, e := RecordContainerNetworks(Pending(gwsR.value, poolsR.value, dnsR.value));
      if e.Some? {
        return Some(ContainerNetworkSplit(e.value));
      }
      if |left.gws| > 0 || |left.pools| > 0 || |left.dns| > 0 {
        return Some(InconsistentContainerNetworks);
      }
      return None;
    }

    /**
     * The loop of processContainerNetworks over --container-network, with the
     * parsed options still pending; returns what is left pending and the split
     * error that stopped the loop, if any.
     */
    method RecordContainerNetworks(pending: Pending) returns (left: Pending, e: Option<SplitError>)
      modifies this`MappedNetworks, this`MappedNetworksGateways, this`MappedNetworksIPRanges, this`MappedNetworksDNS
      ensures (Maps(), left, e) == MapNetworks(SplitVnetParam, flags.containerNetworks, 0, old(Maps()), pending)
    {
      var gws, pools, dns := pending.gws, pending.pools, pending.dns;
      var cns := flags.containerNetworks;
      ghost var full := MapNetworks(SplitVnetParam, cns, 0, Maps(), pending);
      var i := 0;
      while i < |cns|
        invariant 0 <= i <= |cns|
        invariant MapNetworks(SplitVnetParam, cns, i, Maps(), Pending(gws, pools, dns)) == full
      {
        var split := SplitVnetParam(cns[i]);
        if split.Err? {
          return Pending(gws, pools, dns), Some(split.error);
        }
        var (vnet, v) := split.value;
        var vicnet := vnet;
        if v != "" {
          vicnet := v;
        }
        MappedNetworks := MappedNetworks[vicnet := vnet];
        MappedNetworksGateways := MappedNetworksGateways[vicnet := Get(gws, vnet, ZeroIPNet)];
        MappedNetworksIPRanges := MappedNetworksIPRanges[vicnet := Get(pools, vnet, [])];
        MappedNetworksDNS := MappedNetworksDNS[vicnet := Get(dns, vnet, [])];
        gws := gws - {vnet};
        pools := pools - {vnet};
        dns := dns - {vnet};
        i := i + 1;
      }
      return Pending(gws, pools, dns), None;
    }

    /** processBridgeNetwork: parse --bridge-network-range; the range is nil when it does not parse. */
    method ProcessBridgeNetwork(parseCIDR: string -> Option<CIDR>) returns (err: Option<CreateError>)
      modifies this`BridgeIPRangeNet
      ensures parseCIDR(flags.BridgeIPRange).Some? ==>
                err == None && BridgeIPRangeNet == Some(parseCIDR(flags.BridgeIPRange).value.network)
      ensures parseCIDR(flags.BridgeIPRange).None? ==>
                err == Some(BridgeRangeInvalid(flags.BridgeIPRange)) && BridgeIPRangeNet == None
    {
      var c := parseCIDR(flags.BridgeIPRange);
      if c.None? {
        BridgeIPRangeNet := None;
        return Some(BridgeRangeInvalid(flags.BridgeIPRange));
      }
      BridgeIPRangeNet := Some(c.value.network);
      return None;
    }

    /**
     * processNetwork: name the port group, then, when both a static IP and a
     * gateway are given, parse the gateway and the IP; an IP that does not
     * parse is resolved as a host name and the first address inside the
     * gateway's network is taken, with the gateway's mask. The network
     * configuration is returned as far as it was filled in, error or not.
     */
    method ProcessNetwork(network: NetworkConfig, netName: string, pgName: string, staticIP: string, gateway: string,
                          parseIPandMask: string -> Option<IPNet>, lookupIP: string -> Option<seq<IP>>,
                          contains: (IPNet, IP) -> bool)
      returns (n: NetworkConfig, err: Option<CreateError>)
      ensures n.Name == pgName
      ensures err.Some? ==> NetworkError(err.value)
      ensures (n, err) == NetworkOutcome(network, netName, pgName, staticIP, gateway, parseIPandMask, lookupIP, contains)
    {
      n := network.(Name := pgName);
      var i := staticIP != "";
      var g := gateway != "";
      if !i && !g {
        return n, None;
      }
      if i != g {
        return n, Some(IPGatewayPairing(netName));
      }

      var gw := parseIPandMask(gateway);
      n := n.(Gateway := gw.GetOr(ZeroIPNet));
      if gw.None? {
        return n, Some(InvalidGateway(netName));
      }

      var addr := parseIPandMask(staticIP);
      n := n.(IP := addr.GetOr(ZeroIPNet));
      if addr.Some? {
        return n, None;
      }

      var ips := lookupIP(staticIP);
      if ips.None? {
        return n, Some(UnresolvableAddress(netName));
      }
      var k := 0;
      while k < |ips.value|
        invariant 0 <= k <= |ips.value|
        invariant FirstInNetwork(ips.value[k..], n.Gateway, contains) == FirstInNetwork(ips.value, n.Gateway, contains)
        invariant n.IP == ZeroIPNet && n.Gateway == gw.value && n.Name == pgName
      {
        var ip := ips.value[k];
        if contains(n.Gateway, ip) {
          n := n.(IP := IPNet(ip, n.Gateway.mask));
          return n, None;
        }
        assert ips.value[k..][1..] == ips.value[k + 1..];
        k := k + 1;
      }
      return n, Some(NoCompatibleAddress(netName, staticIP));
    }

    /**
     * processDNSServers: append every --dns-server in order, stopping at the
     * first that does not parse; more than three are kept (only warned about).
     */
    method ProcessDNSServers(parseIP: string -> Option<IP>) returns (err: Option<CreateError>)
      modifies this`DNS
      ensures DNS == old(DNS) + ParsedServers(flags.dns, parseIP)
      ensures err == None <==> forall i :: 0 <= i < |flags.dns| ==> parseIP(flags.dns[i]).Some?
      ensures err != None ==> err == Some(InvalidDNSServer)
    {
      if |flags.dns| == 0 {
        return None;
      }
      var ds := flags.dns;
      var i := 0;
      while i < |ds|
        invariant 0 <= i <= |ds|
        invariant old(DNS) + ParsedServers(ds, parseIP) == DNS + ParsedServers(ds[i..], parseIP)
        invariant forall j :: 0 <= j < i ==> parseIP(ds[j]).Some?
      {
        var s := parseIP(ds[i]);
        if s.None? {
          return Some(InvalidDNSServer);
        }
        assert ds[i..][1..] == ds[i + 1..];
        DNS := DNS + [s.value];
        i := i + 1;
      }
      return None;
    }

    /** processVolumeStores: a fresh label-to-location map, filled entry by entry. */
    method ProcessVolumeStores() returns (err: Option<CreateError>)
      modifies this`VolumeLocations
      ensures VolumeLocations == StoreLocations(ParseVolumeStore, flags.volumeStores, 0, map[]).0
      ensures err == None <==> StoreLocations(ParseVolumeStore, flags.volumeStores, 0, map[]).1
      ensures err != None ==> err == Some(VolumeStoreFormat)
    {
      VolumeLocations := map[];
      var args := flags.volumeStores;
      var i := 0;
      while i < |args|
        invariant 0 <= i <= |args|
        invariant StoreLocations(ParseVolumeStore, args, i, VolumeLocations) == StoreLocations(ParseVolumeStore, args, 0, map[])
      {
        var splitMeta := SplitN2(args[i], ':');
        if |splitMeta| != 2 {
          return Some(VolumeStoreFormat);
        }
        VolumeLocations := VolumeLocations[splitMeta[1] := splitMeta[0]];
        i := i + 1;
      }
      return None;
    }

    /**
     * The checks processParams makes before any processing: credentials, the
     * key/cert pairing, the external-network and bridge-network defaults and the
     * display-name limit. The defaults are applied only once the first two pass.
     */
    method CheckBasics(prompt: Option<string>) returns (err: Option<CreateError>)
      modifies this`flags, this`BridgeNetworkName, target
      ensures var r := Target.Resolve(old(target.URL), old(target.User), old(target.Password), prompt);
              var paired := (old(flags).cert == "") == (old(flags).key == "");
              && (r.Err? ==> err == Some(Credentials(r.error)))
              && (r.Ok? && !paired ==> err == Some(KeyCertMismatch))
              && (!(r.Ok? && paired) ==> flags == old(flags) && BridgeNetworkName == old(BridgeNetworkName))
              && (r.Ok? && paired ==>
                    && flags == old(flags).(externalNetworkName :=
                         if old(flags).externalNetworkName == "" then DefaultExternalNetwork else old(flags).externalNetworkName)
                    && BridgeNetworkName == (if old(BridgeNetworkName) == "" then DisplayName else old(BridgeNetworkName))
                    && (err == None <==> Utf8Len(DisplayName) <= MaxDisplayNameLen)
                    && (err != None ==> err == Some(DisplayNameTooLong(DisplayName))))
      ensures target.CredentialsSettled(old(target.URL), old(target.User), old(target.Password), old(target.Thumbprint), prompt)
    {
      var credErr := target.HasCredentials(prompt);
      if credErr.Some? {
        return Some(Credentials(credErr.value));
      }

      if flags.cert != "" && flags.key == "" {
        return Some(KeyCertMismatch);
      }
      if flags.cert == "" && flags.key != "" {
        return Some(KeyCertMismatch);
      }

      if flags.externalNetworkName == "" {
        flags := flags.(externalNetworkName := DefaultExternalNetwork);
      }
      if BridgeNetworkName == "" {
        BridgeNetworkName := DisplayName;
      }
      if Utf8Len(DisplayName) > MaxDisplayNameLen {
        return Some(DisplayNameTooLong(DisplayName));
      }
      return None;
    }

    /**
     * What the address steps leave behind on success, from the network
     * configurations and DNS list they started with: the parsed bridge range,
     * each of the client, external and management networks as processNetwork
     * fills it in, and the DNS servers appended.
     */
    ghost predicate AddressesSettled(client0: NetworkConfig, external0: NetworkConfig, management0: NetworkConfig,
                                     dns0: seq<IP>, cidr: string -> Option<CIDR>, parseIP: string -> Option<IP>,
                                     parseIPandMask: string -> Option<IPNet>, lookupIP: string -> Option<seq<IP>>,
                                     contains: (IPNet, IP) -> bool)
      reads this
    {
      && cidr(flags.BridgeIPRange).Some? && BridgeIPRangeNet == Some(cidr(flags.BridgeIPRange).value.network)
      && ClientNetwork == NetworkOutcome(client0, "client", flags.clientNetworkName, flags.clientNetworkIP,
                                         flags.clientNetworkGateway, parseIPandMask, lookupIP, contains).0
      && ExternalNetwork == NetworkOutcome(external0, "external", flags.externalNetworkName, flags.externalNetworkIP,
                                           flags.externalNetworkGateway, parseIPandMask, lookupIP, contains).0
      && ManagementNetwork == NetworkOutcome(management0, "management", flags.managementNetworkName,
                                             flags.managementNetworkIP, flags.managementNetworkGateway,
                                             parseIPandMask, lookupIP, contains).0
      && DNS == dns0 + ParsedServers(flags.dns, parseIP)
    }

    /**
     * When the address steps all succeed, from the network configurations they
     * start with: the bridge range parses, none of the three network steps
     * reports an error and every DNS server parses.
     */
    ghost static predicate AddressesAccepted(f: Flags, client0: NetworkConfig, external0: NetworkConfig, management0: NetworkConfig,
                                      cidr: string -> Option<CIDR>, parseIP: string -> Option<IP>,
                                      parseIPandMask: string -> Option<IPNet>, lookupIP: string -> Option<seq<IP>>,
                                      contains: (IPNet, IP) -> bool)
    {
      && cidr(f.BridgeIPRange).Some?
      && NetworkOutcome(client0, "client", f.clientNetworkName, f.clientNetworkIP,
                        f.clientNetworkGateway, parseIPandMask, lookupIP, contains).1 == None
      && NetworkOutcome(external0, "external", f.externalNetworkName, f.externalNetworkIP,
                        f.externalNetworkGateway, parseIPandMask, lookupIP, contains).1 == None
      && NetworkOutcome(management0, "management", f.managementNetworkName, f.managementNetworkIP,
                        f.managementNetworkGateway, parseIPandMask, lookupIP, contains).1 == None
      && forall i :: 0 <= i < |f.dns| ==> parseIP(f.dns[i]).Some?
    }

    /**
     * When every step after the container networks succeeds, from the network
     * configurations they start with: the address steps succeed, the
     * certificates pass, every volume store is well formed and the registries
     * pass.
     */
    ghost static predicate TailAccepted(f: Flags, client0: NetworkConfig, external0: NetworkConfig, management0: NetworkConfig,
                                 cidr: string -> Option<CIDR>, parseIP: string -> Option<IP>,
                                 parseIPandMask: string -> Option<IPNet>, lookupIP: string -> Option<seq<IP>>,
                                 contains: (IPNet, IP) -> bool, certificatesOk: bool, registriesOk: bool)
    {
      && AddressesAccepted(f, client0, external0, management0, cidr, parseIP, parseIPandMask, lookupIP, contains)
      && certificatesOk
      && StoreLocations(ParseVolumeStore, f.volumeStores, 0, map[]).1
      && registriesOk
    }

    /**
     * When every step after the basic checks succeeds, from the container
     * network maps and network configurations they start with: the container
     * networks are consistent and every later step succeeds.
     */
    ghost static predicate StepsAccepted(f: Flags, maps0: NetworkMaps, client0: NetworkConfig, external0: NetworkConfig,
                                  management0: NetworkConfig, cidr: string -> Option<CIDR>,
                                  parseRange: string -> Option<IPRange>, parseIP: string -> Option<IP>,
                                  parseIPandMask: string -> Option<IPNet>, lookupIP: string -> Option<seq<IP>>,
                                  contains: (IPNet, IP) -> bool, certificatesOk: bool, registriesOk: bool)
    {
      && ContainerNetworks(f, GatewayParser(cidr), RangeParser(parseRange), DNSParser(parseIP), SplitVnetParam, maps0).1 == None
      && TailAccepted(f, client0, external0, management0, cidr, parseIP, parseIPandMask, lookupIP, contains,
                      certificatesOk, registriesOk)
    }

    /**
     * processParams: the basic checks, then every processing step in order,
     * stopping at the first error. The certificate step and the registry step
     * are represented by their outcomes.
     */
    method ProcessParams(prompt: Option<string>,
                         cidr: string -> Option<CIDR>, parseRange: string -> Option<IPRange>, parseIP: string -> Option<IP>,
                         parseIPandMask: string -> Option<IPNet>, lookupIP: string -> Option<seq<IP>>,
                         contains: (IPNet, IP) -> bool, certificatesOk: bool, registriesOk: bool)
      returns (err: Option<CreateError>)
      modifies this, target
      ensures var r := Target.Resolve(old(target.URL), old(target.User), old(target.Password), prompt);
              var paired := (old(flags).cert == "") == (old(flags).key == "");
              && (r.Err? ==> err == Some(Credentials(r.error)) && unchanged(this))
              && (r.Ok? && !paired ==> err == Some(KeyCertMismatch) && unchanged(this))
              && (r.Ok? && paired ==>
                    && flags == old(flags).(externalNetworkName :=
                         if old(flags).externalNetworkName == "" then DefaultExternalNetwork else old(flags).externalNetworkName)
                    && BridgeNetworkName == (if old(BridgeNetworkName) == "" then DisplayName else old(BridgeNetworkName)))
              && (r.Ok? && paired && Utf8Len(DisplayName) > MaxDisplayNameLen ==> err == Some(DisplayNameTooLong(DisplayName)))
              && (err == None <==>
                    && r.Ok? && paired && Utf8Len(DisplayName) <= MaxDisplayNameLen
                    && StepsAccepted(flags, old(Maps()), old(ClientNetwork), old(ExternalNetwork), old(ManagementNetwork), cidr,
                                     parseRange, parseIP, parseIPandMask, lookupIP, contains, certificatesOk, registriesOk))
      ensures target.CredentialsSettled(old(target.URL), old(target.User), old(target.Password), old(target.Thumbprint), prompt)
      ensures err == None ==>
                && ContainerNetworks(flags, GatewayParser(cidr), RangeParser(parseRange), DNSParser(parseIP), SplitVnetParam, old(Maps()))
                     == (Maps(), None)
                && AddressesSettled(old(ClientNetwork), old(ExternalNetwork), old(ManagementNetwork), old(DNS),
                                    cidr, parseIP, parseIPandMask, lookupIP, contains)
                && VolumeLocations == StoreLocations(ParseVolumeStore, flags.volumeStores, 0, map[]).0
                && StoreLocations(ParseVolumeStore, flags.volumeStores, 0, map[]).1
                && certificatesOk && registriesOk
      ensures err.Some? && err.value.VolumeStoresFailed? ==>
                err == Some(VolumeStoresFailed(VolumeStoreFormat)) && !StoreLocations(ParseVolumeStore, flags.volumeStores, 0, map[]).1
    {
      err := CheckBasics(prompt);
      if err.Some? {
        return err;
      }
      err := ProcessSteps(cidr, parseRange, parseIP, parseIPandMask, lookupIP, contains, certificatesOk, registriesOk);
    }

    /**
     * The processing steps of processParams after the basic checks, in order:
     * the container networks, then the addresses, certificates, volume stores
     * and insecure registries, stopping at the first error.
     */
    method ProcessSteps(cidr: string -> Option<CIDR>, parseRange: string -> Option<IPRange>, parseIP: string -> Option<IP>,
                        parseIPandMask: string -> Option<IPNet>, lookupIP: string -> Option<seq<IP>>,
                        contains: (IPNet, IP) -> bool, certificatesOk: bool, registriesOk: bool)
      returns (err: Option<CreateError>)
      modifies this`MappedNetworks, this`MappedNetworksGateways, this`MappedNetworksIPRanges, this`MappedNetworksDNS
      modifies this`BridgeIPRangeNet, this`ClientNetwork, this`ExternalNetwork, this`ManagementNetwork, this`DNS, this`VolumeLocations
      ensures err == None <==>
                StepsAccepted(flags, old(Maps()), old(ClientNetwork), old(ExternalNetwork), old(ManagementNetwork), cidr,
                              parseRange, parseIP, parseIPandMask, lookupIP, contains, certificatesOk, registriesOk)
      ensures err == None ==>
                && ContainerNetworks(flags, GatewayParser(cidr), RangeParser(parseRange), DNSParser(parseIP), SplitVnetParam, old(Maps()))
                     == (Maps(), None)
                && AddressesSettled(old(ClientNetwork), old(ExternalNetwork), old(ManagementNetwork), old(DNS),
                                    cidr, parseIP, parseIPandMask, lookupIP, contains)
                && VolumeLocations == StoreLocations(ParseVolumeStore, flags.volumeStores, 0, map[]).0
                && StoreLocations(ParseVolumeStore, flags.volumeStores, 0, map[]).1
                && certificatesOk && registriesOk
      ensures err.Some? && err.value.VolumeStoresFailed? ==>
                err == Some(VolumeStoresFailed(VolumeStoreFormat)) && !StoreLocations(ParseVolumeStore, flags.volumeStores, 0, map[]).1
    {
      ghost var cn := ContainerNetworks(flags, GatewayParser(cidr), RangeParser(parseRange), DNSParser(parseIP), SplitVnetParam, Maps());
      err := ProcessContainerNetworks(cidr, parseRange, parseIP);
      assert (Maps(), err) == cn;
      if err.Some? {
        return err;
      }
      ghost var m := Maps();
      err := ProcessNetworksAndStores(cidr, parseIP, parseIPandMask, lookupIP, contains, certificatesOk, registriesOk);
      assert Maps() == m;
    }

    /**
     * The steps of processParams after the container networks: the addresses,
     * then the certificates, the volume stores and the insecure registries, in
     * that order, stopping at the first error.
     */
    method ProcessNetworksAndStores(cidr: string -> Option<CIDR>, parseIP: string -> Option<IP>,
                                    parseIPandMask: string -> Option<IPNet>, lookupIP: string -> Option<seq<IP>>,
                                    contains: (IPNet, IP) -> bool, certificatesOk: bool, registriesOk: bool)
      returns (err: Option<CreateError>)
      modifies this`BridgeIPRangeNet, this`ClientNetwork, this`ExternalNetwork, this`ManagementNetwork, this`DNS, this`VolumeLocations
      ensures err == None <==>
                TailAccepted(flags, old(ClientNetwork), old(ExternalNetwork), old(ManagementNetwork),
                             cidr, parseIP, parseIPandMask, lookupIP, contains, certificatesOk, registriesOk)
      ensures err == Some(CertificatesFailed) ==> !certificatesOk
      ensures err == Some(InsecureRegistryInvalid) ==> !registriesOk
      ensures err.Some? && err.value.VolumeStoresFailed? ==>
                err == Some(VolumeStoresFailed(VolumeStoreFormat)) && !StoreLocations(ParseVolumeStore, flags.volumeStores, 0, map[]).1
      ensures err == None ==>
                && certificatesOk && registriesOk
                && AddressesSettled(old(ClientNetwork), old(ExternalNetwork), old(ManagementNetwork), old(DNS),
                                    cidr, parseIP, parseIPandMask, lookupIP, contains)
                && VolumeLocations == StoreLocations(ParseVolumeStore, flags.volumeStores, 0, map[]).0
                && StoreLocations(ParseVolumeStore, flags.volumeStores, 0, map[]).1
    {
      err := ProcessAddresses(cidr, parseIP, parseIPandMask, lookupIP, contains);
      if err.Some? {
        return err;
      }
      if !certificatesOk {
        return Some(CertificatesFailed);
      }
      err := ProcessVolumeStores();
      if err.Some? {
        return Some(VolumeStoresFailed(err.value));
      }
      if !registriesOk {
        return Some(InsecureRegistryInvalid);
      }
      return None;
    }

    /**
     * The steps of processParams that settle addresses, after the container
     * networks: the bridge range, the client, external and management networks
     * and the DNS servers, in that order, stopping at the first error.
     */
    method ProcessAddresses(cidr: string -> Option<CIDR>, parseIP: string -> Option<IP>,
                            parseIPandMask: string -> Option<IPNet>, lookupIP: string -> Option<seq<IP>>,
                            contains: (IPNet, IP) -> bool)
      returns (err: Option<CreateError>)
      modifies this`BridgeIPRangeNet, this`ClientNetwork, this`ExternalNetwork, this`ManagementNetwork, this`DNS
      ensures err.Some? ==> err.value.BridgeRangeInvalid? || NetworkError(err.value) || err.value == InvalidDNSServer
      ensures err == None <==>
                AddressesAccepted(flags, old(ClientNetwork), old(ExternalNetwork), old(ManagementNetwork),
                                  cidr, parseIP, parseIPandMask, lookupIP, contains)
      ensures err == None ==>
                && AddressesSettled(old(ClientNetwork), old(ExternalNetwork), old(ManagementNetwork), old(DNS),
                                    cidr, parseIP, parseIPandMask, lookupIP, contains)
    {
      err := ProcessBridgeNetwork(cidr);
      if err.Some? {
        return err;
      }
      var n;
      n, err := ProcessNetwork(ClientNetwork, "client", flags.clientNetworkName, flags.clientNetworkIP,
                               flags.clientNetworkGateway, parseIPandMask, lookupIP, contains);
      ClientNetwork := n;
      if err.Some? {
        return err;
      }
      n, err := ProcessNetwork(ExternalNetwork, "external", flags.externalNetworkName, flags.externalNetworkIP,
                               flags.externalNetworkGateway, parseIPandMask, lookupIP, contains);
      ExternalNetwork := n;
      if err.Some? {
        return err;
      }
      n, err := ProcessNetwork(ManagementNetwork, "management", flags.managementNetworkName, flags.managementNetworkIP,
                               flags.managementNetworkGateway, parseIPandMask, lookupIP, contains);
      ManagementNetwork := n;
      if err.Some? {
        return err;
      }
      err := ProcessDNSServers(parseIP);
    }
  }
}
