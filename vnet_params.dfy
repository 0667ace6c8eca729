/**
 * The parsers of the installer's container-network options
 * (cmd/vic-machine/create/create.go): every option value has the form
 * `vnet[:value]`, where `vnet` is a vSphere network name and `value` is an
 * alias, a gateway in CIDR form, an IP range or a DNS server, depending on the
 * option. The text parser of the value is a function parameter.
 */
module VnetParams {
  import opened Wrappers
  import opened Strings
  import opened NetTypes

  /** The two errors of splitVnetParam. */
  datatype SplitError =
    /** "Invalid value for parameter <p>": more than one `:` */
    | InvalidValue(param: string)
    /** "Container network not specified in parameter <p>": nothing before the `:` */
    | NetworkNotSpecified(param: string)

  datatype ParamError =
    /** "Error parsing container network parameter <p>: ..." after a split error */
    | BadParameter(param: string, cause: SplitError)
    /** "Error parsing container network parameter <p>: ..." after the value did not parse */
    | BadValue(param: string, value: string)
    /** "Duplicate gateway specified for container network <vnet>" */
    | DuplicateGateway(vnet: string)
    /** "DNS IP not specified for container network <vnet>" */
    | DNSNotSpecified(vnet: string)

  /**
   * splitVnetParam: the vSphere network and the value after the `:` ("" when
   * there is none). The network must be non-empty and there is at most one `:`.
   */
  function SplitVnetParam(p: string): (r: Result<(string, string), SplitError>)
    ensures Count(p, ':') > 1 ==> r == Err(InvalidValue(p))
    ensures Count(p, ':') <= 1 && (p == "" || p[0] == ':') ==> r == Err(NetworkNotSpecified(p))
    ensures Count(p, ':') <= 1 && p != "" && p[0] != ':' ==> r.Ok?
    ensures r.Ok? ==> r.value.0 != "" && ':' !in r.value.0 && ':' !in r.value.1
  {
    var mapped := Split(p, ':');
    if |mapped| == 0 || |mapped| > 2 then Err(InvalidValue(p))
    else
      FirstPieceIsEmpty(p);
      var vnet := mapped[0];
      if vnet == "" then Err(NetworkNotSpecified(p))
      else Ok((vnet, if |mapped| > 1 then mapped[1] else ""))
  }

  /** The first piece of a split is empty exactly when the string is empty or starts with the separator. */
  lemma FirstPieceIsEmpty(p: string)
    ensures Split(p, ':')[0] == "" <==> p == "" || p[0] == ':'
  {
    JoinSplit(p, ':');
  }

  /**
   * What a successful split means: `vnet:value` or a bare `vnet` (an empty value
   * after the `:` reads like no value).
   */
  lemma {:induction false} SplitVnetParamOk(p: string)
    requires SplitVnetParam(p).Ok?
    ensures var (vnet, value) := SplitVnetParam(p).value;
            if ':' in p then p == vnet + ":" + value else p == vnet && value == ""
  {
    var parts := Split(p, ':');
    JoinSplit(p, ':');
    if ':' in p {
      assert |parts| == 2;
      assert Join(parts, ':') == parts[0] + [':'] + Join(parts[1..], ':');
    } else {
      SplitWithoutSeparator(p, ':');
    }
  }

  /** Writing a network and a value with one `:` between them splits back into both. */
  lemma SplitVnetParamRoundTrip(vnet: string, value: string)
    requires vnet != "" && ':' !in vnet && ':' !in value
    ensures SplitVnetParam(vnet + ":" + value) == Ok((vnet, value))
    ensures SplitVnetParam(vnet) == Ok((vnet, ""))
  {
    SplitWithoutSeparator(value, ':');
    SplitAtFirstSeparator(vnet, ':', value);
    SplitWithoutSeparator(vnet, ':');
  }

  /**
   * parseVnetParam: split, then hand the value to the option's text parser;
   * either failure is reported against the whole parameter.
   */
  function ParseVnetParam<T>(p: string, unmarshal: string -> Option<T>): Result<(string, T), ParamError> {
    match SplitVnetParam(p)
    case Err(e) => Err(BadParameter(p, e))
    case Ok((vnet, v)) =>
      match unmarshal(v)
      case None => Err(BadValue(p, v))
      case Some(x) => Ok((vnet, x))
  }

  /** A successful parse is the network and the parsed value; a split error or a bad value is reported against the parameter. */
  lemma ParseVnetParamOutcome<T>(p: string, unmarshal: string -> Option<T>)
    ensures SplitVnetParam(p).Err? ==> ParseVnetParam(p, unmarshal) == Err(BadParameter(p, SplitVnetParam(p).error))
    ensures SplitVnetParam(p).Ok? && unmarshal(SplitVnetParam(p).value.1).None? ==>
              ParseVnetParam(p, unmarshal) == Err(BadValue(p, SplitVnetParam(p).value.1))
    ensures ParseVnetParam(p, unmarshal).Ok? <==> SplitVnetParam(p).Ok? && unmarshal(SplitVnetParam(p).value.1).Some?
    ensures ParseVnetParam(p, unmarshal).Ok? ==>
              ParseVnetParam(p, unmarshal).value == (SplitVnetParam(p).value.0, unmarshal(SplitVnetParam(p).value.1).value)
  {
  }

  /** `vnet:value` parses to the network and whatever the value parses to. */
  lemma ParseVnetParamRoundTrip<T>(vnet: string, value: string, unmarshal: string -> Option<T>)
    requires vnet != "" && ':' !in vnet && ':' !in value && unmarshal(value).Some?
    ensures ParseVnetParam(vnet + ":" + value, unmarshal) == Ok((vnet, unmarshal(value).value))
  {
    SplitVnetParamRoundTrip(vnet, value);
  }

  // -------------------------------------------------------- entry parsers

  /** How one option value is read: its network and its parsed value, or the error. */
  type EntryParser<T> = string -> Result<(string, T), ParamError>

  /** A --container-network-gateway value: the gateway address with the mask of the network it was written in. */
  function GatewayParser(cidr: string -> Option<CIDR>): EntryParser<IPNet> {
    p =>
      match ParseVnetParam(p, cidr)
      case Err(e) => Err(e)
      case Ok((vnet, c)) => Ok((vnet, IPNet(c.ip, c.network.mask)))
  }

  /** A --container-network-ip-range value. */
  function RangeParser(parseRange: string -> Option<IPRange>): EntryParser<IPRange> {
    p => ParseVnetParam(p, parseRange)
  }

  /** The text form of net.IP: empty text is the nil IP, anything else must parse. */
  function UnmarshalIP(parseIP: string -> Option<IP>): string -> Option<IP> {
    s => if s == "" then Some(NilIP) else parseIP(s)
  }

  /** A --container-network-dns value: a network without an address is an error. */
  function DNSParser(parseIP: string -> Option<IP>): EntryParser<IP> {
    p =>
      match ParseVnetParam(p, UnmarshalIP(parseIP))
      case Err(e) => Err(e)
      case Ok((vnet, ip)) => if ip == NilIP then Err(DNSNotSpecified(vnet)) else Ok((vnet, ip))
  }

  // ---------------------------------------------------------------- gateways

  /** The gateways of the entries, in order; the first entry that fails or repeats a network is the error. */
  function Gateways(cgs: seq<string>, parse: EntryParser<IPNet>): Result<map<string, IPNet>, ParamError>
    decreases |cgs|
  {
    if |cgs| == 0 then Ok(map[])
    else
      match Gateways(cgs[..|cgs| - 1], parse)
      case Err(e) => Err(e)
      case Ok(gws) =>
        match parse(cgs[|cgs| - 1])
        case Err(e) => Err(e)
        case Ok((vnet, gw)) =>
          if vnet in gws then Err(DuplicateGateway(vnet)) else Ok(gws[vnet := gw])
  }

  /** parseContainerNetworkGateways */
  method ParseContainerNetworkGateways(cgs: seq<string>, cidr: string -> Option<CIDR>)
    returns (r: Result<map<string, IPNet>, ParamError>)
    ensures r == Gateways(cgs, GatewayParser(cidr))
  {
    var gws: map<string, IPNet> := map[];
    var i := 0;
    while i < |cgs|
      invariant 0 <= i <= |cgs|
      invariant Gateways(cgs[..i], GatewayParser(cidr)) == Ok(gws)
    {
      assert cgs[..i + 1][..i] == cgs[..i];
      var entry := ParseVnetParam(cgs[i], cidr);
      if entry.Err? {
        GatewaysErrorPersists(cgs, GatewayParser(cidr), i + 1);
        return Err(entry.error);
      }
      var (vnet, c) := entry.value;
      if vnet in gws {
        GatewaysErrorPersists(cgs, GatewayParser(cidr), i + 1);
        return Err(DuplicateGateway(vnet));
      }
      gws := gws[vnet := IPNet(c.ip, c.network.mask)];
      i := i + 1;
    }
    assert cgs[..i] == cgs;
    return Ok(gws);
  }

  /** Once a prefix of the entries fails, the whole list fails with the same error. */
  lemma {:induction false} GatewaysErrorPersists(cgs: seq<string>, parse: EntryParser<IPNet>, i: nat)
    requires i <= |cgs| && Gateways(cgs[..i], parse).Err?
    ensures Gateways(cgs, parse) == Gateways(cgs[..i], parse)
    decreases |cgs|
  {
    if i < |cgs| {
      assert cgs[..|cgs| - 1][..i] == cgs[..i];
      GatewaysErrorPersists(cgs[..|cgs| - 1], parse, i);
    } else {
      assert cgs[..i] == cgs;
    }
  }

  /** Every entry parses and no network is named twice. */
  ghost predicate GatewaysWellFormed(cgs: seq<string>, parse: EntryParser<IPNet>) {
    && (forall i :: 0 <= i < |cgs| ==> parse(cgs[i]).Ok?)
    && (forall i, j :: 0 <= i < j < |cgs| ==> parse(cgs[i]).value.0 != parse(cgs[j]).value.0)
  }

  /** One step of Gateways: a successful parse extends the parse of the shorter list by one new key. */
  lemma GatewaysStep(cgs: seq<string>, parse: EntryParser<IPNet>)
    requires |cgs| > 0 && Gateways(cgs, parse).Ok?
    ensures Gateways(cgs[..|cgs| - 1], parse).Ok? && parse(cgs[|cgs| - 1]).Ok?
    ensures parse(cgs[|cgs| - 1]).value.0 !in Gateways(cgs[..|cgs| - 1], parse).value
    ensures Gateways(cgs, parse).value ==
              Gateways(cgs[..|cgs| - 1], parse).value[parse(cgs[|cgs| - 1]).value.0 := parse(cgs[|cgs| - 1]).value.1]
  {
  }

  /** Each entry of a successful parse is a key holding that entry's gateway. */
  lemma {:induction false} GatewaysHoldEntries(cgs: seq<string>, parse: EntryParser<IPNet>)
    requires Gateways(cgs, parse).Ok?
    ensures forall i :: 0 <= i < |cgs| ==>
              && parse(cgs[i]).Ok?
              && parse(cgs[i]).value.0 in Gateways(cgs, parse).value
              && Gateways(cgs, parse).value[parse(cgs[i]).value.0] == parse(cgs[i]).value.1
    decreases |cgs|
  {
    if |cgs| > 0 {
      var n := |cgs| - 1;
      var pre := cgs[..n];
      GatewaysStep(cgs, parse);
      GatewaysHoldEntries(pre, parse);
      var gws := Gateways(pre, parse).value;
      forall i | 0 <= i < n
        ensures parse(cgs[i]).Ok?
        ensures parse(cgs[i]).value.0 in gws
        ensures parse(cgs[i]).value.0 != parse(cgs[n]).value.0
        ensures gws[parse(cgs[i]).value.0] == parse(cgs[i]).value.1
      {
        assert pre[i] == cgs[i];
      }
    }
  }

  /** A successful parse has no key that no entry named. */
  lemma {:induction false} GatewaysKeysAreNamed(cgs: seq<string>, parse: EntryParser<IPNet>)
    requires Gateways(cgs, parse).Ok?
    ensures forall vnet :: vnet in Gateways(cgs, parse).value ==>
              exists i :: 0 <= i < |cgs| && parse(cgs[i]).Ok? && parse(cgs[i]).value.0 == vnet
    decreases |cgs|
  {
    if |cgs| > 0 {
      var n := |cgs| - 1;
      var pre := cgs[..n];
      GatewaysStep(cgs, parse);
      GatewaysKeysAreNamed(pre, parse);
      forall vnet | vnet in Gateways(cgs, parse).value
        ensures exists i :: 0 <= i < |cgs| && parse(cgs[i]).Ok? && parse(cgs[i]).value.0 == vnet
      {
        if vnet != parse(cgs[n]).value.0 {
          var i :| 0 <= i < n && parse(pre[i]).Ok? && parse(pre[i]).value.0 == vnet;
          assert cgs[i] == pre[i];
        }
      }
    }
  }

  /** A successful parse comes from well-formed entries. */
  lemma {:induction false} GatewaysOkIsWellFormed(cgs: seq<string>, parse: EntryParser<IPNet>)
    requires Gateways(cgs, parse).Ok?
    ensures GatewaysWellFormed(cgs, parse)
    decreases |cgs|
  {
    if |cgs| > 0 {
      var n := |cgs| - 1;
      var pre := cgs[..n];
      GatewaysStep(cgs, parse);
      GatewaysOkIsWellFormed(pre, parse);
      GatewaysHoldEntries(cgs, parse);
      GatewaysHoldEntries(pre, parse);
      forall i, j | 0 <= i < j < |cgs|
        ensures parse(cgs[i]).value.0 != parse(cgs[j]).value.0
      {
        assert pre[i] == cgs[i];
        if j < n {
          assert pre[j] == cgs[j];
        } else {
          assert parse(pre[i]).value.0 in Gateways(pre, parse).value;
        }
      }
    }
  }

  /** Well-formed entries parse. */
  lemma {:induction false} WellFormedGatewaysParse(cgs: seq<string>, parse: EntryParser<IPNet>)
    requires GatewaysWellFormed(cgs, parse)
    ensures Gateways(cgs, parse).Ok?
    decreases |cgs|
  {
    if |cgs| > 0 {
      var n := |cgs| - 1;
      var pre := cgs[..n];
      assert forall i :: 0 <= i < n ==> pre[i] == cgs[i];
      assert GatewaysWellFormed(pre, parse);
      WellFormedGatewaysParse(pre, parse);
      GatewaysKeysAreNamed(pre, parse);
    }
  }

  /**
   * The gateways parse exactly when every entry parses and no network has two
   * gateways; then a network is a key exactly when an entry names it, and it
   * holds that entry's gateway.
   */
  lemma GatewaysMeaning(cgs: seq<string>, parse: EntryParser<IPNet>)
    ensures Gateways(cgs, parse).Ok? <==> GatewaysWellFormed(cgs, parse)
    ensures Gateways(cgs, parse).Ok? ==>
              && (forall vnet :: vnet in Gateways(cgs, parse).value <==>
                    exists i :: 0 <= i < |cgs| && parse(cgs[i]).Ok? && parse(cgs[i]).value.0 == vnet)
              && (forall i :: 0 <= i < |cgs| ==> Gateways(cgs, parse).value[parse(cgs[i]).value.0] == parse(cgs[i]).value.1)
  {
    if Gateways(cgs, parse).Ok? {
      GatewaysOkIsWellFormed(cgs, parse);
      GatewaysHoldEntries(cgs, parse);
      GatewaysKeysAreNamed(cgs, parse);
    }
    if GatewaysWellFormed(cgs, parse) {
      WellFormedGatewaysParse(cgs, parse);
    }
  }

  /** A second gateway for the same network is rejected, whatever the two gateways are. */
  lemma DuplicateGatewayFails(cg1: string, cg2: string, parse: EntryParser<IPNet>)
    requires parse(cg1).Ok? && parse(cg2).Ok? && parse(cg1).value.0 == parse(cg2).value.0
    ensures Gateways([cg1, cg2], parse) == Err(DuplicateGateway(parse(cg1).value.0))
  {
    assert [cg1, cg2][..1] == [cg1];
    assert [cg1][..0] == [];
    assert Gateways([cg1], parse) == Ok(map[parse(cg1).value.0 := parse(cg1).value.1]);
  }

  // ------------------------------------------------------ ranges and DNS

  /** The values of the entries, grouped by network in input order; the first entry that fails is the error. */
  function Collect<T>(ps: seq<string>, parse: EntryParser<T>): Result<map<string, seq<T>>, ParamError>
    decreases |ps|
  {
    if |ps| == 0 then Ok(map[])
    else
      match Collect(ps[..|ps| - 1], parse)
      case Err(e) => Err(e)
      case Ok(m) =>
        match parse(ps[|ps| - 1])
        case Err(e) => Err(e)
        case Ok((vnet, v)) => Ok(m[vnet := Get(m, vnet, []) + [v]])
  }

  /** parseContainerNetworkIPRanges */
  method ParseContainerNetworkIPRanges(cps: seq<string>, parseRange: string -> Option<IPRange>)
    returns (r: Result<map<string, seq<IPRange>>, ParamError>)
    ensures r == Collect(cps, RangeParser(parseRange))
  {
    var pools: map<string, seq<IPRange>> := map[];
    var i := 0;
    while i < |cps|
      invariant 0 <= i <= |cps|
      invariant Collect(cps[..i], RangeParser(parseRange)) == Ok(pools)
    {
      assert cps[..i + 1][..i] == cps[..i];
      var entry := ParseVnetParam(cps[i], parseRange);
      if entry.Err? {
        CollectErrorPersists(cps, RangeParser(parseRange), i + 1);
        return Err(entry.error);
      }
      var (vnet, ipr) := entry.value;
      pools := pools[vnet := Get(pools, vnet, []) + [ipr]];
      i := i + 1;
    }
    assert cps[..i] == cps;
    return Ok(pools);
  }

  /** parseContainerNetworkDNS */
  method ParseContainerNetworkDNS(cds: seq<string>, parseIP: string -> Option<IP>)
    returns (r: Result<map<string, seq<IP>>, ParamError>)
    ensures r == Collect(cds, DNSParser(parseIP))
  {
    var dns: map<string, seq<IP>> := map[];
    var i := 0;
    while i < |cds|
      invariant 0 <= i <= |cds|
      invariant Collect(cds[..i], DNSParser(parseIP)) == Ok(dns)
    {
      assert cds[..i + 1][..i] == cds[..i];
      var entry := ParseVnetParam(cds[i], UnmarshalIP(parseIP));
      if entry.Err? {
        CollectErrorPersists(cds, DNSParser(parseIP), i + 1);
        return Err(entry.error);
      }
      var (vnet, ip) := entry.value;
      if ip == NilIP {
        CollectErrorPersists(cds, DNSParser(parseIP), i + 1);
        return Err(DNSNotSpecified(vnet));
      }
      dns := dns[vnet := Get(dns, vnet, []) + [ip]];
      i := i + 1;
    }
    assert cds[..i] == cds;
    return Ok(dns);
  }

  /** Once a prefix of the entries fails, the whole list fails with the same error. */
  lemma {:induction false} CollectErrorPersists<T>(ps: seq<string>, parse: EntryParser<T>, i: nat)
    requires i <= |ps| && Collect(ps[..i], parse).Err?
    ensures Collect(ps, parse) == Collect(ps[..i], parse)
    decreases |ps|
  {
    if i < |ps| {
      assert ps[..|ps| - 1][..i] == ps[..i];
      CollectErrorPersists(ps[..|ps| - 1], parse, i);
    } else {
      assert ps[..i] == ps;
    }
  }

  /** The values, in input order, of the entries that parse and name `vnet`. */
  function ValuesFor<T>(ps: seq<string>, parse: EntryParser<T>, vnet: string): seq<T>
    decreases |ps|
  {
    if |ps| == 0 then []
    else
      var rest := ValuesFor(ps[..|ps| - 1], parse, vnet);
      var last := parse(ps[|ps| - 1]);
      if last.Ok? && last.value.0 == vnet then rest + [last.value.1] else rest
  }

  /** Some entry parses and names `vnet` exactly when `vnet` has values. */
  lemma {:induction false} ValuesForNonEmpty<T>(ps: seq<string>, parse: EntryParser<T>, vnet: string)
    ensures ValuesFor(ps, parse, vnet) != [] <==>
              exists i :: 0 <= i < |ps| && parse(ps[i]).Ok? && parse(ps[i]).value.0 == vnet
    decreases |ps|
  {
    if |ps| > 0 {
      var n := |ps| - 1;
      var pre := ps[..n];
      ValuesForNonEmpty(pre, parse, vnet);
      if exists i :: 0 <= i < |ps| && parse(ps[i]).Ok? && parse(ps[i]).value.0 == vnet {
        var i :| 0 <= i < |ps| && parse(ps[i]).Ok? && parse(ps[i]).value.0 == vnet;
        if i < n {
          assert pre[i] == ps[i];
        }
      }
      if ValuesFor(pre, parse, vnet) != [] {
        var i :| 0 <= i < n && parse(pre[i]).Ok? && parse(pre[i]).value.0 == vnet;
        assert pre[i] == ps[i];
      }
    }
  }

  /** The entries collect exactly when every entry parses. */
  lemma {:induction false} CollectOkIffParse<T>(ps: seq<string>, parse: EntryParser<T>)
    ensures Collect(ps, parse).Ok? <==> forall i :: 0 <= i < |ps| ==> parse(ps[i]).Ok?
    decreases |ps|
  {
    if |ps| > 0 {
      var n := |ps| - 1;
      CollectOkIffParse(ps[..n], parse);
      assert forall i :: 0 <= i < n ==> ps[..n][i] == ps[i];
    }
  }

  /** Each network holds every value given for it, in input order, and is a key only when it has values. */
  lemma {:induction false} CollectGathers<T>(ps: seq<string>, parse: EntryParser<T>)
    requires Collect(ps, parse).Ok?
    ensures forall vnet :: Get(Collect(ps, parse).value, vnet, []) == ValuesFor(ps, parse, vnet)
    ensures forall vnet :: vnet in Collect(ps, parse).value <==> ValuesFor(ps, parse, vnet) != []
    decreases |ps|
  {
    if |ps| > 0 {
      CollectGathers(ps[..|ps| - 1], parse);
    }
  }

  /**
   * The entries collect exactly when every entry parses; then a network is a
   * key exactly when some entry names it, and it holds all the values given
   * for it, in input order.
   */
  lemma CollectMeaning<T>(ps: seq<string>, parse: EntryParser<T>)
    ensures Collect(ps, parse).Ok? <==> forall i :: 0 <= i < |ps| ==> parse(ps[i]).Ok?
    ensures Collect(ps, parse).Ok? ==>
              && (forall vnet :: vnet in Collect(ps, parse).value <==>
                    exists i :: 0 <= i < |ps| && parse(ps[i]).Ok? && parse(ps[i]).value.0 == vnet)
              && (forall vnet :: Get(Collect(ps, parse).value, vnet, []) == ValuesFor(ps, parse, vnet))
  {
    CollectOkIffParse(ps, parse);
    if Collect(ps, parse).Ok? {
      CollectGathers(ps, parse);
      forall vnet | true
        ensures vnet in Collect(ps, parse).value <==>
                  exists i :: 0 <= i < |ps| && parse(ps[i]).Ok? && parse(ps[i]).value.0 == vnet
      {
        ValuesForNonEmpty(ps, parse, vnet);
      }
    }
  }

  /** An entry `vnet` or `vnet:` names a network but gives no DNS server, which is an error. */
  lemma DNSWithoutAddressFails(vnet: string, parseIP: string -> Option<IP>)
    requires vnet != "" && ':' !in vnet
    ensures Collect([vnet], DNSParser(parseIP)) == Err(DNSNotSpecified(vnet))
    ensures Collect([vnet + ":"], DNSParser(parseIP)) == Err(DNSNotSpecified(vnet))
  {
    SplitVnetParamRoundTrip(vnet, "");
    assert vnet + ":" + "" == vnet + ":";
    assert [vnet][..0] == [] && [vnet + ":"][..0] == [];
  }

  /** An entry `vnet:addr` whose address parses gives that server for that network. */
  lemma DNSEntryParses(vnet: string, addr: string, parseIP: string -> Option<IP>)
    requires vnet != "" && ':' !in vnet && ':' !in addr && addr != ""
    requires parseIP(addr).Some? && parseIP(addr).value != NilIP
    ensures DNSParser(parseIP)(vnet + ":" + addr) == Ok((vnet, parseIP(addr).value))
  {
    ParseVnetParamRoundTrip(vnet, addr, UnmarshalIP(parseIP));
  }
}
