/**
 * The interface table of the supervisor's network test (lib/tether/net_linux_test.go).
 *
 * The test's mocker stands in for netlink: it keeps a table of interfaces keyed
 * by name and a counter of the slots handed out so far. AddInterface registers
 * an interface on the next slot and returns the slot as a decimal string, which
 * is what an endpoint's ID carries. TestSetIpAddress then starts the supervisor
 * with three static endpoints, two of them on one slot, and looks at the table.
 *
 * The supervisor's own endpoint code (net_linux.go) is not part of this model.
 * Its effect on the table is the reference function Apply below: an endpoint
 * names its interface by slot, may rename it, brings it up and, when static,
 * gives it the endpoint's address once. Go's map iteration order is free, so the
 * test outcome is proved for every order of the three endpoints.
 */
module NetMock {
  import opened Wrappers
  import opened NetTypes

  // ---------------------------------------------------------------------------
  // Slot numbers as decimal strings (strconv.Itoa and strconv.Atoi)
  // ---------------------------------------------------------------------------

  predicate IsDigit(c: char) {
    '0' <= c <= '9'
  }

  predicate AllDigits(s: string) {
    forall i :: 0 <= i < |s| ==> IsDigit(s[i])
  }

  function DigitChar(d: nat): (c: char)
    requires d < 10
    ensures IsDigit(c)
  {
    (('0' as int) + d) as char
  }

  /** The decimal digits of n, most significant first, without leading zeros. */
  function Digits(n: nat): (s: string)
    ensures |s| >= 1 && AllDigits(s)
    ensures n >= 10 ==> s[0] != '0'
    decreases n
  {
    if n < 10 then [DigitChar(n)] else Digits(n / 10) + [DigitChar(n % 10)]
  }

  /** strconv.Itoa: a leading '-' for negative numbers, then the digits. */
  function Itoa(n: int): (s: string)
    ensures |s| >= 1
    ensures n >= 0 ==> AllDigits(s)
    ensures n < 0 ==> s[0] == '-' && AllDigits(s[1..])
  {
    if n < 0 then "-" + Digits(-n) else Digits(n)
  }

  /** The value of a string of decimal digits. */
  function DigitsValue(s: string): nat
    requires AllDigits(s)
    decreases |s|
  {
    if |s| == 0 then 0 else DigitsValue(s[..|s| - 1]) * 10 + ((s[|s| - 1] as int) - ('0' as int))
  }

  /** strconv.Atoi: an optional sign and at least one digit; anything else fails. */
  function Atoi(s: string): (r: Option<int>)
    ensures r.Some? ==> |s| >= 1
    ensures AllDigits(s) && |s| >= 1 ==> r == Some(DigitsValue(s))
  {
    if |s| >= 2 && s[0] == '-' && AllDigits(s[1..]) then Some(0 - DigitsValue(s[1..]))
    else if |s| >= 2 && s[0] == '+' && AllDigits(s[1..]) then Some(DigitsValue(s[1..]))
    else if |s| >= 1 && AllDigits(s) then Some(DigitsValue(s))
    else None
  }

  /** Reading the digits back gives the number. */
  lemma {:induction false} DigitsRoundTrip(n: nat)
    ensures DigitsValue(Digits(n)) == n
    decreases n
  {
    if n >= 10 {
      DigitsRoundTrip(n / 10);
      var s := Digits(n);
      assert s[..|s| - 1] == Digits(n / 10);
    }
  }

  /** The slot string an endpoint carries is read back as the slot itself. */
  lemma ItoaRoundTrip(n: int)
    ensures Atoi(Itoa(n)) == Some(n)
  {
    if n < 0 {
      DigitsRoundTrip(-n);
      assert Itoa(n)[1..] == Digits(-n);
    } else {
      DigitsRoundTrip(n);
    }
  }

  /** Different slots give different strings. */
  lemma ItoaInjective(a: int, b: int)
    ensures Itoa(a) == Itoa(b) <==> a == b
  {
    ItoaRoundTrip(a);
    ItoaRoundTrip(b);
  }

  // ---------------------------------------------------------------------------
  // The interface table
  // ---------------------------------------------------------------------------

  /** The mocker's Interface: its link attributes (name, index), whether it is up, its addresses. */
  datatype Interface = Interface(name: string, index: int, up: bool, addrs: seq<IPNet>)

  /** Every entry is keyed by its own name, and no two entries share an index. */
  ghost predicate Consistent(ifaces: map<string, Interface>) {
    && (forall k :: k in ifaces ==> ifaces[k].name == k)
    && (forall k, k' :: k in ifaces && k' in ifaces && ifaces[k].index == ifaces[k'].index ==> k == k')
  }

  /** Consistent, and no index is above the last slot handed out. */
  ghost predicate WellFormed(ifaces: map<string, Interface>, maxSlot: int) {
    Consistent(ifaces) && forall k :: k in ifaces ==> ifaces[k].index <= maxSlot
  }

  /** The endpoint fields the interface table depends on: the slot string, the rename, Static and IP. */
  datatype Endpoint = Endpoint(id: string, rename: string, isStatic: bool, ip: Option<IPNet>)

  /** The interface holding a slot, if any. */
  ghost function SlotOwner(ifaces: map<string, Interface>, slot: int): (owner: Option<string>)
    ensures owner.Some? ==> owner.value in ifaces && ifaces[owner.value].index == slot
    ensures owner.None? ==> forall k :: k in ifaces ==> ifaces[k].index != slot
  {
    if exists k :: k in ifaces && ifaces[k].index == slot then
      var k :| k in ifaces && ifaces[k].index == slot; Some(k)
    else None
  }

  /** The name an endpoint leaves its interface with: the rename when one is given. */
  function NewName(e: Endpoint, current: string): string {
    if e.rename != "" then e.rename else current
  }

  /** The addresses after a static endpoint: its address once, at the end. */
  function Added(addrs: seq<IPNet>, e: Endpoint): seq<IPNet> {
    if e.isStatic && e.ip.Some? && e.ip.value !in addrs then addrs + [e.ip.value] else addrs
  }

  /**
   * The table after one endpoint. An unparsable slot, a slot no interface
   * holds, or a rename onto a name another interface has is an error for that
   * endpoint alone and changes nothing.
   */
  ghost function Apply(ifaces: map<string, Interface>, e: Endpoint): map<string, Interface> {
    var slot := Atoi(e.id);
    if slot.None? then ifaces
    else
      var owner := SlotOwner(ifaces, slot.value);
      if owner.None? then ifaces
      else
        var k := owner.value;
        var name := NewName(e, k);
        if name != k && name in ifaces then ifaces
        else (ifaces - {k})[name := Interface(name, ifaces[k].index, true, Added(ifaces[k].addrs, e))]
  }

  /** The table after the endpoints, in the order given. */
  ghost function ApplyAll(ifaces: map<string, Interface>, es: seq<Endpoint>): map<string, Interface>
    decreases |es|
  {
    if es == [] then ifaces else ApplyAll(Apply(ifaces, es[0]), es[1..])
  }

  /** In a consistent table the holder of an interface's index is that interface. */
  lemma OwnerIsUnique(ifaces: map<string, Interface>, k: string)
    requires Consistent(ifaces) && k in ifaces
    ensures SlotOwner(ifaces, ifaces[k].index) == Some(k)
  {
  }

  /** Applying an endpoint keeps the table consistent and moves no interface to another index. */
  lemma ApplyConsistent(ifaces: map<string, Interface>, e: Endpoint)
    requires Consistent(ifaces)
    ensures Consistent(Apply(ifaces, e))
    ensures forall k :: k in Apply(ifaces, e) ==> exists k0 :: k0 in ifaces && ifaces[k0].index == Apply(ifaces, e)[k].index
  {
  }

  /** Applying an endpoint keeps the table well formed and hands out no new index. */
  lemma ApplyWellFormed(ifaces: map<string, Interface>, maxSlot: int, e: Endpoint)
    requires WellFormed(ifaces, maxSlot)
    ensures WellFormed(Apply(ifaces, e), maxSlot)
  {
    ApplyConsistent(ifaces, e);
  }

  /** The exact new table when the endpoint's slot is k's and the new name is free. */
  lemma ApplyAt(ifaces: map<string, Interface>, e: Endpoint, k: string)
    requires Consistent(ifaces) && k in ifaces
    requires Atoi(e.id) == Some(ifaces[k].index)
    requires NewName(e, k) == k || NewName(e, k) !in ifaces
    ensures Apply(ifaces, e) ==
            (ifaces - {k})[NewName(e, k) := Interface(NewName(e, k), ifaces[k].index, true, Added(ifaces[k].addrs, e))]
  {
    OwnerIsUnique(ifaces, k);
  }

  /** An endpoint leaves every interface on another slot exactly as it was. */
  lemma ApplyFrame(ifaces: map<string, Interface>, e: Endpoint, k: string)
    requires Consistent(ifaces) && k in ifaces
    requires Atoi(e.id) != Some(ifaces[k].index)
    ensures k in Apply(ifaces, e) && Apply(ifaces, e)[k] == ifaces[k]
  {
  }

  /** Applying the same endpoint again changes nothing: no second rename, no duplicate address. */
  lemma ApplyIdempotent(ifaces: map<string, Interface>, e: Endpoint)
    requires Consistent(ifaces)
    ensures Apply(Apply(ifaces, e), e) == Apply(ifaces, e)
  {
    var slot := Atoi(e.id);
    if slot.Some? {
      var owner := SlotOwner(ifaces, slot.value);
      if owner.Some? {
        var k := owner.value;
        var name := NewName(e, k);
        if !(name != k && name in ifaces) {
          var once := Apply(ifaces, e);
          ApplyConsistent(ifaces, e);
          assert name in once && once[name].index == slot.value;
          assert NewName(e, name) == name;
          ApplyAt(once, e, name);
          assert Added(once[name].addrs, e) == once[name].addrs;
          assert (once - {name})[name := once[name]] == once;
        }
      }
    }
  }

  // ---------------------------------------------------------------------------
  // TestSetIpAddress
  // ---------------------------------------------------------------------------

  /** 172.16.0.10/24, the second static address on the bridge slot. */
  const SecondIP: IPNet := IPNet([172, 16, 0, 10], [255, 255, 255, 0])

  /** The six orders in which three map entries can be visited. */
  predicate IsOrder<T(==)>(o: seq<T>, a: T, b: T, c: T) {
    o == [a, b, c] || o == [a, c, b] || o == [b, a, c] || o == [b, c, a] || o == [c, a, b] || o == [c, b, a]
  }

  /** Each of the six orders visits every entry exactly once. */
  lemma OrdersAreArrangements<T>(a: T, b: T, c: T, o: seq<T>)
    requires IsOrder(o, a, b, c)
    ensures |o| == 3 && multiset(o) == multiset{a, b, c}
  {
  }

  /** Every arrangement of three distinct entries is one of the six orders. */
  lemma {:induction false} OrdersComplete<T>(a: T, b: T, c: T, o: seq<T>)
    requires a != b && b != c && a != c
    requires |o| == 3 && multiset(o) == multiset{a, b, c}
    ensures IsOrder(o, a, b, c)
  {
    assert o == [o[0], o[1], o[2]];
    assert o[0] in multiset(o) && o[1] in multiset(o) && o[2] in multiset(o);
    assert multiset{o[0], o[1], o[2]} == multiset{a, b, c};
    assert o[0] != o[1] && o[1] != o[2] && o[0] != o[2];
  }

  /** The three endpoints of the test's configuration, keyed by network name. */
  function TestNetworks(bridge: string, external: string, localhost: IPNet, gateway: IPNet): map<string, Endpoint> {
    map[
      "bridge" := Endpoint(bridge, "bridge", true, Some(localhost)),
      "cnet" := Endpoint(bridge, "", true, Some(SecondIP)),
      "external" := Endpoint(external, "external", true, Some(gateway))
    ]
  }

  /** The endpoints in the order the supervisor visits the network names. */
  function InOrder<K>(networks: map<K, Endpoint>, order: seq<K>): (es: seq<Endpoint>)
    requires forall n :: n in order ==> n in networks
    ensures |es| == |order| && forall i :: 0 <= i < |order| ==> es[i] == networks[order[i]]
  {
    seq(|order|, i requires 0 <= i < |order| => networks[order[i]])
  }

  /** The table the test starts the supervisor with: eth1 and eth2 added on the next two slots. */
  function WithTestInterfaces(ifaces: map<string, Interface>, maxSlot: int): map<string, Interface> {
    ifaces["eth1" := Interface("eth1", maxSlot + 1, true, [])]["eth2" := Interface("eth2", maxSlot + 2, true, [])]
  }

  /** What the test asserts: "bridge" exists with two addresses and "external" with one. */
  ghost predicate TestOutcome(r: map<string, Interface>, maxSlot: int, localhost: IPNet, gateway: IPNet) {
    && "bridge" in r && "external" in r && "eth1" !in r && "eth2" !in r
    && r["bridge"].index == maxSlot + 1 && r["bridge"].up
    && |r["bridge"].addrs| == 2 && multiset(r["bridge"].addrs) == multiset{localhost, SecondIP}
    && r["external"].index == maxSlot + 2 && r["external"].up && r["external"].addrs == [gateway]
  }

  lemma ApplyAllThree(ifaces: map<string, Interface>, a: Endpoint, b: Endpoint, c: Endpoint)
    ensures ApplyAll(ifaces, [a, b, c]) == Apply(Apply(Apply(ifaces, a), b), c)
  {
    var t1 := Apply(ifaces, a);
    var t2 := Apply(t1, b);
    var t3 := Apply(t2, c);
    assert [a, b, c][1..] == [b, c];
    assert ApplyAll(ifaces, [a, b, c]) == ApplyAll(t1, [b, c]);
    assert [b, c][1..] == [c];
    assert ApplyAll(t1, [b, c]) == ApplyAll(t2, [c]);
    assert [c][1..] == [];
    assert ApplyAll(t2, [c]) == ApplyAll(t3, []);
  }

  /** The external endpoint on a table where eth2 still holds its slot and "external" is free. */
  lemma ExternalStep(t: map<string, Interface>, maxSlot: int, x: Endpoint)
    requires WellFormed(t, maxSlot + 2) && "eth2" in t && "external" !in t && t["eth2"].index == maxSlot + 2
    requires Atoi(x.id) == Some(maxSlot + 2) && x.rename == "external" && x.isStatic && x.ip.Some?
    requires t["eth2"].addrs == []
    ensures var r := Apply(t, x);
            && WellFormed(r, maxSlot + 2) && "eth2" !in r
            && r == (t - {"eth2"})["external" := Interface("external", maxSlot + 2, true, [x.ip.value])]
  {
    ApplyAt(t, x, "eth2");
    ApplyWellFormed(t, maxSlot + 2, x);
    assert Added(t["eth2"].addrs, x) == [x.ip.value];
  }

  /** The bridge endpoint: slot maxSlot+1, held under `k`, renamed to "bridge". */
  lemma BridgeStep(t: map<string, Interface>, maxSlot: int, b: Endpoint, k: string)
    requires WellFormed(t, maxSlot + 2) && k in t && t[k].index == maxSlot + 1
    requires k == "bridge" || "bridge" !in t
    requires Atoi(b.id) == Some(maxSlot + 1) && b.rename == "bridge"
    ensures var r := Apply(t, b);
            && WellFormed(r, maxSlot + 2)
            && r == (t - {k})["bridge" := Interface("bridge", maxSlot + 1, true, Added(t[k].addrs, b))]
  {
    ApplyAt(t, b, k);
    ApplyWellFormed(t, maxSlot + 2, b);
  }

  /** The cnet endpoint: slot maxSlot+1, held under `k`, no rename. */
  lemma CnetStep(t: map<string, Interface>, maxSlot: int, c: Endpoint, k: string)
    requires WellFormed(t, maxSlot + 2) && k in t && t[k].index == maxSlot + 1
    requires Atoi(c.id) == Some(maxSlot + 1) && c.rename == ""
    ensures var r := Apply(t, c);
            && WellFormed(r, maxSlot + 2)
            && r == t[k := Interface(k, maxSlot + 1, true, Added(t[k].addrs, c))]
  {
    ApplyAt(t, c, k);
    ApplyWellFormed(t, maxSlot + 2, c);
    assert (t - {k})[k := Interface(k, maxSlot + 1, true, Added(t[k].addrs, c))]
        == t[k := Interface(k, maxSlot + 1, true, Added(t[k].addrs, c))];
  }

  /**
   * The table and endpoints the test starts the supervisor with: eth1 on slot
   * maxSlot+1 and eth2 on slot maxSlot+2, no addresses yet and the rename
   * targets free; bridge and cnet name the first slot, external the second.
   */
  ghost predicate TestStart(t: map<string, Interface>, maxSlot: int, b: Endpoint, c: Endpoint, x: Endpoint,
                            localhost: IPNet, gateway: IPNet) {
    && WellFormed(t, maxSlot + 2) && "bridge" !in t && "external" !in t
    && "eth1" in t && t["eth1"].index == maxSlot + 1 && t["eth1"].addrs == []
    && "eth2" in t && t["eth2"].index == maxSlot + 2 && t["eth2"].addrs == []
    && Atoi(b.id) == Some(maxSlot + 1) && b.rename == "bridge" && b.isStatic && b.ip == Some(localhost)
    && Atoi(c.id) == Some(maxSlot + 1) && c.rename == "" && c.isStatic && c.ip == Some(SecondIP)
    && Atoi(x.id) == Some(maxSlot + 2) && x.rename == "external" && x.isStatic && x.ip == Some(gateway)
    && localhost != SecondIP
  }

  /** The test outcome when the networks are visited in the order bridge-cnet-external. */
  lemma OutcomeBridgeCnetExternal(t: map<string, Interface>, maxSlot: int, b: Endpoint, c: Endpoint, x: Endpoint,
                    localhost: IPNet, gateway: IPNet)
    requires TestStart(t, maxSlot, b, c, x, localhost, gateway)
    ensures TestOutcome(Apply(Apply(Apply(t, b), c), x), maxSlot, localhost, gateway)
  {
    BridgeStep(t, maxSlot, b, "eth1");
    var t1 := Apply(t, b);
    CnetStep(t1, maxSlot, c, "bridge");
    var t2 := Apply(t1, c);
    ExternalStep(t2, maxSlot, x);
  }

  /** The test outcome when the networks are visited in the order bridge-external-cnet. */
  lemma OutcomeBridgeExternalCnet(t: map<string, Interface>, maxSlot: int, b: Endpoint, c: Endpoint, x: Endpoint,
                    localhost: IPNet, gateway: IPNet)
    requires TestStart(t, maxSlot, b, c, x, localhost, gateway)
    ensures TestOutcome(Apply(Apply(Apply(t, b), x), c), maxSlot, localhost, gateway)
  {
    BridgeStep(t, maxSlot, b, "eth1");
    var t1 := Apply(t, b);
    ExternalStep(t1, maxSlot, x);
    var t2 := Apply(t1, x);
    CnetStep(t2, maxSlot, c, "bridge");
  }

  /** The test outcome when the networks are visited in the order cnet-bridge-external. */
  lemma OutcomeCnetBridgeExternal(t: map<string, Interface>, maxSlot: int, b: Endpoint, c: Endpoint, x: Endpoint,
                    localhost: IPNet, gateway: IPNet)
    requires TestStart(t, maxSlot, b, c, x, localhost, gateway)
    ensures TestOutcome(Apply(Apply(Apply(t, c), b), x), maxSlot, localhost, gateway)
  {
    CnetStep(t, maxSlot, c, "eth1");
    var t1 := Apply(t, c);
    BridgeStep(t1, maxSlot, b, "eth1");
    var t2 := Apply(t1, b);
    ExternalStep(t2, maxSlot, x);
  }

  /** The test outcome when the networks are visited in the order cnet-external-bridge. */
  lemma OutcomeCnetExternalBridge(t: map<string, Interface>, maxSlot: int, b: Endpoint, c: Endpoint, x: Endpoint,
                    localhost: IPNet, gateway: IPNet)
    requires TestStart(t, maxSlot, b, c, x, localhost, gateway)
    ensures TestOutcome(Apply(Apply(Apply(t, c), x), b), maxSlot, localhost, gateway)
  {
    CnetStep(t, maxSlot, c, "eth1");
    var t1 := Apply(t, c);
    ExternalStep(t1, maxSlot, x);
    var t2 := Apply(t1, x);
    BridgeStep(t2, maxSlot, b, "eth1");
  }

  /** The test outcome when the networks are visited in the order external-bridge-cnet. */
  lemma OutcomeExternalBridgeCnet(t: map<string, Interface>, maxSlot: int, b: Endpoint, c: Endpoint, x: Endpoint,
                    localhost: IPNet, gateway: IPNet)
    requires TestStart(t, maxSlot, b, c, x, localhost, gateway)
    ensures TestOutcome(Apply(Apply(Apply(t, x), b), c), maxSlot, localhost, gateway)
  {
    ExternalStep(t, maxSlot, x);
    var t1 := Apply(t, x);
    BridgeStep(t1, maxSlot, b, "eth1");
    var t2 := Apply(t1, b);
    CnetStep(t2, maxSlot, c, "bridge");
  }

  /** The test outcome when the networks are visited in the order external-cnet-bridge. */
  lemma OutcomeExternalCnetBridge(t: map<string, Interface>, maxSlot: int, b: Endpoint, c: Endpoint, x: Endpoint,
                    localhost: IPNet, gateway: IPNet)
    requires TestStart(t, maxSlot, b, c, x, localhost, gateway)
    ensures TestOutcome(Apply(Apply(Apply(t, x), c), b), maxSlot, localhost, gateway)
  {
    ExternalStep(t, maxSlot, x);
    var t1 := Apply(t, x);
    CnetStep(t1, maxSlot, c, "eth1");
    var t2 := Apply(t1, c);
    BridgeStep(t2, maxSlot, b, "eth1");
  }

  /** The test's table and endpoints meet TestStart. */
  lemma TestStartHolds(ifaces: map<string, Interface>, maxSlot: int, localhost: IPNet, gateway: IPNet)
    requires WellFormed(ifaces, maxSlot)
    requires "bridge" !in ifaces && "external" !in ifaces
    requires localhost != SecondIP
    ensures var networks := TestNetworks(Itoa(maxSlot + 1), Itoa(maxSlot + 2), localhost, gateway);
            TestStart(WithTestInterfaces(ifaces, maxSlot), maxSlot,
                      networks["bridge"], networks["cnet"], networks["external"], localhost, gateway)
  {
    ItoaRoundTrip(maxSlot + 1);
    ItoaRoundTrip(maxSlot + 2);
    var t := WithTestInterfaces(ifaces, maxSlot);
    forall k | k in t ensures t[k].name == k && t[k].index <= maxSlot + 2 {
      if k != "eth1" && k != "eth2" {
        assert t[k] == ifaces[k];
      }
    }
    forall k, k' | k in t && k' in t && t[k].index == t[k'].index ensures k == k' {
      if k != "eth1" && k != "eth2" && k' != "eth1" && k' != "eth2" {
        assert t[k] == ifaces[k] && t[k'] == ifaces[k'];
      }
    }
  }

  /** Visiting three entries applies their endpoints one after another. */
  lemma ApplyInOrder<K>(t: map<string, Interface>, networks: map<K, Endpoint>, k0: K, k1: K, k2: K)
    requires k0 in networks && k1 in networks && k2 in networks
    ensures ApplyAll(t, InOrder(networks, [k0, k1, k2])) == Apply(Apply(Apply(t, networks[k0]), networks[k1]), networks[k2])
  {
    assert InOrder(networks, [k0, k1, k2]) == [networks[k0], networks[k1], networks[k2]];
    ApplyAllThree(t, networks[k0], networks[k1], networks[k2]);
  }

  /** The test outcome for every order of visiting three entries holding the bridge, cnet and external endpoints. */
  lemma OutcomeAnyOrder<K>(
    t: map<string, Interface>, maxSlot: int, b: Endpoint, c: Endpoint, x: Endpoint, localhost: IPNet, gateway: IPNet,
    networks: map<K, Endpoint>, kb: K, kc: K, kx: K, order: seq<K>)
    requires TestStart(t, maxSlot, b, c, x, localhost, gateway)
    requires kb in networks && kc in networks && kx in networks
    requires networks[kb] == b && networks[kc] == c && networks[kx] == x
    requires IsOrder(order, kb, kc, kx)
    ensures TestOutcome(ApplyAll(t, InOrder(networks, order)), maxSlot, localhost, gateway)
  {
    if order == [kb, kc, kx] {
      ApplyInOrder(t, networks, kb, kc, kx);
      OutcomeBridgeCnetExternal(t, maxSlot, b, c, x, localhost, gateway);
    } else if order == [kb, kx, kc] {
      ApplyInOrder(t, networks, kb, kx, kc);
      OutcomeBridgeExternalCnet(t, maxSlot, b, c, x, localhost, gateway);
    } else if order == [kc, kb, kx] {
      ApplyInOrder(t, networks, kc, kb, kx);
      OutcomeCnetBridgeExternal(t, maxSlot, b, c, x, localhost, gateway);
    } else if order == [kc, kx, kb] {
      ApplyInOrder(t, networks, kc, kx, kb);
      OutcomeCnetExternalBridge(t, maxSlot, b, c, x, localhost, gateway);
    } else if order == [kx, kb, kc] {
      ApplyInOrder(t, networks, kx, kb, kc);
      OutcomeExternalBridgeCnet(t, maxSlot, b, c, x, localhost, gateway);
    } else {
      ApplyInOrder(t, networks, kx, kc, kb);
      OutcomeExternalCnetBridge(t, maxSlot, b, c, x, localhost, gateway);
    }
  }

  /**
   * TestSetIpAddress: whatever the table held before, and in whichever order
   * the supervisor visits the three networks, "bridge" ends up with two
   * addresses and "external" with one.
   */
  lemma SetIpAddressOutcome(
    ifaces: map<string, Interface>, maxSlot: int, localhost: IPNet, gateway: IPNet, order: seq<string>)
    requires WellFormed(ifaces, maxSlot)
    requires "bridge" !in ifaces && "external" !in ifaces
    requires localhost != SecondIP
    requires IsOrder(order, "bridge", "cnet", "external")
    ensures var networks := TestNetworks(Itoa(maxSlot + 1), Itoa(maxSlot + 2), localhost, gateway);
            TestOutcome(ApplyAll(WithTestInterfaces(ifaces, maxSlot), InOrder(networks, order)), maxSlot, localhost, gateway)
  {
    var networks := TestNetworks(Itoa(maxSlot + 1), Itoa(maxSlot + 2), localhost, gateway);
    TestStartHolds(ifaces, maxSlot, localhost, gateway);
    OutcomeAnyOrder(WithTestInterfaces(ifaces, maxSlot), maxSlot,
                    networks["bridge"], networks["cnet"], networks["external"], localhost, gateway,
                    networks, "bridge", "cnet", "external", order);
  }

  // ---------------------------------------------------------------------------
  // The mocker
  // ---------------------------------------------------------------------------

  class Mocker {
    /** the last slot handed out */
    var maxSlot: int
    /** the interfaces, keyed by name */
    var Interfaces: map<string, Interface>

    ghost predicate Valid()
      reads this
    {
      WellFormed(Interfaces, maxSlot)
    }

    constructor ()
      ensures maxSlot == 0 && Interfaces == map[] && Valid()
    {
      maxSlot := 0;
      Interfaces := map[];
    }

    /**
     * AddInterface: take the next slot, store an up interface with that name
     * and index under the name, and return the slot as a decimal string.
     */
    method AddInterface(name: string) returns (slot: string)
      modifies this
      ensures maxSlot == old(maxSlot) + 1
      ensures Interfaces == old(Interfaces)[name := Interface(name, maxSlot, true, [])]
      ensures slot == Itoa(maxSlot) && Atoi(slot) == Some(maxSlot)
      ensures old(Valid()) ==> Valid()
    {
      maxSlot := maxSlot + 1;
      Interfaces := Interfaces[name := Interface(name, maxSlot, true, [])];
      slot := Itoa(maxSlot);
      ItoaRoundTrip(maxSlot);
    }

    /** What applying one endpoint through the mocker's link operations does to the table. */
    method ApplyEndpoint(e: Endpoint)
      requires Valid()
      modifies this
      ensures Valid() && maxSlot == old(maxSlot)
      ensures Interfaces == Apply(old(Interfaces), e)
    {
      ApplyWellFormed(Interfaces, maxSlot, e);
      var slot := Atoi(e.id);
      if slot.None? {
        return;
      }
      if k :| k in Interfaces && Interfaces[k].index == slot.value {
        OwnerIsUnique(Interfaces, k);
        var name := NewName(e, k);
        if name != k && name in Interfaces {
          return;
        }
        var i := Interfaces[k];
        Interfaces := (Interfaces - {k})[name := Interface(name, i.index, true, Added(i.addrs, e))];
      }
    }

    /** Apply endpoints one after another. */
    method ApplyEndpoints(es: seq<Endpoint>)
      requires Valid()
      modifies this
      ensures Valid() && maxSlot == old(maxSlot)
      ensures Interfaces == ApplyAll(old(Interfaces), es)
    {
      var i := 0;
      while i < |es|
        invariant 0 <= i <= |es|
        invariant Valid() && maxSlot == old(maxSlot)
        invariant ApplyAll(Interfaces, es[i..]) == ApplyAll(old(Interfaces), es)
      {
        assert es[i..][1..] == es[i + 1..];
        ApplyEndpoint(es[i]);
        i := i + 1;
      }
    }

    /**
     * TestSetIpAddress: add eth1 and eth2, start the supervisor with the
     * bridge, cnet and external endpoints visited in `order`, and check the
     * resulting table.
     */
    method SetIpAddress(localhost: IPNet, gateway: IPNet, order: seq<string>)
      requires Valid()
      requires "bridge" !in Interfaces && "external" !in Interfaces
      requires localhost != SecondIP
      requires IsOrder(order, "bridge", "cnet", "external")
      modifies this
      ensures Valid()
      ensures TestOutcome(Interfaces, old(maxSlot), localhost, gateway)
    {
      ghost var before := Interfaces;
      var bridge := AddInterface("eth1");
      var external := AddInterface("eth2");
      ItoaInjective(maxSlot - 1, maxSlot);
      assert bridge != external;
      var networks := TestNetworks(bridge, external, localhost, gateway);
      ApplyEndpoints(InOrder(networks, order));
      SetIpAddressOutcome(before, maxSlot - 2, localhost, gateway, order);
    }
  }
}
