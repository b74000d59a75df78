/**
 The scan: probe every port of every address, keep the addresses with an open port, sort them by text.

 The outcome of a connection attempt is a parameter and may differ from attempt to attempt: `probe(k, i)`
 says whether the attempt on the i-th port of the k-th address succeeds.
 */
module NetworkScanner {
  import opened Words
  import Subnet

  datatype Device = Device(ip: string, ports: seq<u16>, isSolakon: bool)

  type Probe = (nat, nat) -> bool

  predicate IdentifySolakon(ip: string, port: u16) {
    port == 502 || port == 443
  }

  // ----- what a scan finds

  /** The ports whose attempt succeeded, in the order of the list. */
  function OpenPorts(ports: seq<u16>, open: nat -> bool): seq<u16> {
    if ports == [] then []
    else
      var last := |ports| - 1;
      OpenPorts(ports[..last], open) + if open(last) then [ports[last]] else []
  }

  /** The ports of the k-th address that answer. */
  function OpenAt(k: nat, ports: seq<u16>, probe: Probe): seq<u16> {
    OpenPorts(ports, (i: nat) => probe(k, i))
  }

  /** The record of an address, from its open ports alone. */
  function DeviceAt(ip: string, open: seq<u16>): Device {
    Device(ip, open, 502 in open || 443 in open)
  }

  /** One record per address with an open port, in the order of the addresses. */
  function Found(ips: seq<string>, ports: seq<u16>, probe: Probe): seq<Device> {
    if ips == [] then []
    else
      var last := |ips| - 1;
      var open := OpenAt(last, ports, probe);
      Found(ips[..last], ports, probe) + if open == [] then [] else [DeviceAt(ips[last], open)]
  }

  lemma {:induction false} OpenPortsSound(ports: seq<u16>, open: nat -> bool, p: u16)
    ensures p in OpenPorts(ports, open) <==> exists i: nat :: i < |ports| && ports[i] == p && open(i)
  {
    if ports != [] {
      OpenPortsSound(ports[..|ports| - 1], open, p);
    }
  }

  /** `picked` takes the ports at these positions of the list, one by one: those with a successful attempt. */
  ghost predicate Picks(at: seq<nat>, picked: seq<u16>, ports: seq<u16>, open: nat -> bool) {
    && |picked| == |at|
    && (forall m, n :: 0 <= m < n < |at| ==> at[m] < at[n])
    && (forall n :: 0 <= n < |at| ==> at[n] < |ports| && open(at[n]) && picked[n] == ports[at[n]])
    && (forall i: nat :: i < |ports| && open(i) ==> i in at)
  }

  lemma {:induction false} OpenPortsPicked(ports: seq<u16>, open: nat -> bool) returns (at: seq<nat>)
    ensures Picks(at, OpenPorts(ports, open), ports, open)
  {
    if ports == [] {
      at := [];
    } else {
      var last := |ports| - 1;
      at := OpenPortsPicked(ports[..last], open);
      if open(last) {
        PicksOneMore(at, OpenPorts(ports[..last], open), ports, open);
        at := at + [last];
      } else {
        PicksNoMore(at, OpenPorts(ports[..last], open), ports, open);
        assert OpenPorts(ports[..last], open) + [] == OpenPorts(ports[..last], open);
      }
    }
  }

  lemma {:induction false} PicksNoMore(at: seq<nat>, picked: seq<u16>, ports: seq<u16>, open: nat -> bool)
    requires ports != [] && !open(|ports| - 1) && Picks(at, picked, ports[..|ports| - 1], open)
    ensures Picks(at, picked, ports, open)
  {
  }

  lemma {:induction false} PicksOneMore(at: seq<nat>, picked: seq<u16>, ports: seq<u16>, open: nat -> bool)
    requires ports != [] && open(|ports| - 1) && Picks(at, picked, ports[..|ports| - 1], open)
    ensures Picks(at + [|ports| - 1], picked + [ports[|ports| - 1]], ports, open)
  {
    var last := |ports| - 1;
    forall i: nat | i < |ports| && open(i)
      ensures i in at + [last]
    {
      assert i < last ==> i in at;
    }
  }

  lemma {:induction false} PickedAreOpenPorts(at: seq<nat>, picked: seq<u16>, ports: seq<u16>, open: nat -> bool)
    requires Picks(at, picked, ports, open)
    ensures picked == OpenPorts(ports, open)
    decreases |ports|
  {
    if ports == [] {
      assert picked == [];
    } else {
      var last, n := |ports| - 1, |at| - 1;
      if open(last) {
        assert last in at && at[n] == last;
        PicksInit(at, picked, ports, open);
        PickedAreOpenPorts(at[..n], picked[..n], ports[..last], open);
        assert picked == picked[..n] + [picked[n]];
      } else {
        PickedAreOpenPorts(at, picked, ports[..last], open);
      }
    }
  }

  lemma {:induction false} PicksInit(at: seq<nat>, picked: seq<u16>, ports: seq<u16>, open: nat -> bool)
    requires Picks(at, picked, ports, open) && ports != [] && at != [] && at[|at| - 1] == |ports| - 1
    ensures Picks(at[..|at| - 1], picked[..|at| - 1], ports[..|ports| - 1], open)
  {
    forall i: nat | i < |ports| - 1 && open(i)
      ensures i in at[..|at| - 1]
    {
      assert i in at;
    }
  }

  /** Main result: a record's ports are the ports of the list whose attempts succeeded, in the order of the list and as
      often as they occur there. */
  lemma {:induction false} OpenPortsIff(picked: seq<u16>, ports: seq<u16>, open: nat -> bool)
    ensures picked == OpenPorts(ports, open) <==> exists at :: Picks(at, picked, ports, open)
  {
    var at := OpenPortsPicked(ports, open);
    if other :| Picks(other, picked, ports, open) {
      PickedAreOpenPorts(other, picked, ports, open);
    }
  }

  // ----- the order

  /** operator< of std::string on texts below 128. */
  predicate Less(a: string, b: string) {
    b != "" && (a == "" || a[0] < b[0] || (a[0] == b[0] && Less(a[1..], b[1..])))
  }

  lemma {:induction false} LessTrichotomous(a: string, b: string)
    ensures !(Less(a, b) && Less(b, a))
    ensures !Less(a, b) && !Less(b, a) <==> a == b
  {
    if a != "" && b != "" && a[0] == b[0] {
      LessTrichotomous(a[1..], b[1..]);
      assert a == [a[0]] + a[1..] && b == [b[0]] + b[1..];
    }
  }

  /** One text is below another exactly when they agree up to some place, and there the first one ends or has the lower
      character. */
  lemma {:induction false} LessIff(a: string, b: string)
    ensures Less(a, b) <==> exists n: nat :: Below(a, b, n)
    decreases |a|
  {
    if a != "" && b != "" && a[0] == b[0] {
      LessIff(a[1..], b[1..]);
      if n: nat :| Below(a, b, n) {
        BelowTail(a, b, n);
      }
      if n: nat :| Below(a[1..], b[1..], n) {
        BelowTail(a, b, n + 1);
      }
    } else {
      assert Less(a, b) <==> Below(a, b, 0);
      if n: nat :| Below(a, b, n) {
        BelowHead(a, b, n);
      }
    }
  }

  lemma {:induction false} BelowHead(a: string, b: string, n: nat)
    requires Below(a, b, n)
    ensures n == 0 || (a != "" && b != "" && a[0] == b[0])
  {
    if n > 0 {
      assert a[..n][0] == b[..n][0];
    }
  }

  predicate Below(a: string, b: string, n: nat) {
    n <= |a| && n < |b| && a[..n] == b[..n] && (n < |a| ==> a[n] < b[n])
  }

  lemma {:induction false} BelowTail(a: string, b: string, n: nat)
    requires n > 0 && a != "" && b != "" && a[0] == b[0]
    ensures Below(a, b, n) <==> Below(a[1..], b[1..], n - 1)
  {
    if n <= |a| && n < |b| {
      assert a[..n] == [a[0]] + a[1..][..n - 1] && b[..n] == [b[0]] + b[1..][..n - 1];
      assert a[..n][1..] == a[1..][..n - 1] && b[..n][1..] == b[1..][..n - 1];
    }
  }

  lemma {:induction false} LessTransitive(a: string, b: string, c: string)
    requires Less(a, b) && Less(b, c)
    ensures Less(a, c)
  {
    if a != "" && a[0] == b[0] && b[0] == c[0] {
      LessTransitive(a[1..], b[1..], c[1..]);
    }
  }

  /** In order: no record is below an earlier one. */
  predicate Ordered(devices: seq<Device>) {
    forall i, j :: 0 <= i < j < |devices| ==> !Less(devices[j].ip, devices[i].ip)
  }

  /** In order, and no two texts agree. */
  predicate Sorted(devices: seq<Device>) {
    forall i, j :: 0 <= i < j < |devices| ==> Less(devices[i].ip, devices[j].ip)
  }

  /** A sorted list is determined by what it holds. */
  lemma {:induction false} SortedUnique(a: seq<Device>, b: seq<Device>)
    requires Sorted(a) && Sorted(b) && multiset(a) == multiset(b)
    ensures a == b
  {
    assert |multiset(a)| == |a| && |multiset(b)| == |b|;
    if a != [] {
      SameHead(a, b);
      TailHolds(a);
      TailHolds(b);
      SortedUnique(a[1..], b[1..]);
      assert a == [a[0]] + a[1..] && b == [b[0]] + b[1..];
    }
  }

  lemma {:induction false} TailHolds(a: seq<Device>)
    requires a != []
    ensures multiset(a[1..]) == multiset(a) - multiset{a[0]}
  {
    assert a == [a[0]] + a[1..];
  }

  lemma {:induction false} SameHead(a: seq<Device>, b: seq<Device>)
    requires Sorted(a) && Sorted(b) && a != [] && multiset(a) == multiset(b)
    ensures b != [] && a[0] == b[0]
  {
    assert a[0] in multiset(b);
    var i :| 0 <= i < |b| && b[i] == a[0];
    assert b[0] in multiset(a);
    var j :| 0 <= j < |a| && a[j] == b[0];
    if i > 0 && j > 0 {
      LessTrichotomous(a[0].ip, b[0].ip);
    }
  }

  // ----- std::sort

  /** Where `device` goes in an ordered list. */
  method Insert(device: Device, devices: seq<Device>) returns (r: seq<Device>)
    requires Ordered(devices)
    ensures Ordered(r) && multiset(r) == multiset(devices) + multiset{device}
  {
    var i := |devices|;
    while i > 0 && Less(device.ip, devices[i - 1].ip)
      invariant 0 <= i <= |devices|
      invariant forall k :: i <= k < |devices| ==> Less(device.ip, devices[k].ip)
    {
      i := i - 1;
    }
    r := devices[..i] + [device] + devices[i..];
    InsertKeepsOrder(device, devices, i);
    InsertAdds(device, devices, i);
  }

  lemma {:induction false} InsertAdds(device: Device, devices: seq<Device>, i: nat)
    requires i <= |devices|
    ensures multiset(devices[..i] + [device] + devices[i..]) == multiset(devices) + multiset{device}
  {
    assert devices == devices[..i] + devices[i..];
  }

  lemma {:induction false} InsertKeepsOrder(device: Device, devices: seq<Device>, i: nat)
    requires Ordered(devices) && i <= |devices|
    requires forall k :: i <= k < |devices| ==> Less(device.ip, devices[k].ip)
    requires i > 0 ==> !Less(device.ip, devices[i - 1].ip)
    ensures Ordered(devices[..i] + [device] + devices[i..])
  {
    forall k | 0 <= k < i
      ensures !Less(device.ip, devices[k].ip)
    {
      if Less(device.ip, devices[k].ip) {
        NotAbove(devices[k].ip, devices[i - 1].ip, device.ip);
      }
    }
    forall k | i <= k < |devices|
      ensures !Less(devices[k].ip, device.ip)
    {
      LessTrichotomous(device.ip, devices[k].ip);
    }
  }

  lemma {:induction false} NotAbove(a: string, b: string, c: string)
    requires !Less(b, a) && Less(c, a)
    ensures Less(c, b)
  {
    LessTrichotomous(a, b);
    if a != b {
      LessTransitive(c, a, b);
    }
  }

  /** The effect of std::sort with the comparison by text. */
  method SortByIp(devices: seq<Device>) returns (r: seq<Device>)
    ensures Ordered(r) && multiset(r) == multiset(devices)
  {
    r := [];
    for n := 0 to |devices|
      invariant Ordered(r) && multiset(r) == multiset(devices[..n])
    {
      r := Insert(devices[n], r);
      assert devices[..n + 1] == devices[..n] + [devices[n]];
    }
    assert devices[..|devices|] == devices;
  }

  // ----- distinct keys

  lemma {:induction false} CountTwice(s: seq<Device>, i: nat, j: nat)
    requires i < j < |s| && s[i] == s[j]
    ensures multiset(s)[s[i]] >= 2
  {
    assert s == s[..j] + s[j..];
    assert s[i] in s[..j] && s[j] in s[j..];
    assert multiset(s) == multiset(s[..j]) + multiset(s[j..]);
  }

  /** Records of distinct texts. */
  predicate DistinctIps(s: seq<Device>) {
    forall i, j :: 0 <= i < j < |s| ==> s[i].ip != s[j].ip
  }

  lemma {:induction false} CountOnce(s: seq<Device>, d: Device)
    requires DistinctIps(s)
    ensures multiset(s)[d] <= 1
  {
    if s != [] {
      var last := |s| - 1;
      CountOnce(s[..last], d);
      assert s == s[..last] + [s[last]];
      assert s[last] !in s[..last];
      assert multiset(s) == multiset(s[..last]) + multiset{s[last]};
    }
  }

  /** Sorting keeps the texts distinct, so that the order is strict. */
  lemma {:induction false} OrderedIsSorted(s: seq<Device>, r: seq<Device>)
    requires DistinctIps(s) && Ordered(r) && multiset(r) == multiset(s)
    ensures Sorted(r)
  {
    forall i, j | 0 <= i < j < |r|
      ensures Less(r[i].ip, r[j].ip)
    {
      if r[i].ip == r[j].ip {
        SameRecord(s, r, i, j);
        CountTwice(r, i, j);
        CountOnce(s, r[i]);
      }
      LessTrichotomous(r[i].ip, r[j].ip);
    }
  }

  lemma {:induction false} SameRecord(s: seq<Device>, r: seq<Device>, i: nat, j: nat)
    requires DistinctIps(s) && multiset(r) == multiset(s)
    requires i < |r| && j < |r| && r[i].ip == r[j].ip
    ensures r[i] == r[j]
  {
    assert r[i] in multiset(s) && r[j] in multiset(s);
    var k :| 0 <= k < |s| && s[k] == r[i];
    var l :| 0 <= l < |s| && s[l] == r[j];
  }

  predicate Distinct(ips: seq<string>) {
    forall i, j :: 0 <= i < j < |ips| ==> ips[i] != ips[j]
  }

  /** The scan finds the record of exactly the addresses with an open port. */
  lemma {:induction false} FoundIff(ips: seq<string>, ports: seq<u16>, probe: Probe, d: Device)
    ensures d in Found(ips, ports, probe) <==>
            exists k: nat :: k < |ips| && OpenAt(k, ports, probe) != []
                             && d == DeviceAt(ips[k], OpenAt(k, ports, probe))
  {
    if ips != [] {
      FoundIff(ips[..|ips| - 1], ports, probe, d);
    }
  }

  lemma {:induction false} FoundDistinct(ips: seq<string>, ports: seq<u16>, probe: Probe)
    requires Distinct(ips)
    ensures DistinctIps(Found(ips, ports, probe))
  {
    if ips != [] {
      var last := |ips| - 1;
      var before := Found(ips[..last], ports, probe);
      FoundDistinct(ips[..last], ports, probe);
      forall i | 0 <= i < |before|
        ensures before[i].ip != ips[last]
      {
        assert before[i] in before;
        FoundIff(ips[..last], ports, probe, before[i]);
      }
    }
  }

  // ----- the scan

  ghost predicate Injective(inetNtoa: bv32 -> string) {
    forall a, b :: inetNtoa(a) == inetNtoa(b) ==> a == b
  }

  /** The texts of the addresses tried. */
  function Texts(base: bv32, prefix: bv8, inetNtoa: bv32 -> string): (texts: seq<string>)
    requires 1 <= prefix <= 32
    ensures |texts| == Subnet.HostTotal(prefix) - 1
  {
    var ips := Subnet.Addresses(base, prefix);
    seq(|ips|, i requires 0 <= i < |ips| => inetNtoa(ips[i]))
  }

  lemma {:induction false} TextsDistinct(base: bv32, prefix: bv8, inetNtoa: bv32 -> string)
    requires 1 <= prefix <= 32 && base & Subnet.Mask(prefix) == base && Injective(inetNtoa)
    ensures Distinct(Texts(base, prefix, inetNtoa))
  {
    var ips := Subnet.Addresses(base, prefix);
    forall i, j | 0 <= i < j < |ips|
      ensures inetNtoa(ips[i]) != inetNtoa(ips[j])
    {
      if ips[i] == ips[j] {
        Subnet.AddressesDistinct(base, prefix, i, j);
      }
    }
  }

  /** What a scan of the addresses with these texts may return. */
  ghost predicate IsScan(r: seq<Device>, ips: seq<string>, ports: seq<u16>, probe: Probe) {
    Sorted(r) && multiset(r) == multiset(Found(ips, ports, probe))
  }

  /** The inner loop: the record of one address. */
  method ProbeHost(ip: string, ports: seq<u16>, open: nat -> bool) returns (dev: Device)
    ensures dev == DeviceAt(ip, OpenPorts(ports, open))
    ensures exists at :: Picks(at, dev.ports, ports, open)
  {
    dev := Device(ip, [], false);
    for i := 0 to |ports|
      invariant dev == DeviceAt(ip, OpenPorts(ports[..i], open))
    {
      assert ports[..i + 1][..i] == ports[..i];
      if open(i) {
        dev := dev.(ports := dev.ports + [ports[i]]);
        if IdentifySolakon(dev.ip, ports[i]) {
          dev := dev.(isSolakon := true);
        }
      }
    }
    assert ports[..|ports|] == ports;
    OpenPortsIff(dev.ports, ports, open);
  }

  /** The outer loop; `text(h)` is the text of base | h. */
  method ProbeHosts(hostCount: nat, text: nat -> string, ports: seq<u16>, probe: Probe, ghost ips: seq<string>)
    returns (results: seq<Device>)
    requires hostCount == |ips| + 1 && forall k: nat :: k < |ips| ==> ips[k] == text(k + 1)
    ensures results == Found(ips, ports, probe)
  {
    results := [];
    for h := 1 to hostCount
      invariant results == Found(ips[..h - 1], ports, probe)
    {
      var dev := ProbeHost(text(h), ports, (i: nat) => probe(h - 1, i));
      if dev.ports != [] {
        results := results + [dev];
      }
      assert ips[..h][..h - 1] == ips[..h - 1] && ips[..h][h - 1] == text(h);
    }
    assert ips[..|ips|] == ips;
  }

  method ScanNetwork(base: bv32, prefix: bv8, ports: seq<u16>, inetNtoa: bv32 -> string, probe: Probe)
    returns (results: seq<Device>)
    requires 1 <= prefix <= 32 && base & Subnet.Mask(prefix) == base && Injective(inetNtoa)
    ensures IsScan(results, Texts(base, prefix, inetNtoa), ports, probe)
  {
    ghost var ips := Texts(base, prefix, inetNtoa);
    var text := (h: nat) => inetNtoa(Subnet.Host(base, h));
    Subnet.HostCountIsTotal(prefix);
    var found := ProbeHosts(Subnet.HostCount(prefix) as int, text, ports, probe, ips);
    results := SortByIp(found);
    TextsDistinct(base, prefix, inetNtoa);
    FoundDistinct(ips, ports, probe);
    OrderedIsSorted(found, results);
  }

  lemma {:induction false} DottedIsInjective()
    ensures Injective(Subnet.Dotted)
  {
    forall a, b | Subnet.Dotted(a) == Subnet.Dotted(b)
      ensures a == b
    {
      Subnet.DottedInjective(a, b);
    }
  }

  /** A text that is not a network gives no records; None is the exception of std::stoul. */
  method Scan(subnet: string, ports: seq<u16>, inetPton: string -> Option<bv32>, probe: Probe)
    returns (r: Option<seq<Device>>)
    requires Subnet.ParseCidr(subnet, inetPton).Network? ==> Subnet.ParseCidr(subnet, inetPton).prefix >= 1
    ensures r == None <==> Subnet.ParseCidr(subnet, inetPton).Throws?
    ensures Subnet.ParseCidr(subnet, inetPton).NotCidr? ==> r == Some([])
    ensures Subnet.ParseCidr(subnet, inetPton).Network? ==>
              var n := Subnet.ParseCidr(subnet, inetPton);
              n.prefix <= 32 && IsScan(r.value, Texts(n.base, n.prefix, Subnet.Dotted), ports, probe)
  {
    var network := Subnet.ParseCidr(subnet, inetPton);
    if network.Throws? {
      return None;
    } else if network.NotCidr? {
      return Some([]);
    }
    Subnet.NetworkIsMasked(subnet, inetPton);
    DottedIsInjective();
    var devices := ScanNetwork(network.base, network.prefix, ports, Subnet.Dotted, probe);
    return Some(devices);
  }

  /** A scan holds the record of exactly the addresses with an open port ... */
  lemma {:induction false} ScanMeaning(r: seq<Device>, ips: seq<string>, ports: seq<u16>, probe: Probe, d: Device)
    requires IsScan(r, ips, ports, probe)
    ensures d in r <==>
            exists k: nat :: k < |ips| && OpenAt(k, ports, probe) != []
                             && d == DeviceAt(ips[k], OpenAt(k, ports, probe))
  {
    FoundIff(ips, ports, probe, d);
    assert d in r <==> d in multiset(Found(ips, ports, probe));
  }

  /** ... marked as the inverter exactly when the attempt on port 502 or 443 succeeded ... */
  lemma {:induction false} SolakonIff(ip: string, ports: seq<u16>, open: nat -> bool)
    ensures DeviceAt(ip, OpenPorts(ports, open)).isSolakon <==>
            exists i: nat :: i < |ports| && (ports[i] == 502 || ports[i] == 443) && open(i)
  {
    OpenPortsSound(ports, open, 502);
    OpenPortsSound(ports, open, 443);
  }

  /** ... and there is only one such list. */
  lemma {:induction false} ScanUnique(a: seq<Device>, b: seq<Device>, ips: seq<string>, ports: seq<u16>, probe: Probe)
    requires IsScan(a, ips, ports, probe) && IsScan(b, ips, ports, probe)
    ensures a == b
  {
    SortedUnique(a, b);
  }
}
