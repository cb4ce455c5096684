/** SyncE devices and their ports (pkg/daemon/config.go, pkg/daemon/daemon.go). */
module Synce {
  import opened PtpTypes

  /** A section, with the integers that strconv.Atoi makes of its two options: 0 where the text is no number. */
  datatype Section = Section(name: string, networkOption: Option<int>, extendedTlv: Option<int>)

  datatype Config = Config(name: string, ifaces: seq<string>, externalSource: string, networkOption: int, extendedTlv: int)

  const NETWORK_OPT_1 := 1
  const EXTENDED_TLV_DISABLED := 0
  const BLANK := Config("", [], "", NETWORK_OPT_1, EXTENDED_TLV_DISABLED)
  const BRACKETS: set<char> := {'{', '}', '<', '>', '[', ']', ' '}

  predicate IsDevice(section: Section) {
    |section.name| >= 2 && section.name[0] == '[' && section.name[1] == '<'
  }

  predicate IsExternal(section: Section) {
    |section.name| >= 2 && section.name[0] == '[' && section.name[1] == '{'
  }

  predicate IsPort(section: Section) {
    && |section.name| >= 1 && section.name[0] == '[' && !IsDevice(section) && !IsExternal(section)
    && section.name != "[global]"
  }

  function Stripped(name: string): string {
    if name == [] then []
    else (if name[0] in BRACKETS then [] else [name[0]]) + Stripped(name[1..])
  }

  function NameOf(section: Section): string {
    Stripped(section.name)
  }

  function ValueOr(option: Option<int>, default: int): int {
    if option.Some? then option.value else default
  }

  // ---------------------------------------------------------------- what the sections mean

  /** The ports of the first `n` sections, in order. */
  function Ports(sections: seq<Section>, n: nat): seq<string>
    requires n <= |sections|
  {
    if n == 0 then []
    else Ports(sections, n - 1) + (if IsPort(sections[n - 1]) then [NameOf(sections[n - 1])] else [])
  }

  /** The last external source in sections[from..end]. */
  function External(sections: seq<Section>, from: nat, end: nat): string
    requires from <= end <= |sections|
  {
    if from == end then ""
    else if IsExternal(sections[end - 1]) then NameOf(sections[end - 1])
    else External(sections, from, end - 1)
  }

  /** Where the next device section starts, from `n` on. */
  function NextDevice(sections: seq<Section>, n: nat): (end: nat)
    requires n <= |sections|
    ensures n <= end <= |sections|
    ensures forall i :: n <= i < end ==> !IsDevice(sections[i])
    ensures end < |sections| ==> IsDevice(sections[end])
    decreases |sections| - n
  {
    if n == |sections| || IsDevice(sections[n]) then n else NextDevice(sections, n + 1)
  }

  predicate Named(sections: seq<Section>, d: nat) {
    d < |sections| && IsDevice(sections[d]) && NameOf(sections[d]) != ""
  }

  /** A device carries every port listed before the next device section, its own or not. */
  function DeviceAt(sections: seq<Section>, d: nat): Config
    requires d < |sections|
  {
    var end := NextDevice(sections, d + 1);
    Config(NameOf(sections[d]), Ports(sections, end), External(sections, d + 1, end),
           ValueOr(sections[d].networkOption, NETWORK_OPT_1),
           ValueOr(sections[d].extendedTlv, EXTENDED_TLV_DISABLED))
  }

  /** The named devices from section `d` on. */
  function Devices(sections: seq<Section>, d: nat): seq<Config>
    requires d <= |sections|
    decreases |sections| - d
  {
    if d == |sections| then []
    else (if Named(sections, d) then [DeviceAt(sections, d)] else []) + Devices(sections, d + 1)
  }

  // ---------------------------------------------------------------- the code

  /** What the loop knows at section `n`: `open` is the device section it is in. */
  ghost predicate Scanning(sections: seq<Section>, n: nat, open: Option<nat>, devices: seq<Config>, ifaces: seq<string>,
                           info: Config) {
    n <= |sections| && ifaces == Ports(sections, n) &&
    match open
    case None => devices == [] && info.name == "" && NextDevice(sections, 0) >= n
    case Some(d) =>
      d < n && IsDevice(sections[d]) && NextDevice(sections, d + 1) >= n && info.name == NameOf(sections[d]) &&
      info.externalSource == External(sections, d + 1, n) && info.ifaces == [] &&
      info.networkOption == ValueOr(sections[d].networkOption, NETWORK_OPT_1) &&
      info.extendedTlv == ValueOr(sections[d].extendedTlv, EXTENDED_TLV_DISABLED) &&
      devices + Devices(sections, d) == Devices(sections, 0)
  }

  /** Sections that are not devices contribute none. */
  lemma {:induction false} NoDevices(sections: seq<Section>, from: nat, end: nat)
    requires from <= |sections| && from <= end <= NextDevice(sections, from)
    ensures Devices(sections, from) == Devices(sections, end)
    decreases end - from
  {
    if from < end {
      NoDevices(sections, from + 1, end);
    }
  }

  /** The devices with the one that ends here, if it has a name. */
  function Closed(devices: seq<Config>, ifaces: seq<string>, info: Config): seq<Config> {
    if info.name == "" then devices else devices + [if ifaces == [] then info else info.(ifaces := ifaces)]
  }

  method AddDevice(devices: seq<Config>, ifaces: seq<string>, info: Config) returns (r: seq<Config>)
    ensures r == Closed(devices, ifaces, info)
  {
    r := devices;
    if info.name != "" {
      var config := info;
      if |ifaces| > 0 { config := config.(ifaces := ifaces); }
      r := r + [config];
    }
  }

  /** Leaving the section the loop is in, at the next device section or at the end. */
  lemma {:induction false} Closing(sections: seq<Section>, n: nat, open: Option<nat>, devices: seq<Config>, ifaces: seq<string>, info: Config)
    requires Scanning(sections, n, open, devices, ifaces, info)
    requires n == |sections| || IsDevice(sections[n])
    ensures Closed(devices, ifaces, info) + Devices(sections, n) == Devices(sections, 0)
  {
    match open
    case None =>
      NoDevices(sections, 0, n);
    case Some(d) =>
      NoDevices(sections, d + 1, n);
      assert NextDevice(sections, d + 1) == n;
  }

  /** What is known of a device at its own section. */
  function Opened(section: Section): Config {
    BLANK.(name := NameOf(section), networkOption := ValueOr(section.networkOption, NETWORK_OPT_1),
           extendedTlv := ValueOr(section.extendedTlv, EXTENDED_TLV_DISABLED))
  }

  method OpenDevice(section: Section) returns (info: Config)
    ensures info == Opened(section)
  {
    info := BLANK.(name := NameOf(section));
    if section.networkOption.Some? {
      info := info.(networkOption := section.networkOption.value);
    }
    if section.extendedTlv.Some? {
      info := info.(extendedTlv := section.extendedTlv.value);
    }
  }

  lemma {:induction false} Opening(sections: seq<Section>, n: nat, devices: seq<Config>, ifaces: seq<string>)
    requires n < |sections| && IsDevice(sections[n]) && ifaces == Ports(sections, n)
    requires devices + Devices(sections, n) == Devices(sections, 0)
    ensures Scanning(sections, n + 1, Some(n), devices, ifaces, Opened(sections[n]))
  {}

  lemma {:induction false} ReadExternal(sections: seq<Section>, n: nat, open: Option<nat>, devices: seq<Config>, ifaces: seq<string>, info: Config)
    requires Scanning(sections, n, open, devices, ifaces, info) && n < |sections| && IsExternal(sections[n])
    ensures Scanning(sections, n + 1, open, devices, ifaces, info.(externalSource := NameOf(sections[n])))
  {}

  lemma {:induction false} ReadPort(sections: seq<Section>, n: nat, open: Option<nat>, devices: seq<Config>, ifaces: seq<string>, info: Config)
    requires Scanning(sections, n, open, devices, ifaces, info) && n < |sections| && IsPort(sections[n])
    ensures Scanning(sections, n + 1, open, devices, ifaces + [NameOf(sections[n])], info)
  {}

  lemma {:induction false} ReadOther(sections: seq<Section>, n: nat, open: Option<nat>, devices: seq<Config>, ifaces: seq<string>, info: Config)
    requires Scanning(sections, n, open, devices, ifaces, info) && n < |sections|
    requires !IsDevice(sections[n]) && !IsExternal(sections[n]) && !IsPort(sections[n])
    ensures Scanning(sections, n + 1, open, devices, ifaces, info)
  {}

  /** What the loop knows after the last section. */
  lemma {:induction false} Finishing(sections: seq<Section>, open: Option<nat>, devices: seq<Config>, ifaces: seq<string>, info: Config)
    requires Scanning(sections, |sections|, open, devices, ifaces, info)
    ensures Closed(devices, ifaces, info) == Devices(sections, 0)
  {
    Closing(sections, |sections|, open, devices, ifaces, info);
    assert Closed(devices, ifaces, info) + [] == Closed(devices, ifaces, info);
  }

  /** A device section ends the device before it and opens the next. */
  lemma {:induction false} Switching(sections: seq<Section>, n: nat, open: Option<nat>, devices: seq<Config>, ifaces: seq<string>, info: Config)
    requires Scanning(sections, n, open, devices, ifaces, info) && n < |sections| && IsDevice(sections[n])
    ensures Scanning(sections, n + 1, Some(n), Closed(devices, ifaces, info), ifaces, Opened(sections[n]))
  {
    Closing(sections, n, open, devices, ifaces, info);
    Opening(sections, n, Closed(devices, ifaces, info), ifaces);
  }

  method ExtractSynceRelations(sections: seq<Section>) returns (devices: seq<Config>)
    ensures devices == Devices(sections, 0)
  {
    devices := [];
    var ifaces: seq<string> := [];
    var info := BLANK;
    ghost var open: Option<nat> := None;
    for n := 0 to |sections|
      invariant Scanning(sections, n, open, devices, ifaces, info)
    {
      var section := sections[n];
      if IsDevice(section) {
        Switching(sections, n, open, devices, ifaces, info);
        devices := AddDevice(devices, ifaces, info);
        info := OpenDevice(section);
        open := Some(n);
      } else if IsExternal(section) {
        ReadExternal(sections, n, open, devices, ifaces, info);
        info := info.(externalSource := NameOf(section));
      } else if IsPort(section) {
        ReadPort(sections, n, open, devices, ifaces, info);
        ifaces := ifaces + [NameOf(section)];
      } else {
        ReadOther(sections, n, open, devices, ifaces, info);
      }
    }
    Finishing(sections, open, devices, ifaces, info);
    devices := AddDevice(devices, ifaces, info);
  }

  /** The first device that lists the interface. */
  function FirstListing(devices: seq<Config>, iface: string): Option<Config> {
    if devices == [] then None
    else if iface in devices[0].ifaces then Some(devices[0])
    else FirstListing(devices[1..], iface)
  }

  method SyncEDeviceByInterface(relations: Option<seq<Config>>, iface: string) returns (r: Option<Config>)
    ensures r == if relations.Some? then FirstListing(relations.value, iface) else None
  {
    if relations.Some? {
      var devices := relations.value;
      for i := 0 to |devices|
        invariant FirstListing(devices, iface) == FirstListing(devices[i..], iface)
      {
        for j := 0 to |devices[i].ifaces|
          invariant iface !in devices[i].ifaces[..j]
        {
          if devices[i].ifaces[j] == iface { return Some(devices[i]); }
        }
        assert devices[i].ifaces[..|devices[i].ifaces|] == devices[i].ifaces;
      }
    }
    return None;
  }

  // ---------------------------------------------------------------- the device a port belongs to

  predicate PortAt(sections: seq<Section>, p: nat, iface: string) {
    p < |sections| && IsPort(sections[p]) && NameOf(sections[p]) == iface
  }

  /** Section `p` is where the port first appears. */
  ghost predicate FirstAt(sections: seq<Section>, p: nat, iface: string) {
    PortAt(sections, p, iface) && forall i: nat :: i < p ==> !PortAt(sections, i, iface)
  }

  /** The device section in force at section `p`. */
  function InForce(sections: seq<Section>, p: nat): (r: Option<nat>)
    requires p <= |sections|
    ensures r.Some? ==> r.value < p && IsDevice(sections[r.value])
    ensures forall i :: (if r.Some? then r.value + 1 else 0) <= i < p ==> !IsDevice(sections[i])
  {
    if p == 0 then None
    else if IsDevice(sections[p - 1]) then Some(p - 1)
    else InForce(sections, p - 1)
  }

  /** The first named device section from `n` on. */
  function NextNamed(sections: seq<Section>, n: nat): (r: Option<nat>)
    requires n <= |sections|
    ensures r.Some? ==> n <= r.value && Named(sections, r.value)
    ensures forall i :: n <= i < (if r.Some? then r.value else |sections|) ==> !Named(sections, i)
    decreases |sections| - n
  {
    if n == |sections| then None else if Named(sections, n) then Some(n) else NextNamed(sections, n + 1)
  }

  /** The device section a lookup finds for a port that first appears at `p`. */
  function Owner(sections: seq<Section>, p: nat): (r: Option<nat>)
    requires p <= |sections|
    ensures r.Some? ==> r.value < |sections|
  {
    var d := InForce(sections, p);
    if d.Some? && Named(sections, d.value) then d else NextNamed(sections, p)
  }

  function ConfigOf(sections: seq<Section>, d: Option<nat>): Option<Config>
    requires d.Some? ==> d.value < |sections|
  {
    if d.Some? then Some(DeviceAt(sections, d.value)) else None
  }

  lemma {:induction false} PortsListed(sections: seq<Section>, n: nat, iface: string)
    requires n <= |sections|
    ensures iface in Ports(sections, n) <==> exists p: nat :: p < n && PortAt(sections, p, iface)
    decreases n
  {
    if n > 0 {
      PortsListed(sections, n - 1, iface);
      assert iface in Ports(sections, n) <==> iface in Ports(sections, n - 1) || PortAt(sections, n - 1, iface);
    }
  }

  lemma {:induction false} ListingStep(sections: seq<Section>, d: nat, iface: string)
    requires d < |sections|
    ensures FirstListing(Devices(sections, d), iface) ==
            if Named(sections, d) && iface in Ports(sections, NextDevice(sections, d + 1)) then Some(DeviceAt(sections, d))
            else FirstListing(Devices(sections, d + 1), iface)
  {
    var more := Devices(sections, d + 1);
    assert ([DeviceAt(sections, d)] + more)[1..] == more && [] + more == more;
  }

  /** Every named device from the port on lists it, so the first one is found. */
  lemma {:induction false} FoundLater(sections: seq<Section>, p: nat, iface: string, d: nat)
    requires FirstAt(sections, p, iface) && p <= d <= |sections|
    ensures FirstListing(Devices(sections, d), iface) == ConfigOf(sections, NextNamed(sections, d))
    decreases |sections| - d
  {
    if d < |sections| {
      FoundLater(sections, p, iface, d + 1);
      ListingStep(sections, d, iface);
      if Named(sections, d) {
        PortsListed(sections, NextDevice(sections, d + 1), iface);
      }
    }
  }

  /** Before the port, only the device section in force there can list it. */
  lemma {:induction false} FoundFrom(sections: seq<Section>, p: nat, iface: string, d: nat)
    requires FirstAt(sections, p, iface) && d <= p
    ensures var f := InForce(sections, p);
            FirstListing(Devices(sections, d), iface) ==
            ConfigOf(sections, if f.Some? && d <= f.value && Named(sections, f.value) then f else NextNamed(sections, p))
    decreases p - d
  {
    if d == p {
      FoundLater(sections, p, iface, p);
    } else {
      FoundFrom(sections, p, iface, d + 1);
      ListingStep(sections, d, iface);
      if Named(sections, d) {
        PortsListed(sections, NextDevice(sections, d + 1), iface);
      }
    }
  }

  /**
   * For every section list, the port's lookup finds the named device section in force where the port first appears;
   * when none is in force there, or that one has no name, the next named device section.
   */
  lemma {:induction false} LookupFindsOwner(sections: seq<Section>, p: nat, iface: string)
    requires FirstAt(sections, p, iface)
    ensures FirstListing(Devices(sections, 0), iface) == ConfigOf(sections, Owner(sections, p))
  {
    FoundFrom(sections, p, iface, 0);
  }

  lemma {:induction false} UnlistedNotFound(sections: seq<Section>, iface: string, d: nat)
    requires d <= |sections| && forall i: nat :: !PortAt(sections, i, iface)
    ensures FirstListing(Devices(sections, d), iface) == None
    decreases |sections| - d
  {
    if d < |sections| {
      UnlistedNotFound(sections, iface, d + 1);
      ListingStep(sections, d, iface);
      if Named(sections, d) {
        PortsListed(sections, NextDevice(sections, d + 1), iface);
      }
    }
  }

  /** When devices have names and a device section comes before the first port, the section in force is found. */
  lemma {:induction false} LookupIsInForce(sections: seq<Section>, p: nat, iface: string, d: nat)
    requires FirstAt(sections, p, iface)
    requires forall i :: 0 <= i < |sections| && IsDevice(sections[i]) ==> NameOf(sections[i]) != ""
    requires d < p && IsDevice(sections[d])
    ensures InForce(sections, p).Some?
    ensures FirstListing(Devices(sections, 0), iface) == Some(DeviceAt(sections, InForce(sections, p).value))
  {
    LookupFindsOwner(sections, p, iface);
  }

  /** The ports a device section itself introduces. */
  function OwnPorts(sections: seq<Section>, from: nat, end: nat): seq<string>
    requires from <= end <= |sections|
  {
    Ports(sections[from..end], end - from)
  }

  lemma {:induction false} PortsSplit(sections: seq<Section>, from: nat, end: nat)
    requires from <= end <= |sections|
    ensures Ports(sections, end) == Ports(sections, from) + OwnPorts(sections, from, end)
    decreases end - from
  {
    if from < end {
      PortsSplit(sections, from, end - 1);
      PortsPrefix(sections[from..end], sections[from..end - 1], end - 1 - from);
    }
  }

  lemma {:induction false} PortsPrefix(a: seq<Section>, b: seq<Section>, n: nat)
    requires n <= |a| && n <= |b| && a[..n] == b[..n]
    ensures Ports(a, n) == Ports(b, n)
    decreases n
  {
    if n > 0 {
      assert a[n - 1] == a[..n][n - 1] && b[n - 1] == b[..n][n - 1];
      assert a[..n - 1] == a[..n][..n - 1] && b[..n - 1] == b[..n][..n - 1];
      PortsPrefix(a, b, n - 1);
    }
  }

  /** A device lists exactly the ports of its own section, as documented, only when no port comes before it. */
  lemma {:induction false} OwnPortsIff(sections: seq<Section>, d: nat)
    requires d < |sections|
    ensures var end := NextDevice(sections, d + 1);
            DeviceAt(sections, d).ifaces == OwnPorts(sections, d, end) <==>
            forall p :: 0 <= p < d ==> !IsPort(sections[p])
  {
    PortsSplit(sections, d, NextDevice(sections, d + 1));
    NoPortsIff(sections, d);
  }

  lemma {:induction false} NoPortsIff(sections: seq<Section>, n: nat)
    requires n <= |sections|
    ensures Ports(sections, n) == [] <==> forall p :: 0 <= p < n ==> !IsPort(sections[p])
    decreases n
  {
    if n > 0 {
      NoPortsIff(sections, n - 1);
    }
  }

  // ---------------------------------------------------------------- names of sections

  /** A name without brackets or blanks. */
  predicate Clean(name: string) {
    forall i :: 0 <= i < |name| ==> name[i] !in BRACKETS
  }

  lemma {:induction false} StrippedConcat(a: string, b: string)
    ensures Stripped(a + b) == Stripped(a) + Stripped(b)
  {
    if a == [] {
      assert a + b == b;
    } else {
      assert (a + b)[1..] == a[1..] + b;
      StrippedConcat(a[1..], b);
    }
  }

  lemma {:induction false} StrippedClean(name: string)
    requires Clean(name)
    ensures Stripped(name) == name
  {
    if name != [] { StrippedClean(name[1..]); }
  }

  lemma {:induction false} StrippedBrackets(s: string)
    requires forall i :: 0 <= i < |s| ==> s[i] in BRACKETS
    ensures Stripped(s) == []
  {
    if s != [] { StrippedBrackets(s[1..]); }
  }

  lemma {:induction false} StrippedInside(open: string, name: string, close: string)
    requires Clean(name) && (forall i :: 0 <= i < |open| ==> open[i] in BRACKETS)
    requires forall i :: 0 <= i < |close| ==> close[i] in BRACKETS
    ensures Stripped(open + (name + close)) == name
  {
    StrippedConcat(open, name + close);
    StrippedConcat(name, close);
    StrippedBrackets(open);
    StrippedBrackets(close);
    StrippedClean(name);
  }

  /** [<n>] is the device n, [{n}] the external source n, and [n] the port n unless it is [global]. */
  lemma {:induction false} SectionKinds(name: string, a: Option<int>, b: Option<int>)
    requires Clean(name)
    ensures var s := Section("[<" + (name + ">]"), a, b); IsDevice(s) && !IsExternal(s) && !IsPort(s) && NameOf(s) == name
    ensures var s := Section("[{" + (name + "}]"), a, b); IsExternal(s) && !IsDevice(s) && !IsPort(s) && NameOf(s) == name
    ensures var s := Section("[" + (name + "]"), a, b);
            !IsDevice(s) && !IsExternal(s) && NameOf(s) == name && (IsPort(s) <==> name != "global")
  {
    StrippedInside("[<", name, ">]");
    StrippedInside("[{", name, "}]");
    StrippedInside("[", name, "]");
    PortUnlessGlobal(name, a, b);
  }

  lemma {:induction false} PortUnlessGlobal(name: string, a: Option<int>, b: Option<int>)
    requires Clean(name)
    ensures var s := Section("[" + (name + "]"), a, b); !IsDevice(s) && !IsExternal(s) && (IsPort(s) <==> name != "global")
  {
    var text := "[" + (name + "]");
    assert |text| >= 2 && text[1] == (if name == [] then ']' else name[0]);
    assert text[1..|text| - 1] == name;
    assert "[global]"[1..7] == "global";
    if name == "global" { assert text == "[global]"; }
  }

  /** A device's external source is the last one listed before the next device section, if any. */
  lemma {:induction false} ExternalIs(sections: seq<Section>, from: nat, end: nat, x: nat)
    requires from <= end <= |sections|
    ensures (forall i :: from <= i < end ==> !IsExternal(sections[i])) ==> External(sections, from, end) == ""
    ensures from <= x < end && IsExternal(sections[x]) && (forall i :: x < i < end ==> !IsExternal(sections[i])) ==>
              External(sections, from, end) == NameOf(sections[x])
    decreases end
  {
    if from < end { ExternalIs(sections, from, end - 1, x); }
  }

  /** A device is listed exactly when it is that of a named device section. */
  lemma {:induction false} DeviceListed(sections: seq<Section>, d: nat, config: Config)
    requires d <= |sections|
    ensures config in Devices(sections, d) <==> exists k: nat :: d <= k && Named(sections, k) && config == DeviceAt(sections, k)
    decreases |sections| - d
  {
    if d < |sections| {
      DeviceListed(sections, d + 1, config);
      assert config in Devices(sections, d) <==>
             (Named(sections, d) && config == DeviceAt(sections, d)) || config in Devices(sections, d + 1);
    }
  }
}
