/** Guest addresses: nested loops that stop early, against filter, flatten, deduplicate, take. */
module Addresses {
  import opened Folds
  import opened Ordering
  import opened Text

  const MAX_GUEST_IPS := 8

  datatype Address = Address(ip: string, prefix: int)

  datatype Interface = Interface(name: string, addresses: seq<Address>, inet: string, inet6: string)

  /** First occurrences, in order. */
  function Dedup(s: seq<string>): (d: seq<string>)
    ensures forall x :: x in s <==> x in d
  {
    if s == [] then []
    else
      assert forall x :: x in s <==> x in s[..|s| - 1] || x == s[|s| - 1];
      var d := Dedup(s[..|s| - 1]);
      if s[|s| - 1] in d then d else d + [s[|s| - 1]]
  }

  lemma {:induction false} DedupExtends(a: seq<string>, b: seq<string>)
    ensures Dedup(a) <= Dedup(a + b)
  {
    if b == [] {
      assert a + b == a;
    } else {
      DedupExtends(a, b[..|b| - 1]);
      assert (a + b)[..|a + b| - 1] == a + b[..|b| - 1];
    }
  }

  /** What the deduplication promises: no repeats, and the order of first occurrences. */
  lemma {:induction false} DedupOrdered(s: seq<string>, i: nat, j: nat)
    requires i < j < |Dedup(s)|
    ensures Dedup(s)[i] != Dedup(s)[j]
    ensures exists k | 0 <= k <= |s| :: Dedup(s)[i] in s[..k] && Dedup(s)[j] !in s[..k]
  {
    var front := s[..|s| - 1];
    if j < |Dedup(front)| {
      DedupOrdered(front, i, j);
      var k :| 0 <= k <= |front| && Dedup(front)[i] in front[..k] && Dedup(front)[j] !in front[..k];
      assert s[..k] == front[..k];
    }
  }

  function FormatAddress(a: Address): string {
    if a.prefix > 0 then a.ip + "/" + Itoa(a.prefix) else a.ip
  }

  /** What the guest agent loop keeps of one address: nothing or its text. */
  function AgentKeeps(a: Address): seq<string> {
    if a.ip == "" || HasPrefix(a.ip, "127.") || a.ip == "::1" then [] else [FormatAddress(a)]
  }

  /** What the container loop keeps of one text, after formatting. */
  function ContainerKeeps(address: string): seq<string> {
    var t := TrimSpace(address);
    if t == "" || HasPrefix(t, "127.") || t == "::1" || HasPrefix(t, "fe80:") then [] else [t]
  }

  /** What the container loop keeps of one entry of an address list. */
  function ContainerKeepsAddress(a: Address): seq<string> {
    if a.ip == "" then [] else ContainerKeeps(FormatAddress(a))
  }

  function AgentEmits(i: Interface): seq<string> {
    if i.name == "lo" then [] else Stream(i.addresses, AgentKeeps, [])
  }

  function ContainerEmits(i: Interface): seq<string> {
    if i.name == "lo" then []
    else Stream(i.addresses, ContainerKeepsAddress, []) + ContainerKeeps(i.inet) + ContainerKeeps(i.inet6)
  }

  /** Stopping once eight addresses are found loses nothing: whatever follows in the stream, the
      first eight of the deduplication are already there. */
  lemma StopEarly(seen: seq<string>, whole: seq<string>)
    requires seen <= whole && |Dedup(seen)| == MAX_GUEST_IPS
    ensures Take(Dedup(whole), MAX_GUEST_IPS) == Dedup(seen)
  {
    DedupExtends(seen, whole[|seen|..]);
    assert seen + whole[|seen|..] == whole;
  }

  lemma DedupSnoc(s: seq<string>, x: string)
    ensures Dedup(s + [x]) == if x in Dedup(s) then Dedup(s) else Dedup(s) + [x]
  {
  }

  /** Appends a text unless it was seen before. */
  method AppendNew(text: string, seen: set<string>, addresses: seq<string>, ghost read: seq<string>)
    returns (seen': set<string>, addresses': seq<string>)
    requires addresses == Dedup(read)
    requires forall x :: x in seen <==> x in addresses
    ensures addresses' == Dedup(read + [text]) && |addresses'| <= |addresses| + 1
    ensures forall x :: x in seen' <==> x in addresses'
  {
    DedupSnoc(read, text);
    seen', addresses' := seen, addresses;
    if text in seen {
      return;
    }
    seen' := seen + {text};
    addresses' := addresses + [text];
  }

  /** One interface of the guest agent: the inner loop, after `read` has gone by. */
  method AgentInterface(ips: seq<Address>, seen: set<string>, found: seq<string>, ghost read: seq<string>)
    returns (seen': set<string>, addresses: seq<string>)
    requires found == Dedup(read) && |found| < MAX_GUEST_IPS
    requires forall x :: x in seen <==> x in found
    ensures addresses == Take(Dedup(Stream(ips, AgentKeeps, read)), MAX_GUEST_IPS)
    ensures forall x :: x in seen' <==> x in addresses
  {
    seen', addresses := seen, found;
    ghost var got := Stream(ips[..0], AgentKeeps, read);
    for j := 0 to |ips|
      invariant got == Stream(ips[..j], AgentKeeps, read)
      invariant addresses == Dedup(got) && |addresses| < MAX_GUEST_IPS
      invariant forall x :: x in seen' <==> x in addresses
    {
      var ip := ips[j];
      StreamStep(ips, j, AgentKeeps, read);
      if ip.ip == "" || HasPrefix(ip.ip, "127.") || ip.ip == "::1" {
        continue;
      }
      seen', addresses := AppendNew(FormatAddress(ip), seen', addresses, got);
      got := got + [FormatAddress(ip)];
      if |addresses| >= MAX_GUEST_IPS {
        StopEarly(got, Stream(ips, AgentKeeps, read));
        return;
      }
    }
    assert ips[..|ips|] == ips;
  }

  method AgentIPAddresses(interfaces: seq<Interface>) returns (addresses: seq<string>)
    ensures addresses == Take(Dedup(Stream(interfaces, AgentEmits, [])), MAX_GUEST_IPS)
  {
    var seen: set<string> := {};
    addresses := [];
    for i := 0 to |interfaces|
      invariant addresses == Dedup(Stream(interfaces[..i], AgentEmits, [])) && |addresses| < MAX_GUEST_IPS
      invariant forall x :: x in seen <==> x in addresses
    {
      ghost var read := Stream(interfaces[..i], AgentEmits, []);
      StreamStep(interfaces, i, AgentEmits, []);
      if interfaces[i].name == "lo" {
        continue;
      }
      StreamFrom(interfaces[i].addresses, AgentKeeps, read);
      seen, addresses := AgentInterface(interfaces[i].addresses, seen, addresses, read);
      if |addresses| >= MAX_GUEST_IPS {
        StreamStop(interfaces, i, AgentEmits);
        return;
      }
    }
    assert interfaces[..|interfaces|] == interfaces;
  }

  /** A full list after some interface is the list for all of them. */
  lemma StreamStop(interfaces: seq<Interface>, k: nat, emits: Interface -> seq<string>)
    requires k < |interfaces|
    requires |Dedup(Stream(interfaces[..k + 1], emits, []))| >= MAX_GUEST_IPS
    ensures Take(Dedup(Stream(interfaces[..k + 1], emits, [])), MAX_GUEST_IPS)
         == Take(Dedup(Stream(interfaces, emits, [])), MAX_GUEST_IPS)
  {
    StreamExtends(interfaces, k + 1, emits, []);
    var seen, whole := Stream(interfaces[..k + 1], emits, []), Stream(interfaces, emits, []);
    DedupExtends(seen, whole[|seen|..]);
    assert seen + whole[|seen|..] == whole;
  }

  /** The container loop's local closure: filter, deduplicate, append. */
  method AddAddress(address: string, seen: set<string>, addresses: seq<string>, ghost read: seq<string>)
    returns (seen': set<string>, addresses': seq<string>)
    requires addresses == Dedup(read)
    requires forall x :: x in seen <==> x in addresses
    ensures addresses' == Dedup(read + ContainerKeeps(address)) && |addresses'| <= |addresses| + 1
    ensures forall x :: x in seen' <==> x in addresses'
  {
    var t := TrimSpace(address);
    if t == "" || HasPrefix(t, "127.") || t == "::1" || HasPrefix(t, "fe80:") {
      assert read + ContainerKeeps(address) == read;
      return seen, addresses;
    }
    seen', addresses' := AppendNew(t, seen, addresses, read);
  }

  /** One container interface's address list, stopping when eight are found. */
  method ContainerAddresses(ips: seq<Address>, seen: set<string>, found: seq<string>, ghost read: seq<string>)
    returns (seen': set<string>, addresses: seq<string>)
    requires found == Dedup(read) && |found| < MAX_GUEST_IPS
    requires forall x :: x in seen <==> x in found
    ensures addresses == Take(Dedup(Stream(ips, ContainerKeepsAddress, read)), MAX_GUEST_IPS)
    ensures forall x :: x in seen' <==> x in addresses
  {
    seen', addresses := seen, found;
    ghost var got := Stream(ips[..0], ContainerKeepsAddress, read);
    for j := 0 to |ips|
      invariant got == Stream(ips[..j], ContainerKeepsAddress, read)
      invariant addresses == Dedup(got) && |addresses| < MAX_GUEST_IPS
      invariant forall x :: x in seen' <==> x in addresses
    {
      var ip := ips[j];
      StreamStep(ips, j, ContainerKeepsAddress, read);
      if ip.ip == "" {
        continue;
      }
      seen', addresses := AddAddress(FormatAddress(ip), seen', addresses, got);
      got := got + ContainerKeeps(FormatAddress(ip));
      if |addresses| >= MAX_GUEST_IPS {
        StopEarly(got, Stream(ips, ContainerKeepsAddress, read));
        return;
      }
    }
    assert ips[..|ips|] == ips;
  }

  lemma ContainerOrder(iface: Interface, read: seq<string>)
    requires iface.name != "lo"
    ensures read + ContainerEmits(iface) ==
            Stream(iface.addresses, ContainerKeepsAddress, read)
            + ContainerKeeps(iface.inet) + ContainerKeeps(iface.inet6)
  {
    StreamFrom(iface.addresses, ContainerKeepsAddress, read);
  }

  /** A full list stays the list, whatever the stream brings later. */
  lemma StayFull(seen: seq<string>, more: seq<string>)
    requires |Dedup(seen)| >= MAX_GUEST_IPS
    ensures Take(Dedup(seen + more), MAX_GUEST_IPS) == Take(Dedup(seen), MAX_GUEST_IPS)
    ensures |Dedup(seen + more)| >= MAX_GUEST_IPS
  {
    DedupExtends(seen, more);
  }

  method ContainerInterface(iface: Interface, seen: set<string>, found: seq<string>, ghost read: seq<string>)
    returns (seen': set<string>, addresses: seq<string>)
    requires iface.name != "lo"
    requires found == Dedup(read) && |found| < MAX_GUEST_IPS
    requires forall x :: x in seen <==> x in found
    ensures addresses == Take(Dedup(read + ContainerEmits(iface)), MAX_GUEST_IPS)
    ensures forall x :: x in seen' <==> x in addresses
  {
    ContainerOrder(iface, read);
    ghost var own := Stream(iface.addresses, ContainerKeepsAddress, read);
    ghost var own4 := own + ContainerKeeps(iface.inet);
    seen', addresses := ContainerAddresses(iface.addresses, seen, found, read);
    if |addresses| >= MAX_GUEST_IPS {
      StayFull(own, ContainerKeeps(iface.inet));
      StayFull(own4, ContainerKeeps(iface.inet6));
      return;
    }
    seen', addresses := AddAddress(iface.inet, seen', addresses, own);
    if |addresses| >= MAX_GUEST_IPS {
      StayFull(own4, ContainerKeeps(iface.inet6));
      return;
    }
    seen', addresses := AddAddress(iface.inet6, seen', addresses, own4);
  }

  method ContainerIPAddresses(interfaces: seq<Interface>) returns (addresses: seq<string>)
    ensures addresses == Take(Dedup(Stream(interfaces, ContainerEmits, [])), MAX_GUEST_IPS)
  {
    var seen: set<string> := {};
    addresses := [];
    for i := 0 to |interfaces|
      invariant addresses == Dedup(Stream(interfaces[..i], ContainerEmits, [])) && |addresses| < MAX_GUEST_IPS
      invariant forall x :: x in seen <==> x in addresses
    {
      ghost var read := Stream(interfaces[..i], ContainerEmits, []);
      StreamStep(interfaces, i, ContainerEmits, []);
      if interfaces[i].name == "lo" {
        continue;
      }
      seen, addresses := ContainerInterface(interfaces[i], seen, addresses, read);
      if |addresses| >= MAX_GUEST_IPS {
        StreamStop(interfaces, i, ContainerEmits);
        return;
      }
    }
    assert interfaces[..|interfaces|] == interfaces;
  }

  // ---- What the lists hold ----

  /** The address with its prefix length, when it has one. */
  predicate Written(a: Address, x: string) {
    x == if a.prefix > 0 then a.ip + "/" + Itoa(a.prefix) else a.ip
  }

  /** The guest agent reports this address on some interface but the loopback, and it is no loopback address. */
  ghost predicate AgentReports(interfaces: seq<Interface>, x: string) {
    exists i, a :: i in interfaces && i.name != "lo" && a in i.addresses && Written(a, x)
                   && a.ip != "" && a.ip != "::1" && !("127." <= a.ip)
  }

  /** The text is no loopback address and no link-local one. */
  predicate Usable(x: string) {
    x != "" && x != "::1" && !("127." <= x) && !("fe80:" <= x)
  }

  /** The container's interface shows this text, up to white space, in its list or in one of its fields. */
  ghost predicate Shows(i: Interface, x: string) {
    || (exists a, w :: a in i.addresses && a.ip != "" && Written(a, w) && x == TrimSpace(w))
    || x == TrimSpace(i.inet) || x == TrimSpace(i.inet6)
  }

  ghost predicate ContainerReports(interfaces: seq<Interface>, x: string) {
    Usable(x) && exists i :: i in interfaces && i.name != "lo" && Shows(i, x)
  }

  lemma AgentStream(interfaces: seq<Interface>, x: string)
    ensures x in Stream(interfaces, AgentEmits, []) <==> AgentReports(interfaces, x)
  {
    if x in Stream(interfaces, AgentEmits, []) {
      var i := StreamMember(interfaces, AgentEmits, x);
      var a := StreamMember(i.addresses, AgentKeeps, x);
      assert Written(a, x);
    }
    if i, a :| i in interfaces && i.name != "lo" && a in i.addresses && Written(a, x)
               && a.ip != "" && a.ip != "::1" && !("127." <= a.ip) {
      StreamHas(i.addresses, AgentKeeps, a, x);
      StreamHas(interfaces, AgentEmits, i, x);
    }
  }

  lemma ContainerShows(i: Interface, x: string)
    requires i.name != "lo"
    ensures x in ContainerEmits(i) <==> Usable(x) && Shows(i, x)
  {
    hide TrimSpace, Itoa;
    var listed := Stream(i.addresses, ContainerKeepsAddress, []);
    if x in listed {
      var a := StreamMember(i.addresses, ContainerKeepsAddress, x);
      assert Written(a, FormatAddress(a));
    }
    if a, w :| a in i.addresses && a.ip != "" && Written(a, w) && x == TrimSpace(w) {
      if Usable(x) {
        assert w == FormatAddress(a);
        StreamHas(i.addresses, ContainerKeepsAddress, a, x);
      }
    }
  }

  lemma ContainerStream(interfaces: seq<Interface>, x: string)
    ensures x in Stream(interfaces, ContainerEmits, []) <==> ContainerReports(interfaces, x)
  {
    if x in Stream(interfaces, ContainerEmits, []) {
      var i := StreamMember(interfaces, ContainerEmits, x);
      ContainerShows(i, x);
    }
    if i :| i in interfaces && i.name != "lo" && Shows(i, x) {
      if Usable(x) {
        ContainerShows(i, x);
        StreamHas(interfaces, ContainerEmits, i, x);
      }
    }
  }

  /** What both loops return, for the stream that each has read: at most eight addresses, only reported ones,
      and all of those unless there are eight. */
  lemma AddressesFound(interfaces: seq<Interface>, addresses: seq<string>, x: string)
    ensures addresses == Take(Dedup(Stream(interfaces, AgentEmits, [])), MAX_GUEST_IPS) ==>
              && |addresses| <= 8 && (x in addresses ==> AgentReports(interfaces, x))
              && (|addresses| < 8 && AgentReports(interfaces, x) ==> x in addresses)
    ensures addresses == Take(Dedup(Stream(interfaces, ContainerEmits, [])), MAX_GUEST_IPS) ==>
              && |addresses| <= 8 && (x in addresses ==> ContainerReports(interfaces, x))
              && (|addresses| < 8 && ContainerReports(interfaces, x) ==> x in addresses)
  {
    hide AgentReports, ContainerReports;
    AgentStream(interfaces, x);
    ContainerStream(interfaces, x);
    TakeMembers(Dedup(Stream(interfaces, AgentEmits, [])), x);
    TakeMembers(Dedup(Stream(interfaces, ContainerEmits, [])), x);
  }

  lemma TakeMembers(s: seq<string>, x: string)
    ensures |Take(s, MAX_GUEST_IPS)| <= 8
    ensures x in Take(s, MAX_GUEST_IPS) ==> x in s
    ensures |Take(s, MAX_GUEST_IPS)| < 8 ==> Take(s, MAX_GUEST_IPS) == s
  {
  }
}
