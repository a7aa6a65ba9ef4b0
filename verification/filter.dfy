/**
 * The interface filter: names that start with a reserved prefix belong to
 * virtual, loopback or container plumbing and are never classified.
 */
module Filter {

  /** The fixed list of reserved name prefixes, in the order they are tried. */
  const RESERVED_PREFIXES: seq<string> :=
    ["veth", "lo", "docker", "podman", "br-", "cni", "tunl", "tun", "tap"]

  /** strings.HasPrefix tried against each entry of `prefixes` in turn. */
  function MatchesAny(prefixes: seq<string>, name: string): (r: bool)
    ensures r <==> exists i :: 0 <= i < |prefixes| && prefixes[i] <= name
  {
    if prefixes == [] then false
    else if prefixes[0] <= name then true
    else MatchesAny(prefixes[1..], name)
  }

  /** True when `name` starts with one of the nine reserved prefixes. */
  function IsInterfaceFilteredOut(name: string): (r: bool)
    ensures r <==>
      || "veth" <= name || "lo" <= name || "docker" <= name
      || "podman" <= name || "br-" <= name || "cni" <= name
      || "tunl" <= name || "tun" <= name || "tap" <= name
  {
    var ps := RESERVED_PREFIXES;
    assert ps[0] == "veth" && ps[1] == "lo" && ps[2] == "docker";
    assert ps[3] == "podman" && ps[4] == "br-" && ps[5] == "cni";
    assert ps[6] == "tunl" && ps[7] == "tun" && ps[8] == "tap" && |ps| == 9;
    MatchesAny(ps, name)
  }

  /** Ordinary NIC names are kept. */
  lemma KeptExamples()
    ensures !IsInterfaceFilteredOut("eth0")
    ensures !IsInterfaceFilteredOut("eth1")
    ensures !IsInterfaceFilteredOut("ens3")
  {
    var firsts := ["veth"[0], "lo"[0], "docker"[0], "podman"[0], "br-"[0], "cni"[0], "tunl"[0], "tun"[0], "tap"[0]];
    assert 'e' !in firsts;
  }

  /** The reserved families are dropped. */
  lemma DroppedExamples()
    ensures IsInterfaceFilteredOut("lo")
    ensures IsInterfaceFilteredOut("tun0")
    ensures IsInterfaceFilteredOut("br-x")
    ensures IsInterfaceFilteredOut("veth1a2b")
  {
    assert "lo" <= "lo";
    assert "tun" == "tun0"[..3];
    assert "br-" == "br-x"[..3];
    assert "veth" == "veth1a2b"[..4];
  }
}
