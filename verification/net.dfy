/**
 * The value-level vocabulary shared by the resolvers and the migrator: IP
 * addresses and prefixes with the semantics of Go's net/netip package, routes,
 * links and an in-memory namespace that stands in for the netops library.
 */
module NetModel {

  /** math.MaxInt on a 64-bit platform. */
  const MAX_INT: int := 0x7FFF_FFFF_FFFF_FFFF

  datatype Option<+T> = None | Some(value: T)

  /** A netip.Addr: the zero Addr, an IPv4 or an IPv6 address (the value is opaque). */
  datatype IP = NoIP | V4(v4: nat) | V6(v6: nat)

  function BitLen(ip: IP): nat
  {
    match ip
    case NoIP => 0
    case V4(_) => 32
    case V6(_) => 128
  }

  /**
   * A netip.Prefix. The stored length only matters when the prefix is valid;
   * like netip, an invalid prefix may still carry an address.
   */
  datatype Prefix = Prefix(ip: IP, len: int)

  /** The zero netip.Prefix{}: no address, invalid. */
  const ZERO_PREFIX: Prefix := Prefix(NoIP, -1)

  /** The destination used to ask the library for default routes (0.0.0.0/0). */
  const DEFAULT_PREFIX: Prefix := Prefix(V4(0), 0)

  predicate IsValid(p: Prefix): (r: bool)
    ensures p.ip.NoIP? ==> !r
    ensures r ==> 0 <= p.len <= 128
    ensures r && p.ip.V4? ==> p.len <= 32
  {
    !p.ip.NoIP? && 0 <= p.len <= BitLen(p.ip)
  }

  /** Prefix.Bits(): the prefix length, or -1 for an invalid prefix. */
  function Bits(p: Prefix): (b: int)
    ensures b == -1 <==> !IsValid(p)
    ensures -1 <= b <= 128
  {
    if IsValid(p) then p.len else -1
  }

  /** Prefix.Addr().Is4() */
  predicate Is4(p: Prefix): (r: bool)
    ensures r ==> BitLen(p.ip) == 32
    ensures r && IsValid(p) ==> 0 <= Bits(p) <= 32
    ensures p == ZERO_PREFIX ==> !r
  {
    p.ip.V4?
  }

  /** A netops.Route, reduced to the four fields the core reads or writes. */
  datatype Route = Route(dest: Prefix, gateway: IP, device: string, priority: int)

  /**
   * The route test both resolvers apply: zero destination bits and a priority
   * strictly below math.MaxInt.
   */
  predicate IsUsableDefault(r: Route): (u: bool)
    ensures u ==> IsValid(r.dest) && r.dest.len == 0 && r.priority < MAX_INT
    ensures r.dest == DEFAULT_PREFIX ==> (u <==> r.priority < MAX_INT)
    ensures r.dest == ZERO_PREFIX ==> !u
  {
    Bits(r.dest) == 0 && r.priority < MAX_INT
  }

  /**
   * A link as seen through the library. `addrsFail` makes GetAddr fail
   * for this link (the library's failures are inputs of the model).
   */
  datatype Link = Link(name: string, addrs: seq<Prefix>, up: bool, addrsFail: bool)

  /**
   * A namespace as seen through the library: its path, links in listing order,
   * routes in listing order, and whether LinkList or RouteList fails.
   */
  datatype Namespace = Namespace(
    path: string,
    links: seq<Link>,
    routes: seq<Route>,
    linkListFails: bool,
    routeListFails: bool)

  function EmptyNamespace(path: string): (ns: Namespace)
    ensures ns.path == path && ns.links == [] && ns.routes == []
  {
    Namespace(path, [], [], false, false)
  }

  /** The failures the resolvers report. */
  datatype Error =
    | LinkListFailed
    | RouteListFailed
    | LinkNotFound(name: string)
    | AddrListFailed(name: string)
    | NoDefaultRoute
    | NilDefaultRoute  // the Go code would dereference a nil route here

  datatype Result<+T> = Ok(value: T) | Err(error: Error)

  /** Index of the first link called `name`, or -1. */
  function LinkIndex(links: seq<Link>, name: string): (k: int)
    ensures -1 <= k < |links|
    ensures k >= 0 ==> links[k].name == name
    ensures forall j :: 0 <= j < |links| && (k < 0 || j < k) ==> links[j].name != name
  {
    if links == [] then -1
    else if links[0].name == name then 0
    else
      var k := LinkIndex(links[1..], name);
      if k < 0 then -1 else k + 1
  }

  /** Namespace.LinkFind: the first link called `name`, if any. */
  function FindLink(links: seq<Link>, name: string): (r: Option<Link>)
    ensures r.Some? <==> exists j :: 0 <= j < |links| && links[j].name == name
    ensures r.Some? ==> r.value.name == name && r.value in links
  {
    var k := LinkIndex(links, name);
    if k < 0 then None else Some(links[k])
  }
}
