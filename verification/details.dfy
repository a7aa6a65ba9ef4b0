/**
 * Interface details: the first IPv4 prefix of a link and the first usable
 * default route that the link owns.
 */
module Details {
  import opened NetModel

  /** What getInterfaceDetails hands back: an address (possibly the zero prefix) and an optional route. */
  datatype Details = Details(addr: Prefix, route: Option<Route>)

  /** Index of the first IPv4 entry of `addrs`, or -1. */
  function FirstIPv4Index(addrs: seq<Prefix>): (k: int)
    ensures -1 <= k < |addrs|
    ensures k >= 0 ==> Is4(addrs[k])
    ensures forall j :: 0 <= j < |addrs| && (k < 0 || j < k) ==> !Is4(addrs[j])
  {
    if addrs == [] then -1
    else if Is4(addrs[0]) then 0
    else
      var k := FirstIPv4Index(addrs[1..]);
      if k < 0 then -1 else k + 1
  }

  /**
   * The first IPv4 prefix in address order, IPv6 entries skipped; the zero
   * (invalid) prefix when the list holds no IPv4 entry.
   */
  function FirstIPv4(addrs: seq<Prefix>): (a: Prefix)
    ensures a == ZERO_PREFIX <==> forall j :: 0 <= j < |addrs| ==> !Is4(addrs[j])
    ensures a != ZERO_PREFIX ==>
      exists k :: (0 <= k < |addrs| && addrs[k] == a && Is4(a)
        && forall j :: 0 <= j < k ==> !Is4(addrs[j]))
  {
    var k := FirstIPv4Index(addrs);
    if k < 0 then ZERO_PREFIX else addrs[k]
  }

  /** Index of the first usable default route whose device is `iface`, or -1. */
  function OwnRouteIndex(routes: seq<Route>, iface: string): (k: int)
    ensures -1 <= k < |routes|
    ensures k >= 0 ==> routes[k].device == iface && IsUsableDefault(routes[k])
    ensures forall j :: 0 <= j < |routes| && (k < 0 || j < k) ==>
      !(routes[j].device == iface && IsUsableDefault(routes[j]))
  {
    if routes == [] then -1
    else if routes[0].device == iface && IsUsableDefault(routes[0]) then 0
    else
      var k := OwnRouteIndex(routes[1..], iface);
      if k < 0 then -1 else k + 1
  }

  /** The first usable default route whose device is `iface`; None when the link owns none. */
  function OwnDefaultRoute(routes: seq<Route>, iface: string): (r: Option<Route>)
    ensures r.None? <==>
      forall j :: 0 <= j < |routes| ==> !(routes[j].device == iface && IsUsableDefault(routes[j]))
    ensures r.Some? ==>
      exists k :: (0 <= k < |routes| && routes[k] == r.value
        && r.value.device == iface && IsUsableDefault(r.value)
        && forall j :: 0 <= j < k ==> !(routes[j].device == iface && IsUsableDefault(routes[j])))
  {
    var k := OwnRouteIndex(routes, iface);
    if k < 0 then None else Some(routes[k])
  }

  /** getInterfaceDetails as a value: failures in the order the code meets them. */
  function InterfaceDetails(ns: Namespace, iface: string): (r: Result<Details>)
    ensures r.Err? <==>
      || (forall j :: 0 <= j < |ns.links| ==> ns.links[j].name != iface)
      || FindLink(ns.links, iface).value.addrsFail
      || ns.routeListFails
    ensures FindLink(ns.links, iface).None? ==> r == Err(LinkNotFound(iface))
    ensures FindLink(ns.links, iface).Some? && FindLink(ns.links, iface).value.addrsFail ==>
      r == Err(AddrListFailed(iface))
    ensures (FindLink(ns.links, iface).Some? && !FindLink(ns.links, iface).value.addrsFail
             && ns.routeListFails) ==> r == Err(RouteListFailed)
    ensures r.Ok? ==> r.value.route.Some? ==> r.value.route.value in ns.routes
  {
    match FindLink(ns.links, iface)
    case None => Err(LinkNotFound(iface))
    case Some(link) =>
      if link.addrsFail then Err(AddrListFailed(iface))
      else if ns.routeListFails then Err(RouteListFailed)
      else Ok(Details(FirstIPv4(link.addrs), OwnDefaultRoute(ns.routes, iface)))
  }

  /** The address loop of getInterfaceDetails: stop at the first IPv4 entry. */
  method ScanAddrs(addrs: seq<Prefix>) returns (addr: Prefix)
    ensures addr == FirstIPv4(addrs)
  {
    addr := ZERO_PREFIX;
    var i := 0;
    while i < |addrs|
      invariant 0 <= i <= |addrs|
      invariant forall j :: 0 <= j < i ==> !Is4(addrs[j])
      invariant addr == ZERO_PREFIX
    {
      if Is4(addrs[i]) {
        addr := addrs[i];
        break;
      }
      i := i + 1;
    }
  }

  /** The route loop of getInterfaceDetails: stop at the first usable default route of `iface`. */
  method ScanOwnRoute(routes: seq<Route>, iface: string) returns (route: Option<Route>)
    ensures route == OwnDefaultRoute(routes, iface)
  {
    route := None;
    var i := 0;
    while i < |routes|
      invariant 0 <= i <= |routes|
      invariant forall j :: 0 <= j < i ==> !(routes[j].device == iface && IsUsableDefault(routes[j]))
      invariant route == None
    {
      var r := routes[i];
      if r.device == iface && Bits(r.dest) == 0 && r.priority < MAX_INT {
        route := Some(r);
        break;
      }
      i := i + 1;
    }
  }

  /** getInterfaceDetails: link lookup, address list, route list, each failure propagated. */
  method GetInterfaceDetails(ns: Namespace, iface: string) returns (res: Result<Details>)
    ensures res == InterfaceDetails(ns, iface)
  {
    var link := FindLink(ns.links, iface);
    if link.None? {
      return Err(LinkNotFound(iface));
    }
    if link.value.addrsFail {
      return Err(AddrListFailed(iface));
    }
    var addr := ScanAddrs(link.value.addrs);
    if ns.routeListFails {
      return Err(RouteListFailed);
    }
    var route := ScanOwnRoute(ns.routes, iface);
    return Ok(Details(addr, route));
  }
}
