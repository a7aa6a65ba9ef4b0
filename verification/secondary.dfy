/**
 * The secondary resolver: the first eligible, non-primary link that either
 * owns a usable default route (tier A) or has an IPv4 prefix of the same
 * length as the primary's (tier B, with a route synthesized from the
 * primary's default route).
 */
module Secondary {
  import opened NetModel
  import opened Filter
  import opened Details
  import Primary

  /** The resolver's answer: interface name, its IPv4 prefix and the route to install. */
  datatype Selection = Selection(name: string, addr: Prefix, route: Option<Route>)

  /** "Nothing qualified": empty name, zero prefix, nil route. */
  const NO_SELECTION: Selection := Selection("", ZERO_PREFIX, None)

  /** What examining one link decides: go on, select it, or fail the whole search. */
  datatype Verdict = Skip | Select(sel: Selection) | Fail(error: Error)

  /** The route tier B installs: the primary's destination and gateway, the candidate as device, every other field zero. */
  function SynthesizedRoute(primaryRoute: Route, device: string): (r: Route)
    ensures r.dest == primaryRoute.dest && r.gateway == primaryRoute.gateway
    ensures r.device == device && r.priority == 0
  {
    Route(primaryRoute.dest, primaryRoute.gateway, device, 0)
  }

  /** One iteration of the link loop of getSecondaryInterfaceDetails. */
  function Examine(ns: Namespace, primary: string, link: Link): (v: Verdict)
    ensures v.Select? ==> v.sel.name == link.name && IsValid(v.sel.addr) && v.sel.route.Some?
    ensures v.Select? ==> !IsInterfaceFilteredOut(link.name) && link.name != primary
    ensures IsInterfaceFilteredOut(link.name) || link.name == primary ==> v == Skip
    ensures (!IsInterfaceFilteredOut(link.name) && link.name != primary
             && InterfaceDetails(ns, link.name).Err?) ==> v == Fail(InterfaceDetails(ns, link.name).error)
    ensures (!IsInterfaceFilteredOut(link.name) && link.name != primary
             && InterfaceDetails(ns, link.name).Ok? && !IsValid(InterfaceDetails(ns, link.name).value.addr)) ==> v == Skip
  {
    if IsInterfaceFilteredOut(link.name) || link.name == primary then Skip
    else
      match InterfaceDetails(ns, link.name)
      case Err(e) => Fail(e)
      case Ok(d) =>
        if IsValid(d.addr) && d.route.Some? then Select(Selection(link.name, d.addr, d.route))
        else if IsValid(d.addr) && d.route.None? then
          match InterfaceDetails(ns, primary)
          case Err(e) => Fail(e)
          case Ok(p) =>
            if Bits(p.addr) == Bits(d.addr) then
              if p.route.None? then Fail(NilDefaultRoute)
              else Select(Selection(link.name, d.addr, Some(SynthesizedRoute(p.route.value, link.name))))
            else Skip
        else Skip
  }

  /** The link loop over `links`, in order. */
  function Scan(ns: Namespace, primary: string, links: seq<Link>): (r: Result<Selection>)
    ensures r.Ok? && r.value != NO_SELECTION ==>
      && IsValid(r.value.addr) && r.value.route.Some?
      && !IsInterfaceFilteredOut(r.value.name) && r.value.name != primary
      && exists l :: l in links && l.name == r.value.name
    ensures r.Err? ==> exists l :: l in links && Examine(ns, primary, l) == Fail(r.error)
  {
    if links == [] then Ok(NO_SELECTION)
    else
      match Examine(ns, primary, links[0])
      case Skip => Scan(ns, primary, links[1..])
      case Select(s) => Ok(s)
      case Fail(e) => Err(e)
  }

  /** getSecondaryInterfaceDetails as a value. */
  function SecondaryInterface(ns: Namespace, primary: string): (r: Result<Selection>)
    ensures ns.linkListFails ==> r == Err(LinkListFailed)
    ensures r.Ok? && r.value != NO_SELECTION ==>
      && IsValid(r.value.addr) && r.value.route.Some?
      && !IsInterfaceFilteredOut(r.value.name) && r.value.name != primary
      && exists l :: l in ns.links && l.name == r.value.name
    ensures r.Err? && r.error != LinkListFailed ==>
      exists l :: l in ns.links && Examine(ns, primary, l) == Fail(r.error)
  {
    if ns.linkListFails then Err(LinkListFailed) else Scan(ns, primary, ns.links)
  }

  /** getSecondaryInterfaceDetails: the link loop with `continue` and `break`. */
  method GetSecondaryInterfaceDetails(ns: Namespace, primary: string) returns (res: Result<Selection>)
    ensures res == SecondaryInterface(ns, primary)
  {
    if ns.linkListFails {
      return Err(LinkListFailed);
    }
    var links := ns.links;
    var sel := NO_SELECTION;
    var i := 0;
    while i < |links|
      invariant 0 <= i <= |links|
      invariant Scan(ns, primary, links) == Scan(ns, primary, links[i..])
      invariant sel == NO_SELECTION
    {
      var link := links[i];
      assert links[i..][1..] == links[i + 1..];
      if IsInterfaceFilteredOut(link.name) || link.name == primary {
        assert Examine(ns, primary, link) == Skip;
        i := i + 1;
        continue;
      }
      var details := GetInterfaceDetails(ns, link.name);
      if details.Err? {
        assert Examine(ns, primary, link) == Fail(details.error);
        return Err(details.error);
      }
      var addr, route := details.value.addr, details.value.route;
      if IsValid(addr) && route.Some? {
        sel := Selection(link.name, addr, route);
        assert Examine(ns, primary, link) == Select(sel);
        break;
      }
      if IsValid(addr) && route.None? {
        var primaryDetails := GetInterfaceDetails(ns, primary);
        if primaryDetails.Err? {
          assert Examine(ns, primary, link) == Fail(primaryDetails.error);
          return Err(primaryDetails.error);
        }
        if Bits(primaryDetails.value.addr) == Bits(addr) {
          if primaryDetails.value.route.None? {
            assert Examine(ns, primary, link) == Fail(NilDefaultRoute);
            return Err(NilDefaultRoute);
          }
          sel := Selection(link.name, addr, Some(SynthesizedRoute(primaryDetails.value.route.value, link.name)));
          assert Examine(ns, primary, link) == Select(sel);
          break;
        }
      }
      assert Examine(ns, primary, link) == Skip;
      i := i + 1;
    }
    return Ok(sel);
  }

  /** Index of the first link whose examination does not say Skip, or -1. */
  function FirstDecisive(ns: Namespace, primary: string, links: seq<Link>): (k: int)
    ensures -1 <= k < |links|
    ensures k >= 0 ==> !Examine(ns, primary, links[k]).Skip?
    ensures forall j :: 0 <= j < |links| && (k < 0 || j < k) ==> Examine(ns, primary, links[j]).Skip?
  {
    if links == [] then -1
    else if !Examine(ns, primary, links[0]).Skip? then 0
    else
      var k := FirstDecisive(ns, primary, links[1..]);
      if k < 0 then -1 else k + 1
  }

  function VerdictResult(v: Verdict): Result<Selection>
  {
    match v
    case Skip => Ok(NO_SELECTION)
    case Select(s) => Ok(s)
    case Fail(e) => Err(e)
  }

  /** The loop's answer is decided by the first link that is not skipped, and by nothing else. */
  lemma {:induction false} ScanIsFirstDecisive(ns: Namespace, primary: string, links: seq<Link>)
    ensures var k := FirstDecisive(ns, primary, links);
      Scan(ns, primary, links) == if k < 0 then Ok(NO_SELECTION) else VerdictResult(Examine(ns, primary, links[k]))
  {
    if links != [] && Examine(ns, primary, links[0]).Skip? {
      ScanIsFirstDecisive(ns, primary, links[1..]);
    }
  }

  /**
   * A selected link is never filtered out and never the primary, and it is
   * the first link, in listing order, that the loop did not skip.
   */
  lemma SelectionIsEligibleAndFirst(ns: Namespace, primary: string, s: Selection)
    requires SecondaryInterface(ns, primary) == Ok(s) && s != NO_SELECTION
    ensures !IsInterfaceFilteredOut(s.name) && s.name != primary
    ensures IsValid(s.addr) && s.route.Some?
    ensures exists k :: (0 <= k < |ns.links| && ns.links[k].name == s.name
      && Examine(ns, primary, ns.links[k]) == Select(s)
      && forall j :: 0 <= j < k ==> Examine(ns, primary, ns.links[j]).Skip?)
  {
    ScanIsFirstDecisive(ns, primary, ns.links);
  }

  /** "Not found" is not an error: when every link is skipped the answer is the empty selection. */
  lemma NothingQualifies(ns: Namespace, primary: string)
    requires !ns.linkListFails
    requires forall j :: 0 <= j < |ns.links| ==> Examine(ns, primary, ns.links[j]).Skip?
    ensures SecondaryInterface(ns, primary) == Ok(NO_SELECTION)
  {
    ScanIsFirstDecisive(ns, primary, ns.links);
  }

  /** Links after the first decisive one are never examined: appending links changes nothing. */
  lemma {:induction false} LaterLinksIgnored(ns: Namespace, primary: string, links: seq<Link>, more: seq<Link>)
    requires FirstDecisive(ns, primary, links) >= 0
    ensures Scan(ns, primary, links + more) == Scan(ns, primary, links)
  {
    if Examine(ns, primary, links[0]).Skip? {
      assert (links + more)[1..] == links[1..] + more;
      LaterLinksIgnored(ns, primary, links[1..], more);
    }
  }

  /**
   * Tier A: the first non-skipped candidate with a valid IPv4 prefix and its
   * own usable default route is returned with that prefix and that route unchanged.
   */
  lemma TierA(ns: Namespace, primary: string, k: nat, d: Details)
    requires !ns.linkListFails && k < |ns.links|
    requires forall j :: 0 <= j < k ==> Examine(ns, primary, ns.links[j]).Skip?
    requires !IsInterfaceFilteredOut(ns.links[k].name) && ns.links[k].name != primary
    requires InterfaceDetails(ns, ns.links[k].name) == Ok(d) && IsValid(d.addr) && d.route.Some?
    ensures SecondaryInterface(ns, primary) == Ok(Selection(ns.links[k].name, d.addr, d.route))
  {
    assert Examine(ns, primary, ns.links[k]) == Select(Selection(ns.links[k].name, d.addr, d.route));
    assert FirstDecisive(ns, primary, ns.links) == k;
    ScanIsFirstDecisive(ns, primary, ns.links);
  }

  /**
   * Tier B: a first non-skipped candidate with a valid IPv4 prefix and no own
   * route is selected when its prefix length equals the primary's; the route
   * is the primary's destination and gateway with the candidate as device and
   * priority zero.
   */
  lemma TierB(ns: Namespace, primary: string, k: nat, d: Details, p: Details)
    requires !ns.linkListFails && k < |ns.links|
    requires forall j :: 0 <= j < k ==> Examine(ns, primary, ns.links[j]).Skip?
    requires !IsInterfaceFilteredOut(ns.links[k].name) && ns.links[k].name != primary
    requires InterfaceDetails(ns, ns.links[k].name) == Ok(d) && IsValid(d.addr) && d.route.None?
    requires InterfaceDetails(ns, primary) == Ok(p) && Bits(p.addr) == Bits(d.addr) && p.route.Some?
    ensures var name := ns.links[k].name;
      SecondaryInterface(ns, primary) ==
        Ok(Selection(name, d.addr, Some(Route(p.route.value.dest, p.route.value.gateway, name, 0))))
  {
    var name := ns.links[k].name;
    var sel := Selection(name, d.addr, Some(SynthesizedRoute(p.route.value, name)));
    assert Examine(ns, primary, ns.links[k]) == Select(sel);
    assert FirstDecisive(ns, primary, ns.links) == k;
    ScanIsFirstDecisive(ns, primary, ns.links);
  }

  /**
   * Tier B compares prefix lengths only: a candidate without its own route is
   * passed over when the lengths differ, and always when the primary has no
   * valid IPv4 prefix.
   */
  lemma TierBNeedsSameLength(ns: Namespace, primary: string, link: Link, d: Details, p: Details)
    requires !IsInterfaceFilteredOut(link.name) && link.name != primary
    requires InterfaceDetails(ns, link.name) == Ok(d) && d.route.None?
    requires InterfaceDetails(ns, primary) == Ok(p)
    requires Bits(p.addr) != Bits(d.addr) || !IsValid(p.addr)
    ensures Examine(ns, primary, link) == Skip
  {
  }

  /**
   * A primary that owns a usable default route never meets tier B without
   * one, so examining a link never ends in the nil dereference.
   */
  lemma PrimaryWithRouteNeverNil(ns: Namespace, primary: string, link: Link)
    requires exists k :: 0 <= k < |ns.routes| && ns.routes[k].device == primary && IsUsableDefault(ns.routes[k])
    ensures Examine(ns, primary, link) != Fail(NilDefaultRoute)
  {
    assert OwnDefaultRoute(ns.routes, primary).Some?;
  }

  /** Hence the whole search never ends in the nil dereference for such a primary. */
  lemma {:induction false} SearchNeverNil(ns: Namespace, primary: string)
    requires exists k :: 0 <= k < |ns.routes| && ns.routes[k].device == primary && IsUsableDefault(ns.routes[k])
    ensures SecondaryInterface(ns, primary) != Err(NilDefaultRoute)
  {
    ScanIsFirstDecisive(ns, primary, ns.links);
    var k := FirstDecisive(ns, primary, ns.links);
    if k >= 0 {
      PrimaryWithRouteNeverNil(ns, primary, ns.links[k]);
    }
  }

  /**
   * A primary name produced by either resolver on the same namespace owns a
   * usable default route, so the nil dereference cannot happen.
   */
  lemma NoNilRouteWithResolvedPrimary(ns: Namespace)
    ensures Primary.LastDefaultDevice(ns.routes) != "" ==>
      SecondaryInterface(ns, Primary.LastDefaultDevice(ns.routes)) != Err(NilDefaultRoute)
    ensures Primary.LowestDefaultDevice(ns.routes) != "" ==>
      SecondaryInterface(ns, Primary.LowestDefaultDevice(ns.routes)) != Err(NilDefaultRoute)
  {
    var last := Primary.LastUsableDefault(ns.routes);
    if last >= 0 {
      SearchNeverNil(ns, ns.routes[last].device);
    }
    var lowest := Primary.LowestUsableDefault(ns.routes);
    if lowest >= 0 {
      SearchNeverNil(ns, ns.routes[lowest].device);
    }
  }
}
