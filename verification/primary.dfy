/**
 * The primary resolver: the device of the route the namespace uses as its
 * default route. `FindPrimaryInterface` models the code as written, whose
 * running minimum is never lowered, so the LAST usable default route wins.
 * `FindPrimaryInterfaceIntended` is the lowest-priority selection the
 * code's comparison was evidently meant to perform.
 */
module Primary {
  import opened NetModel

  /** Index of the last usable default route, or -1 when there is none. */
  function LastUsableDefault(routes: seq<Route>): (k: int)
    ensures -1 <= k < |routes|
    ensures k >= 0 ==> IsUsableDefault(routes[k])
    ensures forall j :: k < j < |routes| ==> !IsUsableDefault(routes[j])
  {
    if routes == [] then -1
    else if IsUsableDefault(routes[|routes| - 1]) then |routes| - 1
    else LastUsableDefault(routes[..|routes| - 1])
  }

  /** The device the resolver as written settles on ("" when no route is usable). */
  function LastDefaultDevice(routes: seq<Route>): (d: string)
    ensures d != "" ==> exists k :: 0 <= k < |routes| && IsUsableDefault(routes[k]) && routes[k].device == d
    ensures (forall j :: 0 <= j < |routes| ==> !IsUsableDefault(routes[j])) ==> d == ""
  {
    var k := LastUsableDefault(routes);
    if k < 0 then "" else routes[k].device
  }

  /**
   * The scan of utils.go as written: `priority` starts at math.MaxInt and is
   * never assigned again, so every usable default route overwrites `dev`.
   */
  method ScanDefaultRoutes(routes: seq<Route>) returns (dev: string)
    ensures dev == LastDefaultDevice(routes)
  {
    var priority := MAX_INT;
    dev := "";
    for i := 0 to |routes|
      invariant priority == MAX_INT
      invariant dev == LastDefaultDevice(routes[..i])
    {
      var r := routes[i];
      assert routes[..i + 1][..i] == routes[..i];
      if Bits(r.dest) == 0 && r.priority < priority {
        dev := r.device;
      }
    }
    assert routes[..|routes|] == routes;
  }

  /**
   * findPrimaryInterface: a route-list failure is propagated; otherwise the
   * device of the last usable default route, unless that name is empty.
   */
  method FindPrimaryInterface(ns: Namespace) returns (res: Result<string>)
    ensures ns.routeListFails ==> res == Err(RouteListFailed)
    ensures !ns.routeListFails ==>
      res == (if LastDefaultDevice(ns.routes) == "" then Err(NoDefaultRoute)
              else Ok(LastDefaultDevice(ns.routes)))
  {
    if ns.routeListFails {
      return Err(RouteListFailed);
    }
    var dev := ScanDefaultRoutes(ns.routes);
    if dev == "" {
      return Err(NoDefaultRoute);
    }
    return Ok(dev);
  }

  /**
   * What the resolver as written returns, in terms of the route list: a
   * non-empty device of a usable default route after which no usable default
   * route follows; an error exactly when no usable default route exists or
   * the last one names no device.
   */
  lemma PrimaryIsLastUsableDefault(routes: seq<Route>)
    ensures var dev := LastDefaultDevice(routes);
      dev != "" <==>
        exists k :: 0 <= k < |routes| && IsUsableDefault(routes[k]) && routes[k].device != ""
          && (forall j :: k < j < |routes| ==> !IsUsableDefault(routes[j]))
    ensures var dev := LastDefaultDevice(routes);
      dev != "" ==>
        exists k :: 0 <= k < |routes| && IsUsableDefault(routes[k]) && routes[k].device == dev
          && (forall j :: k < j < |routes| ==> !IsUsableDefault(routes[j]))
    ensures (forall j :: 0 <= j < |routes| ==> !IsUsableDefault(routes[j])) ==> LastDefaultDevice(routes) == ""
  {
    var k := LastUsableDefault(routes);
    if k >= 0 {
      forall k' | 0 <= k' < |routes| && IsUsableDefault(routes[k'])
        && (forall j :: k' < j < |routes| ==> !IsUsableDefault(routes[j]))
        ensures k' == k
      {
      }
    }
  }

  /**
   * Index of the usable default route with the lowest priority, the first
   * one in list order among equals; -1 when there is none.
   */
  function LowestUsableDefault(routes: seq<Route>): (k: int)
    ensures -1 <= k < |routes|
    ensures k < 0 <==> forall j :: 0 <= j < |routes| ==> !IsUsableDefault(routes[j])
    ensures k >= 0 ==> IsUsableDefault(routes[k])
    ensures k >= 0 ==> forall j :: 0 <= j < |routes| && IsUsableDefault(routes[j]) ==>
      routes[k].priority <= routes[j].priority
    ensures k >= 0 ==> forall j :: 0 <= j < k && IsUsableDefault(routes[j]) ==>
      routes[k].priority < routes[j].priority
  {
    if routes == [] then -1
    else
      var n := |routes| - 1;
      var k := LowestUsableDefault(routes[..n]);
      if IsUsableDefault(routes[n]) && (k < 0 || routes[n].priority < routes[k].priority) then n
      else k
  }

  /** The device the corrected resolver settles on ("" when no route is usable). */
  function LowestDefaultDevice(routes: seq<Route>): (d: string)
    ensures d != "" ==> exists k :: 0 <= k < |routes| && IsUsableDefault(routes[k]) && routes[k].device == d
    ensures (forall j :: 0 <= j < |routes| ==> !IsUsableDefault(routes[j])) ==> d == ""
  {
    var k := LowestUsableDefault(routes);
    if k < 0 then "" else routes[k].device
  }

  /** The scan with the running minimum kept up to date. */
  method ScanDefaultRoutesIntended(routes: seq<Route>) returns (dev: string)
    ensures dev == LowestDefaultDevice(routes)
  {
    var priority := MAX_INT;
    dev := "";
    for i := 0 to |routes|
      invariant var k := LowestUsableDefault(routes[..i]);
        priority == (if k < 0 then MAX_INT else routes[k].priority)
      invariant dev == LowestDefaultDevice(routes[..i])
    {
      var r := routes[i];
      assert routes[..i + 1][..i] == routes[..i];
      if Bits(r.dest) == 0 && r.priority < priority {
        dev := r.device;
        priority := r.priority;
      }
    }
    assert routes[..|routes|] == routes;
  }

  /** The corrected resolver: lowest priority wins, the first seen among equals. */
  method FindPrimaryInterfaceIntended(ns: Namespace) returns (res: Result<string>)
    ensures ns.routeListFails ==> res == Err(RouteListFailed)
    ensures res.Ok? ==> res.value != ""
    ensures res.Ok? ==>
      exists k :: (0 <= k < |ns.routes| && IsUsableDefault(ns.routes[k])
        && ns.routes[k].device == res.value
        && (forall j :: 0 <= j < |ns.routes| && IsUsableDefault(ns.routes[j]) ==>
              ns.routes[k].priority <= ns.routes[j].priority)
        && (forall j :: 0 <= j < k && IsUsableDefault(ns.routes[j]) ==>
              ns.routes[k].priority < ns.routes[j].priority))
    ensures !ns.routeListFails && (exists j :: 0 <= j < |ns.routes| && IsUsableDefault(ns.routes[j])) ==>
      res == (if LowestDefaultDevice(ns.routes) == "" then Err(NoDefaultRoute)
              else Ok(LowestDefaultDevice(ns.routes)))
    ensures !ns.routeListFails && (forall j :: 0 <= j < |ns.routes| ==> !IsUsableDefault(ns.routes[j])) ==>
      res == Err(NoDefaultRoute)
  {
    if ns.routeListFails {
      return Err(RouteListFailed);
    }
    var dev := ScanDefaultRoutesIntended(ns.routes);
    if dev == "" {
      return Err(NoDefaultRoute);
    }
    return Ok(dev);
  }

  /**
   * The two resolvers part ways as soon as a usable default route with a
   * higher priority value follows one with a lower value: the code as written
   * picks eth1 (priority 600) over eth0 (priority 100).
   */
  lemma AsWrittenIgnoresPriority()
    ensures var routes := [Route(DEFAULT_PREFIX, V4(1), "eth0", 100),
                           Route(DEFAULT_PREFIX, V4(2), "eth1", 600)];
      LastDefaultDevice(routes) == "eth1" && LowestDefaultDevice(routes) == "eth0"
  {
    var routes := [Route(DEFAULT_PREFIX, V4(1), "eth0", 100),
                   Route(DEFAULT_PREFIX, V4(2), "eth1", 600)];
    assert routes[..1] == [routes[0]];
    assert routes[..1][..0] == [];
  }

  /**
   * The two resolvers agree whenever the last usable default route also has
   * the strictly lowest priority, in particular when there is only one.
   */
  lemma ResolversAgreeWhenLastIsLowest(routes: seq<Route>)
    requires var k := LastUsableDefault(routes);
      k >= 0 && forall j :: 0 <= j < k && IsUsableDefault(routes[j]) ==>
        routes[k].priority < routes[j].priority
    ensures LastDefaultDevice(routes) == LowestDefaultDevice(routes)
  {
  }
}
