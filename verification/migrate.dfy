/**
 * The namespace migrator: create-or-reuse the destination namespace, open it,
 * find the link in the source namespace, move it, add the address, bring it
 * up and install the route, stopping at the first failure without undoing
 * anything. `NetHost` is an in-memory stand-in for the namespace library,
 * holding every namespace by path and recording each library call attempted.
 */
module Migrate {
  import opened NetModel

  /** The seven steps, in the order the migrator attempts them. */
  datatype Step = Create | Open | Find | Move | Address | BringUp | InstallRoute

  const STEP_COUNT: nat := 7

  /** The step at position `i` of the order. */
  function StepAt(i: nat): Step
    requires i < STEP_COUNT
  {
    if i == 0 then Create
    else if i == 1 then Open
    else if i == 2 then Find
    else if i == 3 then Move
    else if i == 4 then Address
    else if i == 5 then BringUp
    else InstallRoute
  }

  /** Steps `lo` up to but excluding `hi`, in order. */
  function StepRange(lo: nat, hi: nat): (t: seq<Step>)
    requires lo <= hi <= STEP_COUNT
    ensures |t| == hi - lo
  {
    if hi == lo then [] else StepRange(lo, hi - 1) + [StepAt(hi - 1)]
  }

  /** Consecutive ranges of steps join up. */
  lemma {:induction false} StepRangeSplit(lo: nat, mid: nat, hi: nat)
    requires lo <= mid <= hi <= STEP_COUNT
    ensures StepRange(lo, mid) + StepRange(mid, hi) == StepRange(lo, hi)
  {
    if hi > mid {
      StepRangeSplit(lo, mid, hi - 1);
      assert StepRange(lo, mid) + StepRange(mid, hi - 1) + [StepAt(hi - 1)]
          == StepRange(lo, mid) + (StepRange(mid, hi - 1) + [StepAt(hi - 1)]);
    }
  }

  /** A trace that went through `lo..mid` and then `mid..hi` went through `lo..hi`. */
  lemma TraceJoins(prefix: seq<Step>, lo: nat, mid: nat, hi: nat)
    requires lo <= mid <= hi <= STEP_COUNT
    ensures prefix + StepRange(lo, mid) + StepRange(mid, hi) == prefix + StepRange(lo, hi)
  {
    StepRangeSplit(lo, mid, hi);
    assert prefix + StepRange(lo, mid) + StepRange(mid, hi) == prefix + (StepRange(lo, mid) + StepRange(mid, hi));
  }

  /** Attempting the next step extends a trace by one entry. */
  lemma TraceExtends(prefix: seq<Step>, lo: nat, n: nat)
    requires lo <= n < STEP_COUNT
    ensures prefix + StepRange(lo, n) + [StepAt(n)] == prefix + StepRange(lo, n + 1)
  {
    assert prefix + StepRange(lo, n) + [StepAt(n)] == prefix + (StepRange(lo, n) + [StepAt(n)]);
  }

  /** The first `n` steps, in order. */
  function Steps(n: nat): seq<Step>
    requires n <= STEP_COUNT
  {
    StepRange(0, n)
  }

  /** A step's position in the order. */
  function Index(s: Step): (i: nat)
    ensures i < STEP_COUNT && StepAt(i) == s
  {
    match s
    case Create => 0
    case Open => 1
    case Find => 2
    case Move => 3
    case Address => 4
    case BringUp => 5
    case InstallRoute => 6
  }

  /** Where named namespaces live. */
  const NETNS_DIR: string := "/run/netns/"

  /** The text that marks a create failure as "already exists". */
  const FILE_EXISTS: string := "file exists"

  function NamespacePath(name: string): (p: string)
    ensures NETNS_DIR <= p && p[|NETNS_DIR|..] == name
  {
    NETNS_DIR + name
  }

  /** strings.Contains */
  predicate Contains(s: string, sub: string): (c: bool)
    ensures sub <= s ==> c
    ensures c ==> |sub| <= |s|
  {
    assert sub <= s ==> sub <= s[0..];
    exists i :: 0 <= i <= |s| && sub <= s[i..]
  }

  /** Every namespace the host knows, by path. */
  type Host = map<string, Namespace>

  /**
   * Failures of the library calls, supplied from outside: an error text for
   * namespace creation, and a flag per later call that can fail.
   */
  datatype Faults = Faults(
    createError: Option<string>,
    openFails: bool,
    moveFails: bool,
    addAddrFails: bool,
    setUpFails: bool,
    routeAddFails: bool)

  /**
   * The error CreateNamedNamespace reports: the injected one, or the
   * "file exists" text for a taken path (the rest of the message is not modelled).
   */
  function CreateError(host: Host, name: string, injected: Option<string>): (e: Option<string>)
    ensures injected.None? && NamespacePath(name) in host ==> e.Some? && Contains(e.value, FILE_EXISTS)
    ensures injected.None? && NamespacePath(name) !in host ==> e.None?
    ensures injected.Some? ==> e == injected
  {
    if injected.Some? then injected
    else if NamespacePath(name) in host then Some(FILE_EXISTS)
    else None
  }

  function Created(host: Host, name: string): (h: Host)
    ensures h.Keys == host.Keys + {NamespacePath(name)}
    ensures h[NamespacePath(name)] == EmptyNamespace(NamespacePath(name))
    ensures forall p :: p in host && p != NamespacePath(name) ==> h[p] == host[p]
  {
    host[NamespacePath(name) := EmptyNamespace(NamespacePath(name))]
  }

  /**
   * SetNamespace into a different namespace is refused when that namespace
   * already holds a link of the same name: link names are unique within a
   * namespace.
   */
  predicate MoveRefused(host: Host, src: string, dest: string, iface: string): (r: bool)
    requires dest in host
    ensures r <==> src != dest && exists j :: 0 <= j < |host[dest].links| && host[dest].links[j].name == iface
  {
    src != dest && FindLink(host[dest].links, iface).Some?
  }

  /**
   * The routes a namespace keeps when the link `dev` leaves it: every route
   * whose device is another link, in the same order.
   */
  function RoutesAvoiding(routes: seq<Route>, dev: string): (r: seq<Route>)
    ensures |r| <= |routes|
    ensures forall x :: x in r <==> x in routes && x.device != dev
    ensures (forall j :: 0 <= j < |routes| ==> routes[j].device != dev) ==> r == routes
  {
    if routes == [] then []
    else if routes[0].device == dev then RoutesAvoiding(routes[1..], dev)
    else [routes[0]] + RoutesAvoiding(routes[1..], dev)
  }

  /**
   * SetNamespace: the first link called `iface` leaves `src` and is appended
   * to `dest`, down and without addresses, as a link moved between network
   * namespaces arrives; the source loses every route through that link.
   */
  function Moved(host: Host, src: string, dest: string, iface: string): (h: Host)
    requires src in host && dest in host
    requires FindLink(host[src].links, iface).Some?
    ensures h.Keys == host.Keys
    ensures h[dest].links != []
    ensures var moved := h[dest].links[|h[dest].links| - 1];
      moved.name == iface && moved.addrs == [] && !moved.up
    ensures forall p :: p in host && (p != src || src == dest) ==> h[p].routes == host[p].routes
    ensures src != dest ==> h[src].routes == RoutesAvoiding(host[src].routes, iface)
    ensures forall p :: p in host && p != src && p != dest ==> h[p] == host[p]
    ensures src != dest ==> h[dest].links[..|h[dest].links| - 1] == host[dest].links
    ensures var k := LinkIndex(host[src].links, iface);
      src != dest ==>
        (0 <= k < |host[src].links| && h[src].links == host[src].links[..k] + host[src].links[k + 1..])
  {
    var links := host[src].links;
    var k := LinkIndex(links, iface);
    var routes := if src == dest then host[src].routes else RoutesAvoiding(host[src].routes, iface);
    var h1 := host[src := host[src].(links := links[..k] + links[k + 1..], routes := routes)];
    h1[dest := h1[dest].(links := h1[dest].links + [links[k].(addrs := [], up := false)])]
  }

  function LastLink(ns: Namespace): Link
    requires ns.links != []
  {
    ns.links[|ns.links| - 1]
  }

  function WithLastLink(ns: Namespace, link: Link): Namespace
    requires ns.links != []
  {
    ns.(links := ns.links[..|ns.links| - 1] + [link])
  }

  /** AddAddr on the moved link, the last link of `dest`. */
  function Addressed(host: Host, dest: string, addr: Prefix): (h: Host)
    requires dest in host && host[dest].links != []
    ensures h.Keys == host.Keys && h[dest].links != []
    ensures LastLink(h[dest]) == LastLink(host[dest]).(addrs := LastLink(host[dest]).addrs + [addr])
    ensures h[dest].links[..|h[dest].links| - 1] == host[dest].links[..|host[dest].links| - 1]
    ensures h[dest].routes == host[dest].routes
    ensures forall p :: p in host && p != dest ==> h[p] == host[p]
  {
    var link := LastLink(host[dest]);
    host[dest := WithLastLink(host[dest], link.(addrs := link.addrs + [addr]))]
  }

  /** SetUp on the moved link. */
  function BroughtUp(host: Host, dest: string): (h: Host)
    requires dest in host && host[dest].links != []
    ensures h.Keys == host.Keys && h[dest].links != []
    ensures LastLink(h[dest]) == LastLink(host[dest]).(up := true)
    ensures h[dest].links[..|h[dest].links| - 1] == host[dest].links[..|host[dest].links| - 1]
    ensures h[dest].routes == host[dest].routes
    ensures forall p :: p in host && p != dest ==> h[p] == host[p]
  {
    host[dest := WithLastLink(host[dest], LastLink(host[dest]).(up := true))]
  }

  /** RouteAdd in the destination namespace. */
  function RouteAdded(host: Host, dest: string, route: Route): (h: Host)
    requires dest in host
    ensures h.Keys == host.Keys && h[dest].routes == host[dest].routes + [route]
    ensures h[dest].links == host[dest].links
    ensures forall p :: p in host && p != dest ==> h[p] == host[p]
  {
    host[dest := host[dest].(routes := host[dest].routes + [route])]
  }

  /** The final host and the step that failed, if any. */
  datatype Outcome = Outcome(host: Host, failed: Option<Step>)

  /** How many steps completed: all seven, or those before the failing one. */
  function Completed(out: Outcome): (n: nat)
    ensures n <= STEP_COUNT
    ensures n == STEP_COUNT <==> out.failed.None?
    ensures out.failed.Some? ==> StepAt(n) == out.failed.value
  {
    if out.failed.None? then STEP_COUNT else Index(out.failed.value)
  }

  /** How many library calls were attempted: the completed steps and the failing one. */
  function Attempted(out: Outcome): (n: nat)
    ensures n <= STEP_COUNT
  {
    if out.failed.None? then STEP_COUNT else Index(out.failed.value) + 1
  }

  /** Steps 5 to 7 on the moved link: address, up, route. */
  function Configure(host: Host, path: string, addr: Prefix, route: Route, f: Faults): (out: Outcome)
    requires path in host && host[path].links != []
    ensures out.host.Keys == host.Keys
    ensures out.failed.None? || Index(out.failed.value) >= Index(Address)
    ensures out.failed == Some(Address) ==> out.host == host
  {
    if f.addAddrFails then Outcome(host, Some(Address))
    else
      var h1 := Addressed(host, path, addr);
      if f.setUpFails then Outcome(h1, Some(BringUp))
      else
        var h2 := BroughtUp(h1, path);
        if f.routeAddFails then Outcome(h2, Some(InstallRoute))
        else Outcome(RouteAdded(h2, path, route), None)
  }

  /** Steps 2 to 7, once the destination namespace exists or is reused. */
  function Relocate(host: Host, src: string, path: string, iface: string,
                    addr: Prefix, route: Route, f: Faults): (out: Outcome)
    requires src in host
    ensures out.host.Keys == host.Keys
    ensures out.failed.None? || Index(out.failed.value) >= Index(Open)
    ensures out.failed.Some? && Index(out.failed.value) <= Index(Move) ==> out.host == host
  {
    if f.openFails || path !in host then Outcome(host, Some(Open))
    else if FindLink(host[src].links, iface).None? then Outcome(host, Some(Find))
    else if f.moveFails || MoveRefused(host, src, path, iface) then Outcome(host, Some(Move))
    else Configure(Moved(host, src, path, iface), path, addr, route, f)
  }

  /** Step 1 fails: creation reported an error other than "file exists". */
  predicate CreateFailed(host: Host, destName: string, f: Faults): (r: bool)
    ensures r <==> f.createError.Some? && !Contains(f.createError.value, FILE_EXISTS)
  {
    var createErr := CreateError(host, destName, f.createError);
    createErr.Some? && !Contains(createErr.value, FILE_EXISTS)
  }

  /**
   * The host after step 1: the new empty namespace added when creation
   * succeeded, every namespace as it was otherwise.
   */
  function Prepared(host: Host, destName: string, f: Faults): (h: Host)
    ensures host.Keys <= h.Keys <= host.Keys + {NamespacePath(destName)}
    ensures forall p :: p in host ==> h[p] == host[p]
    ensures NamespacePath(destName) in h && NamespacePath(destName) !in host ==>
      h[NamespacePath(destName)] == EmptyNamespace(NamespacePath(destName))
    ensures CreateError(host, destName, f.createError).None? ==> NamespacePath(destName) in h
    ensures CreateError(host, destName, f.createError).Some? ==> h == host
  {
    if CreateError(host, destName, f.createError).None? then Created(host, destName) else host
  }

  /**
   * moveInterfaceToNamespace as a value. Each step runs only when every
   * earlier one succeeded; the first failure ends the migration, and the
   * failing step is the one right after the completed ones.
   */
  function Migration(host: Host, src: string, destName: string, iface: string,
                     addr: Prefix, route: Route, f: Faults): (out: Outcome)
    requires src in host
    ensures out.host.Keys <= host.Keys + {NamespacePath(destName)}
    ensures out.failed == Some(Create) ==> out.host == host
  {
    if CreateFailed(host, destName, f) then Outcome(host, Some(Create))
    else Relocate(Prepared(host, destName, f), src, NamespacePath(destName), iface, addr, route, f)
  }

  /**
   * The migration succeeds exactly when the destination namespace could be
   * created or is reused, it opens, the link exists in the source, and none
   * of the four calls on the link and the destination fails.
   */
  lemma MigrationSucceedsIff(host: Host, src: string, destName: string, iface: string,
                             addr: Prefix, route: Route, f: Faults)
    requires src in host
    ensures var out := Migration(host, src, destName, iface, addr, route, f);
      var createErr := CreateError(host, destName, f.createError);
      out.failed.None? <==>
        && (createErr.None? || (Contains(createErr.value, FILE_EXISTS) && NamespacePath(destName) in host))
        && !f.openFails
        && (exists j :: 0 <= j < |host[src].links| && host[src].links[j].name == iface)
        && (src == NamespacePath(destName) || NamespacePath(destName) !in host
            || forall j :: 0 <= j < |host[NamespacePath(destName)].links| ==>
                 host[NamespacePath(destName)].links[j].name != iface)
        && !f.moveFails && !f.addAddrFails && !f.setUpFails && !f.routeAddFails
  {
    var path := NamespacePath(destName);
    if !CreateFailed(host, destName, f) {
      var h1 := Prepared(host, destName, f);
      assert h1[src] == host[src];
      assert path in host ==> h1[path] == host[path];
    }
  }

  /**
   * Steps 5 to 7 all succeeding: the moved link gains the address and is up,
   * the route is appended, and nothing else changes.
   */
  lemma ConfigureSuccess(host: Host, path: string, addr: Prefix, route: Route, f: Faults)
    requires path in host && host[path].links != []
    requires Configure(host, path, addr, route, f).failed.None?
    ensures var h := Configure(host, path, addr, route, f).host;
      var n := |host[path].links|;
      && h.Keys == host.Keys && |h[path].links| == n
      && LastLink(h[path]) == LastLink(host[path]).(addrs := LastLink(host[path]).addrs + [addr], up := true)
      && h[path].links[..n - 1] == host[path].links[..n - 1]
      && h[path].routes == host[path].routes + [route]
      && forall p :: p in host && p != path ==> h[p] == host[p]
  {
    var h1 := Addressed(host, path, addr);
    var h2 := BroughtUp(h1, path);
    assert |h1[path].links| == |host[path].links|;
    assert |h2[path].links| == |host[path].links|;
  }

  /**
   * Steps 5 to 7 stopping at SetUp: the moved link has the address but is
   * still down, and no route was added.
   */
  lemma ConfigureSetUpFailure(host: Host, path: string, addr: Prefix, route: Route, f: Faults)
    requires path in host && host[path].links != []
    requires Configure(host, path, addr, route, f).failed == Some(BringUp)
    ensures var h := Configure(host, path, addr, route, f).host;
      && h.Keys == host.Keys && h[path].links != []
      && LastLink(h[path]) == LastLink(host[path]).(addrs := LastLink(host[path]).addrs + [addr])
      && h[path].routes == host[path].routes
  {
  }

  /** Steps 2 to 7 all succeeding, in terms of the host they start from. */
  lemma RelocateSuccess(host: Host, src: string, path: string, iface: string,
                        addr: Prefix, route: Route, f: Faults)
    requires src in host
    requires Relocate(host, src, path, iface, addr, route, f).failed.None?
    ensures var h := Relocate(host, src, path, iface, addr, route, f).host;
      && path in host && h.Keys == host.Keys && h[path].links != []
      && LastLink(h[path]).name == iface
      && LastLink(h[path]).addrs == [addr]
      && LastLink(h[path]).up
      && h[path].routes == host[path].routes + [route]
    ensures var h := Relocate(host, src, path, iface, addr, route, f).host;
      var links := host[src].links;
      var k := LinkIndex(links, iface);
      src != path ==>
        && 0 <= k < |links| && h[src].links == links[..k] + links[k + 1..]
        && FindLink(host[path].links, iface).None?
        && h[path].links[..|h[path].links| - 1] == host[path].links
        && h[src].routes == RoutesAvoiding(host[src].routes, iface)
  {
    var h2 := Moved(host, src, path, iface);
    ConfigureSuccess(h2, path, addr, route, f);
  }

  /**
   * After a successful migration the destination's last link is the moved
   * one: named `iface`, up, carrying `addr` as its only address; the route is
   * the destination's newest route; exactly the destination was added.
   */
  lemma MigrationSuccess(host: Host, src: string, destName: string, iface: string,
                         addr: Prefix, route: Route, f: Faults)
    requires src in host
    requires Migration(host, src, destName, iface, addr, route, f).failed.None?
    ensures var out := Migration(host, src, destName, iface, addr, route, f);
      var path := NamespacePath(destName);
      && path in out.host && out.host[path].links != []
      && LastLink(out.host[path]).name == iface
      && LastLink(out.host[path]).addrs == [addr]
      && LastLink(out.host[path]).up
      && out.host[path].routes != []
      && out.host[path].routes[|out.host[path].routes| - 1] == route
      && out.host.Keys == host.Keys + {path}
  {
    var h1 := Prepared(host, destName, f);
    assert Migration(host, src, destName, iface, addr, route, f)
        == Relocate(h1, src, NamespacePath(destName), iface, addr, route, f);
    RelocateSuccess(h1, src, NamespacePath(destName), iface, addr, route, f);
  }

  /** A successful migration out of another namespace takes the link out of the source. */
  lemma MigrationSuccessTakesLink(host: Host, src: string, destName: string, iface: string,
                                  addr: Prefix, route: Route, f: Faults)
    requires src in host && src != NamespacePath(destName)
    requires Migration(host, src, destName, iface, addr, route, f).failed.None?
    ensures var out := Migration(host, src, destName, iface, addr, route, f);
      var links := host[src].links;
      var k := LinkIndex(links, iface);
      && src in out.host && 0 <= k < |links| && out.host[src].links == links[..k] + links[k + 1..]
      && out.host[src].routes == RoutesAvoiding(host[src].routes, iface)
  {
    var h1 := Prepared(host, destName, f);
    assert Migration(host, src, destName, iface, addr, route, f)
        == Relocate(h1, src, NamespacePath(destName), iface, addr, route, f);
    RelocateSuccess(h1, src, NamespacePath(destName), iface, addr, route, f);
  }

  /**
   * Link names stay unique: after a successful migration out of another
   * namespace, the moved link is the destination's only link called `iface`.
   */
  lemma MigrationSuccessKeepsNamesUnique(host: Host, src: string, destName: string, iface: string,
                                         addr: Prefix, route: Route, f: Faults)
    requires src in host && src != NamespacePath(destName)
    requires Migration(host, src, destName, iface, addr, route, f).failed.None?
    ensures var out := Migration(host, src, destName, iface, addr, route, f);
      NamespacePath(destName) in out.host &&
      var dest := out.host[NamespacePath(destName)].links;
      forall j :: 0 <= j < |dest| - 1 ==> dest[j].name != iface
  {
    var path := NamespacePath(destName);
    var h1 := Prepared(host, destName, f);
    var out := Relocate(h1, src, path, iface, addr, route, f);
    assert Migration(host, src, destName, iface, addr, route, f) == out;
    RelocateSuccess(h1, src, path, iface, addr, route, f);
    var dest := out.host[path].links;
    var before := h1[path].links;
    forall j | 0 <= j < |dest| - 1 ensures dest[j].name != iface {
      assert dest[j] == dest[..|dest| - 1][j] == before[j];
    }
  }

  /**
   * A create failure other than "file exists" ends the migration at once,
   * with every namespace as it was.
   */
  lemma CreateFailureChangesNothing(host: Host, src: string, destName: string, iface: string,
                                    addr: Prefix, route: Route, f: Faults)
    requires src in host
    requires f.createError.Some? && !Contains(f.createError.value, FILE_EXISTS)
    ensures var out := Migration(host, src, destName, iface, addr, route, f);
      out == Outcome(host, Some(Create))
  {
  }

  /**
   * When the namespace already exists and nothing is injected, it is reused:
   * no namespace appears or disappears.
   */
  lemma ExistingNamespaceIsReused(host: Host, src: string, destName: string, iface: string,
                                  addr: Prefix, route: Route, f: Faults)
    requires src in host && NamespacePath(destName) in host && f.createError.None?
    ensures var out := Migration(host, src, destName, iface, addr, route, f);
      out.host.Keys == host.Keys && (out.failed.None? || Index(out.failed.value) > Index(Create))
  {
  }

  /**
   * Nothing is undone, and nothing moves before the Move step: a migration
   * that stops at Create, Open, Find or Move leaves every existing namespace
   * as it was, at most adding the new empty destination.
   */
  lemma EarlyFailureLeavesNamespaces(host: Host, src: string, destName: string, iface: string,
                                     addr: Prefix, route: Route, f: Faults)
    requires src in host
    ensures var out := Migration(host, src, destName, iface, addr, route, f);
      out.failed.Some? && Index(out.failed.value) <= Index(Move) ==>
        && out.host.Keys <= host.Keys + {NamespacePath(destName)}
        && (forall p :: p in host ==> p in out.host && out.host[p] == host[p])
        && (NamespacePath(destName) !in host && NamespacePath(destName) in out.host ==>
              out.host[NamespacePath(destName)] == EmptyNamespace(NamespacePath(destName)))
  {
    if !CreateFailed(host, destName, f) {
      var h1 := Prepared(host, destName, f);
      var out := Relocate(h1, src, NamespacePath(destName), iface, addr, route, f);
      assert Migration(host, src, destName, iface, addr, route, f) == out;
      if out.failed.Some? && Index(out.failed.value) <= Index(Move) {
        assert out.host == h1;
      }
    }
  }

  /** Steps 2 to 7 stopping at SetUp: the link is moved and addressed but down. */
  lemma RelocateSetUpFailure(host: Host, src: string, path: string, iface: string,
                             addr: Prefix, route: Route, f: Faults)
    requires src in host
    requires Relocate(host, src, path, iface, addr, route, f).failed == Some(BringUp)
    ensures var h := Relocate(host, src, path, iface, addr, route, f).host;
      && path in host && path in h && h[path].links != []
      && LastLink(h[path]).name == iface
      && LastLink(h[path]).addrs == [addr]
      && !LastLink(h[path]).up
      && h[path].routes == host[path].routes
  {
    var h2 := Moved(host, src, path, iface);
    ConfigureSetUpFailure(h2, path, addr, route, f);
  }

  /**
   * A failing BringUp leaves the link moved and addressed but down, and no
   * route installed: the partial state the migrator does not roll back.
   */
  lemma SetUpFailureLeavesLinkDown(host: Host, src: string, destName: string, iface: string,
                                   addr: Prefix, route: Route, f: Faults)
    requires src in host
    requires Migration(host, src, destName, iface, addr, route, f).failed == Some(BringUp)
    ensures var out := Migration(host, src, destName, iface, addr, route, f);
      var path := NamespacePath(destName);
      var h1 := Prepared(host, destName, f);
      && path in h1 && path in out.host && out.host[path].links != []
      && LastLink(out.host[path]).name == iface
      && LastLink(out.host[path]).addrs == [addr]
      && !LastLink(out.host[path]).up
      && out.host[path].routes == h1[path].routes
  {
    var path := NamespacePath(destName);
    var h1 := Prepared(host, destName, f);
    assert Migration(host, src, destName, iface, addr, route, f)
        == Relocate(h1, src, path, iface, addr, route, f);
    RelocateSetUpFailure(h1, src, path, iface, addr, route, f);
  }

  /** Steps 5 to 7 touch routes only in their last, successful step. */
  lemma ConfigureKeepsRoutesOnFailure(host: Host, path: string, addr: Prefix, route: Route, f: Faults)
    requires path in host && host[path].links != []
    ensures var out := Configure(host, path, addr, route, f);
      out.failed.Some? ==> out.host.Keys == host.Keys && forall p :: p in host ==> out.host[p].routes == host[p].routes
  {
    if !f.addAddrFails {
      var h1 := Addressed(host, path, addr);
      assert forall p :: p in host ==> h1[p].routes == host[p].routes;
      if !f.setUpFails {
        var h2 := BroughtUp(h1, path);
        assert forall p :: p in host ==> h2[p].routes == host[p].routes;
      }
    }
  }

  /**
   * Steps 2 to 7 that stop early install no route: only the source's routes
   * through the moved link are gone, and only once the move has happened.
   */
  lemma RelocateKeepsRoutesOnFailure(host: Host, src: string, path: string, iface: string,
                                     addr: Prefix, route: Route, f: Faults)
    requires src in host
    ensures var out := Relocate(host, src, path, iface, addr, route, f);
      out.failed.Some? ==>
        (out.host.Keys == host.Keys && forall p :: p in host && p != src ==> out.host[p].routes == host[p].routes)
    ensures var out := Relocate(host, src, path, iface, addr, route, f);
      out.failed.Some? ==>
        out.host[src].routes == if Index(out.failed.value) > Index(Move) && src != path
                                then RoutesAvoiding(host[src].routes, iface)
                                else host[src].routes
  {
    var out := Relocate(host, src, path, iface, addr, route, f);
    if f.openFails || path !in host || FindLink(host[src].links, iface).None? {
    } else if f.moveFails || MoveRefused(host, src, path, iface) {
    } else {
      var h := Moved(host, src, path, iface);
      assert out == Configure(h, path, addr, route, f);
      ConfigureKeepsRoutesOnFailure(h, path, addr, route, f);
      assert src in h && h[src].routes == if src != path then RoutesAvoiding(host[src].routes, iface)
                                          else host[src].routes;
    }
  }

  /**
   * The route is installed only when the whole migration succeeds: after a
   * failure, no namespace other than the source has a changed route list, a
   * newly created destination has none, and the source has lost its routes
   * through the link exactly when the move happened.
   */
  lemma RoutesChangeOnlyOnSuccess(host: Host, src: string, destName: string, iface: string,
                                  addr: Prefix, route: Route, f: Faults)
    requires src in host
    ensures var out := Migration(host, src, destName, iface, addr, route, f);
      out.failed.Some? ==>
        forall p :: p in host && p != src ==> p in out.host && out.host[p].routes == host[p].routes
    ensures var out := Migration(host, src, destName, iface, addr, route, f);
      var path := NamespacePath(destName);
      out.failed.Some? && path in out.host && path !in host ==> out.host[path].routes == []
    ensures var out := Migration(host, src, destName, iface, addr, route, f);
      out.failed.Some? ==>
        (src in out.host &&
         out.host[src].routes == if Index(out.failed.value) > Index(Move) && src != NamespacePath(destName)
                                 then RoutesAvoiding(host[src].routes, iface)
                                 else host[src].routes)
  {
    if !CreateFailed(host, destName, f) {
      var h1 := Prepared(host, destName, f);
      assert Migration(host, src, destName, iface, addr, route, f)
          == Relocate(h1, src, NamespacePath(destName), iface, addr, route, f);
      RelocateKeepsRoutesOnFailure(h1, src, NamespacePath(destName), iface, addr, route, f);
    }
  }

  /** Removing the only link called `iface` leaves no link of that name. */
  lemma RemovingOnlyMatch(links: seq<Link>, iface: string)
    requires FindLink(links, iface).Some?
    requires forall i, j :: 0 <= i < j < |links| && links[i].name == iface ==> links[j].name != iface
    ensures var k := LinkIndex(links, iface);
      0 <= k < |links| && FindLink(links[..k] + links[k + 1..], iface).None?
  {
    var k := LinkIndex(links, iface);
    var rest := links[..k] + links[k + 1..];
    forall j | 0 <= j < |rest| ensures rest[j].name != iface {
      if j < k {
        assert rest[j] == links[j];
      } else {
        assert rest[j] == links[j + 1];
      }
    }
  }

  /**
   * With no faults and the destination already present, a migration whose
   * link is missing from the source stops at Find.
   */
  lemma MissingLinkStopsAtFind(host: Host, src: string, destName: string, iface: string,
                               addr: Prefix, route: Route)
    requires src in host && NamespacePath(destName) in host
    requires FindLink(host[src].links, iface).None?
    ensures Migration(host, src, destName, iface, addr, route, Faults(None, false, false, false, false, false)).failed
      == Some(Find)
  {
    var createErr := CreateError(host, destName, None);
    assert createErr.Some? && Contains(createErr.value, FILE_EXISTS);
  }

  /**
   * The migration is not repeatable: once a link has moved out of another
   * namespace that held it once, a second run with no faults stops at Find.
   */
  lemma RerunFailsAtFind(host: Host, src: string, destName: string, iface: string,
                         addr: Prefix, route: Route, f: Faults)
    requires src in host && src != NamespacePath(destName)
    requires f == Faults(None, false, false, false, false, false)
    requires var links := host[src].links;
      forall i, j :: 0 <= i < j < |links| && links[i].name == iface ==> links[j].name != iface
    requires Migration(host, src, destName, iface, addr, route, f).failed.None?
    ensures var out := Migration(host, src, destName, iface, addr, route, f);
      src in out.host && Migration(out.host, src, destName, iface, addr, route, f).failed == Some(Find)
  {
    var out := Migration(host, src, destName, iface, addr, route, f);
    MigrationSucceedsIff(host, src, destName, iface, addr, route, f);
    assert FindLink(host[src].links, iface).Some?;
    MigrationSuccess(host, src, destName, iface, addr, route, f);
    MigrationSuccessTakesLink(host, src, destName, iface, addr, route, f);
    RemovingOnlyMatch(host[src].links, iface);
    MissingLinkStopsAtFind(out.host, src, destName, iface, addr, route);
  }

  class NetHost {
    /** Every namespace, by path. */
    var namespaces: Host
    /** The library calls attempted so far, in order. */
    var calls: seq<Step>
    /** How many steps the last migration completed. */
    var stage: nat

    constructor (initial: Host)
      ensures namespaces == initial && calls == [] && stage == 0
    {
      namespaces := initial;
      calls := [];
      stage := 0;
    }

    /** netops.CreateNamedNamespace: fails when told to, or with "file exists" when the path is taken. */
    method CreateNamedNamespace(name: string, injected: Option<string>) returns (path: string, err: Option<string>)
      modifies this`namespaces, this`calls
      ensures path == NamespacePath(name)
      ensures err == CreateError(old(namespaces), name, injected)
      ensures namespaces == if err.None? then Created(old(namespaces), name) else old(namespaces)
      ensures calls == old(calls) + [Create]
    {
      calls := calls + [Create];
      path := NamespacePath(name);
      err := CreateError(namespaces, name, injected);
      if err.None? {
        namespaces := Created(namespaces, name);
      }
    }

    /** netops.OpenNamespace: fails when told to or when nothing lives at `path`. */
    method OpenNamespace(path: string, fails: bool) returns (ok: bool)
      modifies this`calls
      ensures ok == (!fails && path in namespaces)
      ensures calls == old(calls) + [Open]
    {
      calls := calls + [Open];
      ok := !fails && path in namespaces;
    }

    /** Namespace.LinkFind in the source namespace. */
    method LinkFind(nsPath: string, iface: string) returns (found: bool)
      requires nsPath in namespaces
      modifies this`calls
      ensures found == FindLink(namespaces[nsPath].links, iface).Some?
      ensures calls == old(calls) + [Find]
    {
      calls := calls + [Find];
      found := FindLink(namespaces[nsPath].links, iface).Some?;
    }

    /** Link.SetNamespace */
    method SetNamespace(src: string, dest: string, iface: string, fails: bool) returns (ok: bool)
      requires src in namespaces && dest in namespaces
      requires FindLink(namespaces[src].links, iface).Some?
      modifies this`namespaces, this`calls
      ensures ok == (!fails && !MoveRefused(old(namespaces), src, dest, iface))
      ensures namespaces == if ok then Moved(old(namespaces), src, dest, iface) else old(namespaces)
      ensures calls == old(calls) + [Move]
    {
      calls := calls + [Move];
      ok := !fails && !MoveRefused(namespaces, src, dest, iface);
      if ok {
        namespaces := Moved(namespaces, src, dest, iface);
      }
    }

    /** Link.AddAddr on the moved link. */
    method AddAddr(dest: string, addr: Prefix, fails: bool) returns (ok: bool)
      requires dest in namespaces && namespaces[dest].links != []
      modifies this`namespaces, this`calls
      ensures ok == !fails
      ensures namespaces == if ok then Addressed(old(namespaces), dest, addr) else old(namespaces)
      ensures calls == old(calls) + [Address]
    {
      calls := calls + [Address];
      ok := !fails;
      if ok {
        namespaces := Addressed(namespaces, dest, addr);
      }
    }

    /** Link.SetUp on the moved link. */
    method SetUp(dest: string, fails: bool) returns (ok: bool)
      requires dest in namespaces && namespaces[dest].links != []
      modifies this`namespaces, this`calls
      ensures ok == !fails
      ensures namespaces == if ok then BroughtUp(old(namespaces), dest) else old(namespaces)
      ensures calls == old(calls) + [BringUp]
    {
      calls := calls + [BringUp];
      ok := !fails;
      if ok {
        namespaces := BroughtUp(namespaces, dest);
      }
    }

    /** Namespace.RouteAdd in the destination namespace. */
    method RouteAdd(dest: string, route: Route, fails: bool) returns (ok: bool)
      requires dest in namespaces
      modifies this`namespaces, this`calls
      ensures ok == !fails
      ensures namespaces == if ok then RouteAdded(old(namespaces), dest, route) else old(namespaces)
      ensures calls == old(calls) + [InstallRoute]
    {
      calls := calls + [InstallRoute];
      ok := !fails;
      if ok {
        namespaces := RouteAdded(namespaces, dest, route);
      }
    }

    /**
     * moveInterfaceToNamespace: the seven steps in order; the first failure
     * returns its step and later steps are never attempted, so `calls` grows
     * by exactly the first `Attempted(out)` steps of the order.
     */
    method MoveInterfaceToNamespace(src: string, destName: string, iface: string,
                                    addr: Prefix, route: Route, f: Faults) returns (err: Option<Step>)
      requires src in namespaces
      modifies this
      ensures var out := Migration(old(namespaces), src, destName, iface, addr, route, f);
        namespaces == out.host && stage == Completed(out) && err == out.failed
        && calls == old(calls) + Steps(Attempted(out))
    {
      ghost var calls0 := calls;
      ghost var out := Migration(namespaces, src, destName, iface, addr, route, f);
      stage := 0;
      var path, createErr := CreateNamedNamespace(destName, f.createError);
      if createErr.Some? {
        if Contains(createErr.value, FILE_EXISTS) {
          path := NamespacePath(destName);
        } else {
          TraceExtends(calls0, 0, 0);
          assert calls == calls0 + Steps(1);
          return Some(Create);
        }
      }
      TraceExtends(calls0, 0, 0);
      assert calls == calls0 + Steps(1);
      assert out == Relocate(namespaces, src, path, iface, addr, route, f);
      stage := 1;
      err := RelocateLink(src, path, iface, addr, route, f);
      TraceJoins(calls0, 0, 1, Attempted(out));
    }

    /**
     * Steps 2 to 7 of moveInterfaceToNamespace, once the destination
     * namespace at `path` was created or is being reused.
     */
    method RelocateLink(src: string, path: string, iface: string,
                        addr: Prefix, route: Route, f: Faults) returns (err: Option<Step>)
      requires src in namespaces && stage == 1
      modifies this
      ensures var out := Relocate(old(namespaces), src, path, iface, addr, route, f);
        namespaces == out.host && stage == Completed(out) && err == out.failed
        && calls == old(calls) + StepRange(1, Attempted(out))
    {
      ghost var calls0 := calls;
      ghost var out := Relocate(namespaces, src, path, iface, addr, route, f);
      var isOpen := OpenNamespace(path, f.openFails);
      TraceExtends(calls0, 1, 1);
      assert calls == calls0 + StepRange(1, 2);
      if !isOpen {
        return Some(Open);
      }
      stage := 2;
      var found := LinkFind(src, iface);
      TraceExtends(calls0, 1, 2);
      assert calls == calls0 + StepRange(1, 3);
      if !found {
        return Some(Find);
      }
      stage := 3;
      var moved := SetNamespace(src, path, iface, f.moveFails);
      TraceExtends(calls0, 1, 3);
      assert calls == calls0 + StepRange(1, 4);
      if !moved {
        return Some(Move);
      }
      stage := 4;
      err := ConfigureMovedLink(path, addr, route, f);
      TraceJoins(calls0, 1, 4, Attempted(out));
    }

    /**
     * Steps 5 to 7 of moveInterfaceToNamespace, on the link just moved into
     * `path`: add the address, bring it up, install the route.
     */
    method ConfigureMovedLink(path: string, addr: Prefix, route: Route, f: Faults) returns (err: Option<Step>)
      requires path in namespaces && namespaces[path].links != [] && stage == 4
      modifies this
      ensures var out := Configure(old(namespaces), path, addr, route, f);
        namespaces == out.host && stage == Completed(out) && err == out.failed
        && calls == old(calls) + StepRange(4, Attempted(out))
    {
      ghost var calls0 := calls;
      ghost var out := Configure(namespaces, path, addr, route, f);
      var addressed := AddAddr(path, addr, f.addAddrFails);
      TraceExtends(calls0, 4, 4);
      assert calls == calls0 + StepRange(4, 5);
      if !addressed {
        return Some(Address);
      }
      stage := 5;
      var up := SetUp(path, f.setUpFails);
      TraceExtends(calls0, 4, 5);
      assert calls == calls0 + StepRange(4, 6);
      if !up {
        return Some(BringUp);
      }
      stage := 6;
      var routed := RouteAdd(path, route, f.routeAddFails);
      TraceExtends(calls0, 4, 6);
      assert calls == calls0 + StepRange(4, 7);
      if !routed {
        return Some(InstallRoute);
      }
      stage := 7;
      return None;
    }
  }
}
