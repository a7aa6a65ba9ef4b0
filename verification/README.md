# golang-netops interface classifier and migrator, in Dafny

This project models the decision logic of `utils.go` in golang-netops. That
logic does four things inside a Linux network namespace:

- It finds the **primary** interface, the device of the default route.
- It finds a **secondary** interface, using a two-tier rule:
  - tier A: the interface has its own default route;
  - tier B: the interface's IPv4 prefix has the same length as the primary's, and it borrows the primary's default route.
- It filters out virtual and loopback interfaces by name prefix.
- It **migrates** an interface into a named namespace in seven strictly ordered steps:
  1. create or reuse the namespace;
  2. open it;
  3. find the link;
  4. move the link;
  5. add the address;
  6. bring the link up;
  7. install the route.

  The first failure ends the migration and nothing is rolled back.

The netops library is replaced by an in-memory stand-in:

- A `Namespace` value has links and routes in listing order.
- Each `Link` has its addresses and an up flag.
- Every library failure (LinkList, RouteList, GetAddr, CreateNamedNamespace,
  OpenNamespace, SetNamespace, AddAddr, SetUp, RouteAdd) is an input of the model.
- `netip.Prefix` keeps its Go semantics:
  - `Bits()` is -1 exactly when the prefix is invalid;
  - the zero prefix is invalid;
  - `Addr().Is4()` looks only at the address family.

Modules:

- `NetModel` (`net.dfy`): addresses, prefixes, routes, links, namespaces, errors, and the library's link lookup.
- `Filter` (`filter.dfy`): `isInterfaceFilteredOut`.
- `Primary` (`primary.dfy`): `findPrimaryInterface`, both as written and as intended (see Findings).
- `Details` (`details.dfy`): `getInterfaceDetails`.
- `Secondary` (`secondary.dfy`): `getSecondaryInterfaceDetails`.
- `Migrate` (`migrate.dfy`): `moveInterfaceToNamespace`.
  - The class `NetHost` holds every namespace by path (`namespaces`).
  - It records the library calls attempted, in order (`calls`).
  - It counts the steps the last migration completed (`stage`).

Each loop of the Go code that updates variables is a method with loop
invariants. The early-return loop of `isInterfaceFilteredOut` is the
recursive function `Filter.MatchesAny`. A loop method's postcondition
ties it to a selection function, and lemmas state what that function
promises. The migrator's new state is given by the function `Migration`.
Lemmas about `Migration` state the success, failure and no-rollback
properties.

## Model

| member | source | states |
|---|---|---|
| NetModel.Bits | utils.go:112 | A prefix length is -1 exactly when the prefix is invalid, so a valid prefix never matches an invalid one in tier B |
| NetModel.IsValid | utils.go:96 | A prefix without an address is never valid; a valid prefix has a length between 0 and 128, and at most 32 for an IPv4 address |
| NetModel.IsUsableDefault | utils.go:24 | A usable default route has a valid zero-length destination and a priority below MaxInt; with the IPv4 default destination, only the priority decides; the zero prefix never qualifies |
| NetModel.Is4 | utils.go:52 | An IPv4 prefix has a 32-bit address, so a valid one is at most 32 bits long; the zero prefix is not IPv4 |
| NetModel.FindLink | utils.go:41-44 | LinkFind finds a link exactly when one of that name exists, and the link found carries that name and belongs to the namespace |
| Filter.MatchesAny | utils.go:141-147 | The prefix loop answers true exactly when some entry of the list is a prefix of the name |
| Filter.IsInterfaceFilteredOut | utils.go:135-148 | A name is filtered out exactly when it starts with one of veth, lo, docker, podman, br-, cni, tunl, tun or tap |
| Filter.KeptExamples | utils.go:130-137 | eth0, eth1 and ens3 match no reserved prefix and are kept |
| Filter.DroppedExamples | utils.go:130-137 | lo, tun0, br-x and veth1a2b each match a reserved prefix and are dropped |
| Primary.LastUsableDefault | utils.go:23-26 | The index chosen is a usable default route (zero destination bits, priority below MaxInt), and no usable default route follows it |
| Primary.LastDefaultDevice | utils.go:20-28 | A non-empty device the resolver as written settles on belongs to a usable default route of the list; with no usable default route it is "" |
| Primary.ScanDefaultRoutes | utils.go:20-28 | The loop as written (running minimum never lowered) ends with the device of the last usable default route, or "" |
| Primary.FindPrimaryInterface | utils.go:13-36 | A route-list failure is propagated; otherwise the result is the last usable default route's device, with an error when there is none or its name is empty |
| Primary.PrimaryIsLastUsableDefault | utils.go:15-35 | The resolver yields a name exactly when some usable default route with a non-empty device has no usable default route after it, and then it is that route's device; with no usable default route it yields nothing |
| Primary.LowestUsableDefault | utils.go:20-26 | The intended choice: a usable default route whose priority is no larger than any other's and strictly smaller than every earlier one's; -1 exactly when none is usable |
| Primary.LowestDefaultDevice | utils.go:20-28 | A non-empty device the corrected resolver settles on belongs to a usable default route of the list; with no usable default route it is "" |
| Primary.ScanDefaultRoutesIntended | utils.go:20-28 | The loop with the running minimum updated ends with the device of the lowest-priority usable default route, the first among equals |
| Primary.FindPrimaryInterfaceIntended | utils.go:13-36 | The corrected resolver returns a non-empty device of a usable default route with minimal priority and no earlier route of equal priority; it fails exactly as the original does when no route is usable or listing fails |
| Primary.AsWrittenIgnoresPriority | utils.go:20-26 | With eth0 at priority 100 followed by eth1 at priority 600, the code as written picks eth1 and the intended resolver picks eth0 |
| Primary.ResolversAgreeWhenLastIsLowest | utils.go:20-34 | The two resolvers agree whenever the last usable default route also has strictly the lowest priority, in particular when only one route is usable |
| Details.FirstIPv4Index | utils.go:51-56 | The index found holds an IPv4 prefix and no earlier entry does; -1 when no entry is IPv4 |
| Details.FirstIPv4 | utils.go:51-56 | The address is the first IPv4 entry in address order, skipping IPv6 ones, and is the zero prefix exactly when there is no IPv4 entry |
| Details.ScanAddrs | utils.go:51-56 | The address loop with its break returns exactly that first IPv4 entry |
| Details.OwnRouteIndex | utils.go:63-68 | The index found is a usable default route of the interface and no earlier route is; -1 when there is none |
| Details.OwnDefaultRoute | utils.go:63-68 | The route is the first usable default route whose device is the interface, and None exactly when no route qualifies |
| Details.ScanOwnRoute | utils.go:63-68 | The route loop with its break returns exactly that first own default route |
| Details.InterfaceDetails | utils.go:38-73 | Fails exactly when the link is missing, its address list fails or the route list fails, and in that order of precedence: LinkNotFound first, then AddrListFailed, then RouteListFailed; a returned route belongs to the namespace |
| Details.GetInterfaceDetails | utils.go:38-73 | The method's result, error or details, is the one InterfaceDetails describes |
| Secondary.SynthesizedRoute | utils.go:115-120 | The tier-B route copies the primary route's destination and gateway, names the candidate as device and leaves the priority at zero |
| Secondary.Examine | utils.go:84-124 | A link that is filtered out or is the primary is skipped; otherwise a failure to read its details fails the search, and an invalid address skips it; selecting a link means it is not filtered out and not the primary, and the selection carries its name, a valid prefix and a route |
| Secondary.FirstDecisive | utils.go:83-125 | The index found is the first link the loop does not skip; every link before it is skipped |
| Secondary.Scan | utils.go:83-127 | A non-empty selection has a valid prefix and a route, is neither filtered out nor the primary, and names a listed link; an error is the failure of examining some listed link |
| Secondary.SecondaryInterface | utils.go:75-128 | A link-list failure is propagated; a non-empty selection has a valid prefix and a route, is neither filtered out nor the primary, and names a link of the namespace; any other error comes from examining one of its links |
| Secondary.GetSecondaryInterfaceDetails | utils.go:75-128 | The loop with continue and break returns what SecondaryInterface describes: the verdict of the first link not skipped, or the empty selection |
| Secondary.ScanIsFirstDecisive | utils.go:83-127 | The search's answer is decided by the first link that is not skipped and by nothing else |
| Secondary.SelectionIsEligibleAndFirst | utils.go:84-102 | A non-empty selection is never filtered out and never the primary, has a valid address and a route, and is the first link in listing order that was not skipped |
| Secondary.NothingQualifies | utils.go:125-127 | When every link is skipped, the answer is the empty name, zero prefix and no route, without an error |
| Secondary.LaterLinksIgnored | utils.go:101-122 | Links after the first one not skipped are never examined: appending links changes nothing |
| Secondary.TierA | utils.go:96-102 | The first candidate not skipped that has a valid IPv4 prefix and its own default route is returned with that prefix and route unchanged |
| Secondary.TierB | utils.go:104-123 | The first candidate not skipped that has a valid prefix, no own route and the primary's prefix length is selected with the synthesized route, whatever the network bits |
| Secondary.TierBNeedsSameLength | utils.go:106-124 | A candidate without its own route is passed over when its prefix length differs from the primary's, and always when the primary has no valid IPv4 prefix |
| Secondary.PrimaryWithRouteNeverNil | utils.go:108-120 | When the primary owns a usable default route, examining a link never ends in the nil route dereference of tier B |
| Secondary.SearchNeverNil | utils.go:83-125 | For such a primary, the whole search never ends in the nil route dereference |
| Secondary.NoNilRouteWithResolvedPrimary | utils.go:108-120 | A primary name produced by either resolver on the same namespace (as written or corrected) never leads to the nil route dereference |
| Migrate.NamespacePath | utils.go:159 | The reused path is /run/netns/ followed by the namespace name |
| Migrate.Contains | utils.go:158 | A text that starts with the searched text contains it, and a contained text is never longer than the text that contains it |
| Migrate.CreateFailed | utils.go:157-162 | The migration stops at Create exactly when an injected creation error does not contain "file exists"; a taken path alone never stops it |
| Migrate.CreateError | utils.go:155-158 | With no injected failure, creating over an existing path fails with an error containing "file exists", and creating a fresh path succeeds |
| Migrate.Created | utils.go:155 | Creation adds exactly the new empty namespace and leaves every other one as it was |
| Migrate.RoutesAvoiding | utils.go:177 | The routes kept are exactly those through another device, no more than before, and all of them when none goes through the moved link |
| Migrate.MoveRefused | utils.go:177 | SetNamespace is refused exactly when the destination is another namespace that already holds a link of that name |
| Migrate.Moved | utils.go:177-181 | The move keeps the set of namespaces, appends a link of that name, down and without addresses, to the destination and touches no other namespace; between two namespaces, the source loses exactly its first link of that name and every route through it, and the destination keeps its earlier links and its routes |
| Migrate.Addressed | utils.go:183-187 | AddAddr appends the address to the moved link and changes nothing else |
| Migrate.BroughtUp | utils.go:189-193 | SetUp marks the moved link up and changes nothing else |
| Migrate.RouteAdded | utils.go:195-199 | RouteAdd appends the route to the destination's routes and changes nothing else |
| Migrate.Configure | utils.go:182-200 | Steps 5 to 7 keep the set of namespaces; a failure is reported at Address or later, and a failed Address changes nothing |
| Migrate.Relocate | utils.go:165-200 | Steps 2 to 7 keep the set of namespaces; a failure is reported at Open or later, and one at Open, Find or Move changes nothing |
| Migrate.Prepared | utils.go:155-163 | After step 1 every existing namespace is as it was, and at most the destination is added, as a new empty namespace; when creation succeeded the destination exists |
| Migrate.Migration | utils.go:153-201 | The migration adds at most the destination to the set of namespaces, and a failure at Create changes nothing |
| Migrate.ConfigureSuccess | utils.go:182-200 | When steps 5 to 7 succeed, the moved link gains the address and is up, the route is appended to the destination's routes, and every other link and namespace is unchanged |
| Migrate.ConfigureSetUpFailure | utils.go:188-192 | When SetUp fails, the moved link has gained the address but is not changed otherwise, and no route is added |
| Migrate.RelocateSuccess | utils.go:165-200 | When steps 2 to 7 succeed, the destination existed and its last link is iface, up, with only the address, and its routes gained the route; between two namespaces, the source lost the link and its routes through it, the destination held no link of that name and keeps its earlier links |
| Migrate.Completed | utils.go:155-200 | The number of completed steps is seven exactly on success, and otherwise the failing step is the one right after them |
| Migrate.MigrationSucceedsIff | utils.go:155-200 | The migration succeeds exactly when the namespace is created or reused, it opens, the link exists in the source, a different destination holds no link of that name, and none of move, address, up or route fails |
| Migrate.MigrationSuccess | utils.go:177-200 | After success the destination's last link is named iface, is up and carries only the address; the route is the destination's newest route; exactly the destination is added to the namespaces |
| Migrate.MigrationSuccessTakesLink | utils.go:171-181 | After a successful migration out of another namespace, the source has lost exactly its first link of that name and every route through it |
| Migrate.MigrationSuccessKeepsNamesUnique | utils.go:177-181 | After a successful migration out of another namespace, the moved link is the destination's only link of that name |
| Migrate.CreateFailureChangesNothing | utils.go:157-162 | A create error without "file exists" ends the migration at Create with every namespace as it was |
| Migrate.ExistingNamespaceIsReused | utils.go:157-159 | An existing destination is reused: no namespace appears or disappears, and the migration does not stop at Create |
| Migrate.EarlyFailureLeavesNamespaces | utils.go:155-181 | A migration stopped at Create, Open, Find or Move leaves every existing namespace as it was, adding at most the new empty destination |
| Migrate.RelocateSetUpFailure | utils.go:177-192 | When steps 2 to 7 stop at SetUp, the destination existed, its last link is iface with only the address and down, and its routes are unchanged |
| Migrate.SetUpFailureLeavesLinkDown | utils.go:183-193 | A failing SetUp leaves the link moved and addressed but down, with no route installed; nothing is rolled back |
| Migrate.ConfigureKeepsRoutesOnFailure | utils.go:183-198 | Address, up and route steps that stop early change no route list |
| Migrate.RelocateKeepsRoutesOnFailure | utils.go:165-198 | Steps 2 to 7 that stop early install no route: every namespace but the source keeps its route list, and the source loses its routes through the link exactly when the move happened before the failure |
| Migrate.RoutesChangeOnlyOnSuccess | utils.go:155-200 | After any failed migration, every namespace but the source keeps its route list, a newly created destination has no route, and the source has lost its routes through the link exactly when the failure came after the move |
| Migrate.RemovingOnlyMatch | utils.go:171-181 | Moving the only link of that name out of the source leaves the source without it |
| Migrate.MissingLinkStopsAtFind | utils.go:171-174 | With no faults and an existing destination, a link missing from the source stops the migration at Find |
| Migrate.RerunFailsAtFind | utils.go:155-181 | The migration is not repeatable: after a success, a second run with the same arguments stops at Find |
| Migrate.NetHost.CreateNamedNamespace | utils.go:155 | Records the Create call, returns the /run/netns path and the creation error, and adds the namespace only when creation succeeds |
| Migrate.NetHost.OpenNamespace | utils.go:165 | Records the Open call and succeeds exactly when not told to fail and something exists at the path |
| Migrate.NetHost.LinkFind | utils.go:171 | Records the Find call and succeeds exactly when the source holds a link of that name |
| Migrate.NetHost.SetNamespace | utils.go:177 | Records the Move call; fails when told to, or when a different destination already holds a link of that name; on success moves the link as Moved describes |
| Migrate.NetHost.AddAddr | utils.go:183 | Records the Address call, and on success adds the address as Addressed describes |
| Migrate.NetHost.SetUp | utils.go:189 | Records the BringUp call, and on success brings the link up as BroughtUp describes |
| Migrate.NetHost.RouteAdd | utils.go:195 | Records the InstallRoute call, and on success installs the route as RouteAdded describes |
| Migrate.NetHost.MoveInterfaceToNamespace | utils.go:153-201 | The new namespaces are Migration's; stage counts the completed steps; the error names the failing step; the recorded calls grow by exactly the completed steps plus the failing one, in order, so no later step is attempted |
| Migrate.NetHost.RelocateLink | utils.go:165-200 | Steps 2 to 7 as Relocate describes, recording exactly the steps attempted |
| Migrate.NetHost.ConfigureMovedLink | utils.go:183-200 | Steps 5 to 7 as Configure describes, recording exactly the steps attempted |

## Left out

- `main.go` is not part of this model. It holds process glue: opening the
  current namespace, printing, `log.Fatalf` aborts, the fixed `"podns"` name,
  and deferred delete and close. main.go:62-63 is the only place where an
  empty secondary selection becomes fatal.
- Logging (`fmt.Printf`) and the wording and wrapping of error messages.
  Errors are tags: one per library call in the resolvers, and the failing
  step in the migrator.
- The netops library itself: real namespace creation, netlink, and address
  and route system calls. Its failures are inputs. Its observable effects
  are given by `Created`, `Moved`, `Addressed`, `BroughtUp` and `RouteAdded`.
  - A moved link arrives down and without addresses, and the source loses
    every route whose device is that link, as Linux treats a link that changes
    network namespace. Routes are matched by device name.
  - `AddAddr` and `SetUp` act on the moved link, which is the destination's last link.
  - A move into a different namespace that already holds a link of the same
    name is refused, so the migration stops at Move, as the kernel refuses a
    duplicate name.
- Migrate.Moved: a move into the namespace the link is already in is modelled
  as taking the link out and appending it again, down and without addresses;
  Linux treats that move as doing nothing.
- Failures are persistent per namespace and per link, not per call. A
  namespace's `routeListFails` makes every `RouteList` on it fail, and a
  link's `addrsFail` makes every `GetAddr` on it fail. So the model cannot
  express a run where one call succeeds and a later identical call fails;
  for example, a route-list failure always surfaces at the first link that
  is neither filtered out nor the primary.
- The destination filter passed to `RouteList`. A namespace's `routes` stand
  for what `RouteList(&Route{Destination: DefaultPrefix})` returns, and both
  resolvers apply their own zero-bits test to every route listed.
- IPv6 default routes. The zero-bits test accepts `::/0` as readily as
  `0.0.0.0/0`; whether the library lists IPv6 default routes for an IPv4
  destination filter is not modelled.
- `netip` parsing and address arithmetic. Addresses are opaque numbers with a
  family; prefixes are an address and a length.
- `filepath.Join` cleaning. The reused path is `/run/netns/` plus the name,
  which is the same for non-empty names without slashes or dots.
- Route fields other than destination, gateway, device and priority. A
  synthesized route leaves all of them at zero in the source as well.
- MoveInterfaceToNamespace: a nil `route` argument is not modelled; the
  route is always a value. The migrator is split into three methods (all
  steps; steps 2 to 7; steps 5 to 7) so each proof stays small.
- Concurrent changes to namespaces by other processes between
  classification and migration are not modelled.
- The tier B fallback compares prefix lengths, not network bits, as the code does.
  The comment at utils.go:93-95 speaks of "the same subnet". `Secondary.TierB`
  states the code's behaviour.

## Findings

| source | as written | input that shows it | evidently intended | confidence | as-written member | corrected member |
|---|---|---|---|---|---|---|
| utils.go:20-26 | `priority` starts at math.MaxInt and is never assigned, so every usable default route overwrites `dev` and the last one wins | routes eth0 (priority 100) then eth1 (priority 600): the code returns eth1 | the lowest-priority usable default route, the first among equals, as the running-minimum comparison `r.Priority < priority` at utils.go:24 suggests (the comment at utils.go:34 speaks of the first such device instead) | high, not executed | Primary.AsWrittenIgnoresPriority | Primary.FindPrimaryInterfaceIntended |
