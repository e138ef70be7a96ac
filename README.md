# nextbone-routing, modelled in Dafny

nextbone-routing connects a URL router to web components. A transition, given by the matcher as a list of route
segments, passes through the router's middleware. The middleware works in this order:

1. It fires `before:transition`.
2. It computes the *changing index*: the first segment whose name or params differ from the previous transition.
3. It runs the `deactivate` hooks of the cached route controllers that are left, leaf first.
4. It builds the controller list. Each cached controller is reused. Each new one is resolved from `options.class`, the
   nearest ancestor's `childRoutes` declaration, a lazy class, or a `component` option. New controllers are cached.
5. It runs the `activate` hooks from the changing index on.
6. It runs the `load` chain.
7. It clears stale elements.
8. It renders each route's element into the outlet of the nearest ancestor that has one, or into the root outlet.

`done`, `cancel` and `error` fire the closing events. There is one router at a time, and `destroy` empties the
controller cache.

The repository has two routers, and the model covers both through `Lifecycle.Variant`:

- `Nextbone` models `src/router.js`.
- `Cherrytree` models its older copy, `src/cherrytree-adapter.js`. It differs in three ways:
  - a hook that returns `false` does not cancel;
  - new controllers get no `$parent`;
  - every deactivated controller loses its element.

The adapter also adds `use(middleware, {before})` and `getMnRoutes`.

Route controllers (`src/route.js`) create, prepare and mount their element and find their outlet. Context lookup
(`src/routecontext.js`) walks up the controller chain to the nearest provider. Router links (`src/routerlink.js`) do
several things:

- they compute `href` from `param-`/`query-` attributes and per-route defaults;
- they refresh `href` on mutations;
- they toggle an active class on every transition;
- they turn clicks into transitions.

Modules:

- `Wrappers` (wrappers.dfy): `Option` and `Result`.
- `Dom` (dom.dfy): elements and regions. An element carries, as data, the set of selectors that match an outlet
  inside it. It also records its `updateComplete`: none, a promise that fulfils, or one that rejects.
- `Route` (route.dfy): the declared values (route options, component definitions, route classes) and the
  `RouteInstance` controller class.
- `RouteContext` (routecontext.dfy): `findContext`.
- `Lifecycle` (lifecycle.dfy): the middleware's decisions as functions of the route lists and the controller cache. It
  also holds the lemmas about those functions.
- `RouterEngine` (router.dfy): the `Router` class.
  - Its `log` field records, in order, every event fired, hook called, `load` called and `renderEl` result.
  - Its middleware methods are proved against the `Lifecycle` functions.
  - It also holds `Registry`, the module-level singleton.
- `RouterLink` (routerlink.dfy): the link decisions, over a `LinkElement` class that holds attributes and classes.

Promise chains are modelled as the sequence of steps they run. The model follows the chains' own `then`/`catch`
structure:

- A step attached as `prev.then(f).catch(f)` calls `f` once when `prev` rejected, since only the `catch` runs.
- It calls `f` twice when `prev` fulfilled and the first call of `f` failed, since the `catch` calls it again.
- When `renderElements` throws on its first call behind the load promise, it is called again.
- When both calls fail, the transition never settles. The model calls this outcome `Stalled`.

Code and documentation disagree in two places, and the model follows the code:

- **`$parent`.** The documentation says every controller is linked to its parent. router.js sets `$parent` only on a
  controller it has just created (src/router.js:235), so a cached controller keeps the parent it had.
- **`createElement` with an element instance.** The documentation says `createElement` also accepts an existing
  element instance. The code returns `undefined` for anything that is neither a function nor a string
  (src/route.js:9-18). `renderEl` then reports an invalid component.

## Model

| member | source | states |
|---|---|---|
| Route.CreateElement | src/route.js:9-18 | an element is created exactly when the definition, after every factory call, is a class or a tag; a class is constructed and a tag is created, with that definition's outlets |
| Route.CreateElementThroughFactories | src/route.js:14-15 | any number of factory wrappers around a definition create the same element as the definition itself |
| Route.ElementFor | src/route.js:58-60 | with no component, no element is created; an element implies a component that is not opaque |
| Route.RouteInstance.constructor | src/route.js:28-36 | the controller keeps its name, path, options, class and router; the route's `component` option overrides the prototype's; no element and no parent at first; class fields are copied |
| Route.RouteInstance.PrepareEl | src/route.js:50-53 | the route's `properties` are assigned onto the element, overriding what it had |
| Route.RouteInstance.RenderEl | src/route.js:55-71 | with `updateEl` and an element, the element is kept and nothing is shown; otherwise an invalid component or a missing region is an error and leaves `el` unchanged; otherwise a fresh element of the component, with the route's properties, is shown in the region and becomes `el` |
| Route.RouteInstance.GetOutlet | src/route.js:87-99 | the cached region of the element if any; else a fresh empty region on the node of the class's `outletSelector`, or of `router-outlet` when the class sets none, cached; else none, and nothing is cached |
| Route.RouteInstance.GetOutletTwice | src/route.js:87-99 | two calls return the same region, which is null exactly when none was cached and the selector matches nothing |
| RouteContext.ProvidedValue | src/routecontext.js:7 | a definition with a property reads that field of the provider, else yields its fixed value |
| RouteContext.FindContext | src/routecontext.js:1-11 | the result is the context value of the nearest ancestor, starting from the parent, whose class provides the key |
| RouteContext.NearestProviderWins | src/routecontext.js:3-9 | a provider with no provider before it in the chain determines the result |
| RouteContext.NoProviderIsUndefined | src/routecontext.js:3-11 | a chain without a provider of the key yields undefined |
| Lifecycle.ChangingIndex | src/router.js:55-66 | segments before the index match in name and params; at the index one list ended or the segments differ |
| Lifecycle.ChangingIndexIsFirstMismatch | src/router.js:58-64 | a position before which all segments match, and which is a mismatch or an end, is the changing index |
| Lifecycle.DeactivatedEntries | src/router.js:209-214 | each entry of the deactivation list is the cached controller of a previous segment at or after the changing index |
| Lifecycle.DeactivatedAreCached | src/router.js:210-212 | every deactivated controller is in the cache |
| Lifecycle.DeactivatedLeafFirst | src/router.js:209 | the positions of the deactivated segments strictly decrease: leaf first |
| Lifecycle.DeactivatedCovers | src/router.js:209-214 | every cached previous segment at or after the changing index is deactivated |
| Lifecycle.PrefixNotDeactivated | src/router.js:209 | with distinct segment names and a cache keyed by name, no controller of a segment before the changing index is deactivated |
| Lifecycle.NearestDeclaring | src/router.js:72-79 | the nearest ancestor class whose `childRoutes` declares the route, or none |
| Lifecycle.FindRouteClass | src/router.js:68-82 | the route's own `class` option when given, else the nearest ancestor's declaration |
| Lifecycle.ResolveRoute | src/router.js:100-110 | a controller is created for a direct or a resolved lazy class; a rejection or an empty result is an error |
| Lifecycle.BeforeEvents | src/router.js:169-170 | one `before:<hook>` event per controller, in order, fired before any hook runs |
| Lifecycle.RunHooks | src/router.js:171-182 | never more hooks run than the list holds |
| Lifecycle.RunHooksShape | src/router.js:171-182 | the hooks run are a prefix of the list; the chain stops early only when cancelled or failed; no hook before the last one run cancels or throws; a failure is the last hook run throwing, with its error; an already cancelled transition runs none |
| Lifecycle.HookTraceEvent | src/router.js:173-179 | a hook's call comes first, and its `<method>` event follows exactly when it neither threw nor cancelled |
| Lifecycle.RunHooksTrace | src/router.js:171-182 | the chain's trace is the traces of the hooks that ran, in list order |
| Lifecycle.RunHooksEvents | src/router.js:174-179 | every hook that ran and neither threw nor cancelled is followed by its `<method>` event; when the last hook run threw or cancelled, its call ends the trace |
| Lifecycle.ListenerCancelStops | src/router.js:172-179 | a listener cancelling on the `<method>` event of a hook that ran makes it the last hook run, and unless it threw the chain ends cancelled |
| Lifecycle.AsyncMethodWhenCancelled | src/router.js:169-172 | on a transition already cancelled, the `before:` events still fire and no hook runs |
| Lifecycle.HookCallsInOrder | src/router.js:169-183 | the hooks called are exactly those of the first controllers that ran, each once, in list order |
| Lifecycle.FalseDoesNotCancelInAdapter | src/cherrytree-adapter.js:183-196 | in the adapter, when every hook proceeds or returns `false` and no listener cancels, every hook runs and the transition is not cancelled |
| Lifecycle.FalseCancelsInRouter | src/router.js:174-176 | in router.js no hook after the first one that returns `false` runs, and the transition ends cancelled unless a hook threw |
| Lifecycle.LoadChainShape | src/router.js:256-269 | every recorded load call is a loader of the list before the bound; a synchronous throw of the first loader is the single call and the chain's failure |
| Lifecycle.LoadCallsValid | src/router.js:257-267 | every load call is at a position before the bound whose controller has `load` |
| Lifecycle.LoadFailureAlone | src/router.js:265 | a failure can only be the first loader throwing, which is then the only call |
| Lifecycle.LoadChainNext | src/router.js:256-269 | one step of the chain: a controller without `load` leaves it unchanged; the first loader starts it; a later loader adds its calls and its settlement |
| Lifecycle.LoadCallsInOrder | src/router.js:256-269 | load calls are in ascending order of position |
| Lifecycle.StepCalls | src/router.js:257-266 | a loader is called only at its own position, once or twice, and twice exactly when the chain before it fulfilled and this loader failed |
| Lifecycle.LoadCoverage | src/router.js:256-269 | without a failure, every controller with `load` is called |
| Lifecycle.LoadUnstarted | src/router.js:256-269 | the chain is unstarted with no failure exactly when no controller so far has `load` |
| Lifecycle.LoadFailureIsFirstLoader | src/router.js:265 | a failing chain failed at a position before which no controller has `load` |
| Lifecycle.LoadRetryPolicy | src/router.js:257-266 | without a failure, each loader is called as often as StepCalls says for the chain state before it |
| Lifecycle.LastLoadCount | src/router.js:256-269 | the last controller, when it has `load`, is called as often as the retry policy says |
| Lifecycle.LaterLoadsKeepCount | src/router.js:256-269 | a controller added at the end does not change how often an earlier one is called |
| Lifecycle.RejectingLoaderRunsTwice | src/router.js:259-263 | a resolving loader followed by a rejecting one gives the calls 0, 1, 1 and a rejected chain |
| Lifecycle.LoadChainStops | src/router.js:265 | after the first loader threw, the rest of the list adds nothing |
| Lifecycle.WithComponent | src/router.js:140 | it keeps only candidates that have a component |
| Lifecycle.RenderQueueContents | src/router.js:139-147 | the queue is the candidates with a component, in order, minus every one but the last whose route has `outlet: false` |
| Lifecycle.RenderQueueEndsWithLastComponent | src/router.js:139-147 | the queue ends with the last candidate that has a component |
| Lifecycle.RenderCandidates | src/router.js:137-147 | with activated controllers the queue is theirs; with none, only the target is rendered, and only when it has a component |
| Lifecycle.RenderQueueFromCandidates | src/router.js:139-147 | every queued controller is a candidate |
| Lifecycle.StepStatus | src/router.js:149-165 | once the chain holds a promise, no step makes it synchronous again; the chain is left without a promise exactly when a synchronous step rendered and returned no `updateComplete`; otherwise its promise fulfils exactly when the last try rendered and its `updateComplete` did not reject |
| Lifecycle.ChainStaysAsync | src/router.js:151-160 | once the chain holds a promise, every later step is behind one |
| Lifecycle.NoEscapeAfterPending | src/router.js:151-160 | once the chain holds a promise, no later step lets an error escape `renderElements` |
| Lifecycle.IndexOf | src/router.js:187 | `indexOf`, on controllers and on the middleware list: the first position of the value, or -1 when it is absent |
| Lifecycle.IsActivatingMeansListed | src/router.js:186-188 | `isActivating` holds exactly for controllers in the activating list |
| Lifecycle.EveryRouteIsTargetOfEmptyList | src/router.js:190-192 | with an empty instance list, every controller is reported as the target |
| Lifecycle.IsTargetIntendedMeansLast | src/router.js:190-192 | the corrected `isTarget` holds exactly for the last controller of the list when it appears only there, and for none of an empty list |
| Lifecycle.IsTargetAgreesWhenListed | src/router.js:190-192 | on a non-empty list the code and the correction agree |
| RouterEngine.UseMiddleware | src/cherrytree-adapter.js:45-53 | one entry is added and nothing lost; it is appended, or with `before` inserted right before the router's middleware |
| RouterEngine.ParentWithOutlet | src/router.js:114-129 | the nearest ancestor at or above a position that has an element and a route without `outlet: false`, or -1 |
| RouterEngine.Router.constructor | src/router.js:21-43 | a new router starts with an empty cache and log and an empty state; router.js installs the link middleware after its own |
| RouterEngine.Router.Trigger | src/router.js:199-201 | the event is logged; a listener for it cancels the transition |
| RouterEngine.Router.Emit | src/router.js:300 | the event is logged |
| RouterEngine.Router.GetChangingIndex | src/router.js:55-66 | the loop computes ChangingIndex |
| RouterEngine.Router.CollectDeactivated | src/router.js:205-214 | the loop computes the deactivation list from the cache |
| RouterEngine.Router.RunAsyncMethod | src/router.js:168-184 | the log gains the `before:` events, then the hook trace; cancellation and failure are those of the hook chain |
| RouterEngine.Router.DeactivatePhase | src/router.js:216-219 | the `before:deactivate` events, then the deactivate hooks, as AsyncMethod says; the hooks run with the instance list already set to `[]` |
| RouterEngine.Router.TriggerBefore | src/router.js:169-170 | one `before:<hook>` event per controller is logged, and any of them may cancel |
| RouterEngine.Router.RunHookChain | src/router.js:171-183 | log, cancellation and failure are exactly RunHooks' |
| RouterEngine.Router.RunHook | src/router.js:173-179 | the hook is called; a throw fails; `false` (router.js) or a cancel call cancels; otherwise the hook's event fires |
| RouterEngine.Router.ResolveInstance | src/router.js:229-237 | ResolveRoute decides; a created controller is fresh, of the resolved class, and `$parent` is the previous instance in router.js only |
| RouterEngine.Router.BuildStep | src/router.js:224-238 | a cached controller is reused; a new one is created and cached; an error leaves the cache |
| RouterEngine.Router.BuildInstances | src/router.js:219-242 | the instance list is each route's cached or newly created controller, in order, and the cache maps every name to it; the build stops at the first route that resolves no class, with its error |
| RouterEngine.Router.RunLoads | src/router.js:256-269 | the loads are called as LoadChain says, and only the first loader's synchronous throw fails |
| RouterEngine.Router.LoadOne | src/router.js:257-267 | one controller of the load chain advances status and log as LoadChain's next step |
| RouterEngine.Router.Resolve | src/router.js:195-291 | a transition cancelled by `before:transition` stops with only that event; a failing deactivate hook fails it with that error; one that completes or stalls had neither its deactivate nor its activate chain fail or end cancelled, built every controller, cached them, and activates from the changing index |
| RouterEngine.Router.Prepare | src/router.js:199-250 | the log is `before:transition`, the deactivate chain, then (after a complete build) the activate chain, which starts cancelled when deactivation ended cancelled; a deactivate failure, a failed build or an activate failure ends the transition with that error; a cancel during either chain ends it cancelled |
| RouterEngine.Router.LoadAndRender | src/router.js:253-290 | over the transition's instances, what Finish states: a load throw fails the transition with the log holding only the load calls; otherwise one or two `renderElements` calls, the last of which decides between completed, failed and stalled; never cancelled, and the log only grows |
| RouterEngine.Router.BuildAndActivate | src/router.js:219-250 | a failed build logs nothing more; otherwise the activating list is set and its hook chain decides failure, cancellation or going on |
| RouterEngine.Router.Done | src/router.js:293-301 | the state takes the instance list; in router.js every element gets the state as `$route`; the adapter leaves elements alone; then the `transition` event |
| RouterEngine.Router.Cancel | src/router.js:303-307 | `transition:abort` unless the transition was redirected |
| RouterEngine.Router.Error | src/router.js:309-312 | `transition:abort` then `transition:error` |
| RouterEngine.Router.Use | src/cherrytree-adapter.js:45-53 | the middleware list becomes UseMiddleware of it, and the router is returned for chaining |
| RouterEngine.Router.Finish | src/router.js:253-290 | the loads are called as LoadChain says; a load throw fails the transition without rendering; otherwise `renderElements` runs once, or twice exactly when the load chain fulfilled and the first call threw; the transition completes when the last call did not throw, fails with its error when there was no load chain, and stalls when both calls of the load catch paths threw |
| RouterEngine.Router.RenderAfterLoads | src/router.js:271-289 | `renderElements` runs once, or twice exactly when the load chain fulfilled and the first call threw; each call is a render chain over the render queue whose escaped error is that call's result, and the log grows by the render entries of the calls in order |
| RouterEngine.Router.ClearStaleEls | src/router.js:271-275 | deactivated controllers lose their element, except in router.js those activated again |
| RouterEngine.Router.GetParentRegion | src/router.js:112-131 | the outlet of the nearest ancestor with an element, created and cached if needed, or an error when it has none, or the root outlet; ancestors passed lose their element and nothing else changes |
| RouterEngine.Router.ParentOutlet | src/router.js:117-123 | the ancestor element's cached or new outlet region; an error when its element has no outlet |
| RouterEngine.Router.ClimbToParent | src/router.js:114-129 | the walk stops at ParentWithOutlet; every controller passed loses its element, and no other changes |
| RouterEngine.Router.RenderStep | src/router.js:153-155 | one logged try; a parent element without its outlet fails it; otherwise `renderEl` runs in the parent's outlet, or in the root outlet when no ancestor has an element: a kept element, an invalid-component error, a missing-root-outlet error, or a fresh element of the component shown in that region; a rendered try returns the element's `updateComplete`, a failed one nothing |
| RouterEngine.Router.Mount | src/router.js:154 | `renderEl`'s four outcomes: the element kept when `updateEl` says so, an invalid-component error, a missing-root-outlet error without a region, or a fresh element of the component, with the route's properties, shown in the region |
| RouterEngine.Router.BuildQueue | src/router.js:139-147 | the loop computes RenderQueue |
| RouterEngine.Router.RenderElements | src/router.js:135-166 | the queue of the candidates is walked as RenderChain says; an error escapes exactly when the last step run was synchronous and its try failed, with that error |
| RouterEngine.Router.RenderChain | src/router.js:149-165 | the log holds each queued route's tries in order; each step runs once, or twice when the chain before it fulfilled and its first try did not succeed (`renderEl` threw or its `updateComplete` rejected), and moves the chain as StepStatus says; every route is stepped unless an error escapes, which ends the walk |
| RouterEngine.Router.RenderAttempts | src/router.js:151-164 | a route is tried once, or twice exactly when the chain before it fulfilled and the first try did not succeed (`renderEl` threw or its `updateComplete` rejected), each try logged |
| RouterEngine.MnRoutesAfterBuild | src/cherrytree-adapter.js:64-68 | after a complete build, `getMnRoutes` returns the instance list |
| RouterEngine.DefaultOutlet | src/router.js:29 | router.js defaults the outlet to `app-root`; the adapter has no root outlet by default |
| RouterEngine.OutletErrors | src/router.js:30-41 | the outlet option is invalid exactly when it is a non-empty selector that matches nothing, or neither element, region nor string |
| RouterEngine.Registry.constructor | src/router.js:19 | no router exists at first |
| RouterEngine.Registry.CreateRouter | src/router.js:21-43 | a second router is refused; an invalid outlet is refused before registration; otherwise a fresh router with the chosen root outlet is the singleton |
| RouterEngine.Registry.Destroy | src/router.js:45-50 | the listeners are removed, the singleton is cleared and the controller cache is emptied |
| RouterLink.GetAttributeValues | src/routerlink.js:27-38 | the loop computes AttributeValues starting from the defaults |
| RouterLink.AttributeValuesKeys | src/routerlink.js:30-36 | a key is in the result exactly when it is a default or some prefixed attribute's name after the prefix |
| RouterLink.AttributeValuesLastWins | src/routerlink.js:30-36 | the last prefixed attribute for a key gives its value |
| RouterLink.AttributeValuesSeedKept | src/routerlink.js:27-38 | a default no attribute overrides keeps its value |
| RouterLink.AttributeValuesIgnoresOthers | src/routerlink.js:32 | an attribute without the prefix changes nothing |
| RouterLink.AttributeValuesSetOther | src/routerlink.js:57 | setting an attribute outside the prefix (such as `href`) leaves the values unchanged |
| RouterLink.GetDefaultsMissing | src/routerlink.js:40-48 | no defaults, a defaults function that returns nothing, or no entry for the route or the property give an empty object |
| RouterLink.GetDefaultsGetters | src/routerlink.js:43-46 | a defaults getter is equivalent to its result, and a value getter to its value |
| RouterLink.IndexOfName | src/routerlink.js:51 | the position of the first attribute of that name, or the end |
| RouterLink.GetAttribute | src/routerlink.js:51 | a value exactly when an attribute of that name exists |
| RouterLink.SetAttr | src/routerlink.js:57 | afterwards the attribute has the value and every other attribute reads as before |
| RouterLink.LinkElement.SetAttribute | src/routerlink.js:57 | the attribute list becomes SetAttr of it |
| RouterLink.UpdateHref | src/routerlink.js:50-58 | without a route name nothing changes; otherwise the anchor's `href` becomes the generated URL of the route and the element's params and query; without an anchor nothing changes |
| RouterLink.UpdateHrefSetsHref | src/routerlink.js:50-58 | the anchor's `href` reads as the generated URL and its other attributes as before |
| RouterLink.AddedTargetsExactly | src/routerlink.js:16-20 | an added node is refreshed exactly when it is an element with a route property or a route attribute |
| RouterLink.MutationTargetsSnoc | src/routerlink.js:8-23 | an attribute mutation refreshes its target exactly for `param-` and `query-` attributes; a child-list mutation refreshes its added routes |
| RouterLink.ActiveClass | src/routerlink.js:77-78 | `active` when the attribute is absent, its value otherwise; none exactly when it is empty |
| RouterLink.ActiveClassesOnlyActive | src/routerlink.js:77-81 | only the active class may change, and it is present exactly when the route is active |
| RouterLink.ActiveClassesIdempotent | src/routerlink.js:80 | visiting a link twice leaves the same classes as visiting it once |
| RouterLink.ToggleActive | src/routerlink.js:73-81 | the element's classes become ActiveClasses of them |
| RouterLink.TransitionHandler | src/routerlink.js:68-85 | every route element's classes become ActiveClasses of its old classes under the defaults its own `getDefaults` calls see, so links of one route may get different defaults; also for repeated elements |
| RouterLink.LinkClick | src/routerlink.js:87-95 | a transition is requested exactly for an element with no anchor and a route name, with the element's params and query |
| RouterLink.ClickFollowsHref | src/routerlink.js:87-95 | for an anchor link, the requested transition is the one whose URL `updateHref` wrote into `href` |

## Left out

- The DOM itself is not modelled:
  - an element's outlets are given as a set of selectors, not found with `querySelector`;
  - the page's nodes are a map from selector to node;
  - a region's `show` only records the element shown;
  - `anchors` stands for `querySelector('a')` / `querySelectorAll('a')`.
- Promise timing is not modelled. Each promise chain is its sequence of steps, and a step's promise is reduced to
  whether it fulfils, rejects or throws. An element's `updateComplete` is none, fulfils or rejects; one that never
  settles is not modelled.
- The matcher and history come from the underlying router libraries, which are not part of this model. The transition's
  route lists are inputs, `router.generate` and `router.isActive` are function parameters, and `transitionTo` is the
  returned `TransitionRequest`.
- Params are compared with `==` on maps, where the source uses underscore's `isEqual`.
- Event listeners are a set of events that cancel the transition.
- The channel events (nextbone-radio), `_bindContext`, `getContext` and the `initialize` call are left out.
- The `$router` reference is a field of the controller.
- `createLinks`, `createClass`, the `routerLinks` decorator, the `MutationObserver`, click delegation and the walk over
  the root elements are wiring around the modelled decisions, and are left out.
- router.js's own `use` is inherited from the underlying router library and is not modelled. Only the adapter's `use`
  is.
- Default values in link defaults are typed as objects. A string or number default is not modelled.
- RouterLink.TransitionHandler and the other link members take the `defaults` option as its getters evaluate for the
  element at hand. A getter that returns different values on the `params` and `query` calls for one element is not
  modelled.
- Lifecycle.ResolveRoute: the base `Route` class itself given as a route's `class` is a direct class here. In
  router.js `Route.prototype instanceof Route` is false (src/router.js:102), so it would be called as a lazy
  definition and throw.
- Route.GetComponent: a `component` option is either set or absent. A falsy one, such as `''`, falls back to the
  class's static component in route.js (src/route.js:24, `||`), but counts as set here.
- `classList.toggle` with an invalid token is not modelled.
- Two fields of the `Router` class are proof bookkeeping with no counterpart in the source: the ghost sets `elements`
  and `regions` name the elements and regions the router created.
- RouterEngine.Router.Resolve: its contract states how the transition ends (cancelled by `before:transition`, failed by
  a deactivate hook, or completed and stalled only after both hook chains went through) and the state it leaves. It
  does not restate the log: Prepare states it exactly up to the end of activation (`before:transition`, the deactivate
  chain, the activate chain), Finish the load calls after it, and RenderChain the render entries.
- Route.RouteInstance.RenderEl, Lifecycle.OutcomeOf and Lifecycle.Loads: a controller's `activate` and `deactivate`
  outcomes, its `load` behaviour and its `updateEl(transition)` answer are constants of its class. The model does not
  let them depend on the transition or vary from call to call; `updateEl` is a boolean of the class.
- The controller cache is a field of the `Router` class, where router.js has a module-level `instanceMap`
  (src/router.js:17). The two agree because `Registry.CreateRouter` refuses a second router while one exists and
  `Registry.Destroy` empties the cache (src/router.js:45-50).
- RouterEngine.Router.RenderAfterLoads: states the render chain of each `renderElements` call, but not which
  elements each try finds. Which elements are cleared is ClearStaleEls'.
- RouterEngine.Router.Finish: when the loads did not fail, states the load calls as a prefix of the log and the
  outcome. The render entries after them are RenderAfterLoads'.
- RouterEngine.Router.LoadAndRender: states what Finish states, with the same gap.
- RouterEngine.Router.Mount: does not restate that a kept or failed render leaves the region as it was. That is
  Route.RouteInstance.RenderEl's.
- RouterEngine.Router.RenderStep: states the region a mounted element is shown in, but not the element's properties.
  Those are Mount's.

## Findings

| source | as written | input that shows it | evidently intended | confidence | as-written member | corrected member |
|---|---|---|---|---|---|---|
| src/router.js:190-192 | `isTarget(route)` tests `instances.indexOf(route) === instances.length - 1`; `transition.instances` is set to `[]` (src/router.js:219) before any `deactivate` hook runs (the hooks are chained behind a resolved promise; RouterEngine.Router.DeactivatePhase), and on an empty list the `-1` of a missing controller equals `length - 1` | `instances = []` and any controller, for example a `deactivate` hook asking whether its own route is the target | `isTarget` holds only for the last controller of the instance list | not executed | Lifecycle.EveryRouteIsTargetOfEmptyList | Lifecycle.IsTargetIntendedMeansLast |
