/**
 * The transition middleware of src/router.js and of its older copy
 * src/cherrytree-adapter.js, as one `Router` class whose `variant` says
 * which of the two it is. Each step of the middleware is a method proved
 * against the decisions of module Lifecycle.
 */
module RouterEngine {
  import opened Wrappers
  import Dom
  import opened Route
  import opened Lifecycle

  /** A transition as the middleware sees it: the matched route lists and what the middleware records on it. */
  class Transition {
    const routes: seq<RouteDesc>
    /** `transition.prev.routes`. */
    const prev: seq<RouteDesc>
    var isCancelled: bool
    /** `transition.instances` (`transition.mnRoutes` in the adapter). */
    var instances: Option<seq<RouteInstance>>
    var activating: Option<seq<RouteInstance>>

    constructor (routes: seq<RouteDesc>, prev: seq<RouteDesc>)
      ensures this.routes == routes && this.prev == prev
      ensures !isCancelled && instances.None? && activating.None?
    {
      this.routes := routes;
      this.prev := prev;
      isCancelled := false;
      instances := None;
      activating := None;
    }
  }

  /** `router.state`: what a completed transition leaves behind. */
  class RouterState {
    /** `state.instances` (`state.mnRoutes` in the adapter). */
    var instances: Option<seq<RouteInstance>>

    constructor ()
      ensures instances.None?
    {
      instances := None;
    }
  }

  /** An entry of the router's middleware list. */
  datatype Middleware =
    | Core                            // the transition middleware of this module
    | RouterLinks                     // the link middleware router.js installs
    | Custom(id: nat, wrapped: bool)  // a user middleware; `wrapped` when given as a bare function

  /** What `use` is given: a function, or an object with hooks. */
  datatype MiddlewareArg = FunctionArg(id: nat) | ObjectArg(id: nat)

  /** `use` wraps a function `f` as `{next: f}` and keeps an object as it is. */
  function AsMiddleware(m: MiddlewareArg): Middleware
  {
    match m
    case FunctionArg(id) => Custom(id, true)
    case ObjectArg(id) => Custom(id, false)
  }

  /**
   * The middleware list after `use(m, {before})` in cherrytree-adapter.js:
   * inserted just before the core middleware, or appended. As `splice` does
   * with a negative start, a missing core middleware means "before the last".
   */
  function UseMiddleware(mw: seq<Middleware>, m: Middleware, before: bool): (r: seq<Middleware>)
    ensures |r| == |mw| + 1 && multiset(r) == multiset(mw) + multiset{m}
    ensures !before ==> r == mw + [m]
    ensures before && Core in mw ==>
      var k := IndexOf(mw, Core);
      r[..k] == mw[..k] && r[k] == m && r[k + 1] == Core && r[k + 1..] == mw[k..]
  {
    if !before then mw + [m]
    else
      var k := IndexOf(mw, Core);
      var at := if k >= 0 then k else if |mw| > 0 then |mw| - 1 else 0;
      assert mw == mw[..at] + mw[at..];
      mw[..at] + [m] + mw[at..]
  }

  /** The errors the router's constructor throws. */
  datatype RouterError = AlreadyCreated | InvalidOutlet

  /** The `outlet` option of router.js, or the `renderRoot` argument of the adapter. */
  datatype OutletArg =
    | Unset                         // not given
    | Falsy                         // `null`, `false`, ...
    | Selector(s: string)           // a string, looked up with `document.querySelector`
    | HtmlElement(node: Dom.Node)   // an `HTMLElement`
    | GivenRegion(region: Dom.Region)
    | OtherValue                    // anything else

  /** What a transition ends with, as the middleware leaves it to the router that runs it. */
  datatype Outcome =
    | Completed
    | Cancelled
    | Failed(error: RouteError)
    | Stalled   // the promise the middleware returned never settles

  /**
   * How the middleware's promise ends once the `renderElements` calls
   * returned `renders`: without a load promise an error rejects it; behind a
   * load promise an error from the last call leaves `resolve` uncalled.
   */
  function Settle(loads: ChainStatus, renders: seq<Option<RouteError>>): Outcome
    requires |renders| > 0
  {
    var last := renders[|renders| - 1];
    if last.None? then Completed else if loads.Unstarted? then Failed(last.value) else Stalled
  }

  /** An ancestor `getParentRegion` stops at: it has an element and its `outlet` option is not `false`. */
  predicate Eligible(x: RouteInstance)
    reads x
  {
    x.el != null && !x.options.outletFalse
  }

  /** The nearest position at or below `k` that `getParentRegion` stops at, or -1. */
  function ParentWithOutlet(routes: seq<RouteInstance>, k: int): (p: int)
    requires k < |routes|
    reads routes
    ensures p == -1 || 0 <= p <= k
    ensures p >= 0 ==> Eligible(routes[p])
    ensures forall j :: p < j <= k && 0 <= j ==> !Eligible(routes[j])
    decreases k + 1
  {
    if k < 0 then -1 else if Eligible(routes[k]) then k else ParentWithOutlet(routes, k - 1)
  }

  /** The instances of a list, as a set. */
  ghost function Members(xs: seq<RouteInstance>): set<RouteInstance>
  {
    set x | x in xs
  }

  /** The elements of an optional instance list. */
  ghost function ElsOf(instances: Option<seq<RouteInstance>>): set<Dom.Element>
    reads if instances.Some? then Members(instances.value) else {}
  {
    if instances.Some? then set x | x in instances.value && x.el != null :: x.el else {}
  }

  class Router {
    const variant: Variant
    /** The base `Route` class. */
    const base: RouteClass
    const state: RouterState
    /** The events on which a listener calls `transition.cancel()`. */
    var listeners: set<Event>
    /** The instance cache keyed by route name (`instanceMap`, `mnRouteMap` in the adapter). */
    var instanceMap: map<string, RouteInstance>
    /** `rootOutlet` (`rootRegion` in the adapter). */
    var rootOutlet: Dom.Region?
    var middleware: seq<Middleware>
    /** Everything the router did that an observer can see, in order. */
    var log: seq<Obs>
    /**
     * Bookkeeping of the model: the elements the router rendered and the
     * regions it was given or found. Rendering changes these and nothing
     * else of the DOM; what it adds is new.
     */
    ghost var elements: set<Dom.Element>
    ghost var regions: set<Dom.Region>

    /** Every cached instance is cached under its own name. */
    ghost predicate Valid()
      reads this
    {
      forall n :: n in instanceMap ==> instanceMap[n].name == n
    }

    /** The outlet cached for a known element is a known region, and so is the root outlet. */
    ghost predicate DomClosed()
      reads this`elements, this`regions, this`rootOutlet, elements`outletRegion
    {
      && (forall e :: e in elements && e.outletRegion != null ==> e.outletRegion in regions)
      && (rootOutlet != null ==> rootOutlet in regions)
    }

    /** The elements of the instances are known ones. */
    ghost predicate Tracks(xs: seq<RouteInstance>)
      reads this, xs
    {
      forall x :: x in xs && x.el != null ==> x.el in elements
    }

    /** The elements of the cached instances are known ones. */
    ghost predicate TracksCache()
      reads this, instanceMap.Values
    {
      forall x :: x in instanceMap.Values && x.el != null ==> x.el in elements
    }

    /** Since the start of the method, known elements and regions were only added, and those added are new. */
    twostate predicate DomGrown()
      reads this
    {
      && old(elements) <= elements && fresh(elements - old(elements))
      && old(regions) <= regions && fresh(regions - old(regions))
    }

    constructor (variant: Variant, base: RouteClass, listeners: set<Event>, rootOutlet: Dom.Region?)
      requires IsBaseRoute(base)
      ensures Valid() && DomClosed() && TracksCache()
      ensures this.variant == variant && this.base == base && this.listeners == listeners && this.rootOutlet == rootOutlet
      ensures instanceMap == map[] && log == [] && fresh(state) && state.instances.None?
      ensures middleware == if variant == Nextbone then [Core, RouterLinks] else [Core]
    {
      this.variant := variant;
      this.base := base;
      this.listeners := listeners;
      this.rootOutlet := rootOutlet;
      instanceMap := map[];
      log := [];
      elements := {};
      regions := if rootOutlet == null then {} else {rootOutlet};
      state := new RouterState();
      middleware := if variant == Nextbone then [Core, RouterLinks] else [Core];
    }

    /** `router.trigger(event, transition, ...)`: a listener of the event may cancel the transition. */
    method Trigger(t: Transition, e: Event)
      modifies this`log, t`isCancelled
      ensures log == old(log) + [Emitted(e)]
      ensures t.isCancelled == (old(t.isCancelled) || e in listeners)
    {
      log := log + [Emitted(e)];
      if e in listeners {
        t.isCancelled := true;
      }
    }

    /** `router.trigger` for the events that settle a transition; their listeners do not touch it. */
    method Emit(e: Event)
      modifies this`log
      ensures log == old(log) + [Emitted(e)]
    {
      log := log + [Emitted(e)];
    }

    /** `getChangingIndex`: the loop that stops at the first position that differs. */
    static method GetChangingIndex(prev: seq<RouteDesc>, next: seq<RouteDesc>) returns (index: nat)
      ensures index == ChangingIndex(prev, next)
    {
      var count := if |prev| > |next| then |prev| else |next|;
      index := 0;
      while index < count
        invariant index <= count && index <= |prev| && index <= |next|
        invariant forall i :: 0 <= i < index ==> SameSegment(prev[i], next[i])
      {
        if !(index < |prev| && index < |next|) || prev[index].name != next[index].name || prev[index].params != next[index].params {
          break;
        }
        index := index + 1;
      }
      ChangingIndexIsFirstMismatch(prev, next, index);
    }

    /** The deactivation loop: the cached instances of `prev[changingIndex..]`, from the leaf upwards. */
    method CollectDeactivated(prev: seq<RouteDesc>, changingIndex: nat) returns (deactivated: seq<RouteInstance>)
      ensures deactivated == Deactivated(prev, instanceMap, changingIndex)
    {
      deactivated := [];
      var routeIndex := |prev| - 1;
      while routeIndex >= changingIndex
        invariant -1 <= routeIndex < |prev|
        invariant changingIndex <= routeIndex + 1 || routeIndex == |prev| - 1
        invariant deactivated == CachedDown(prev, instanceMap, routeIndex + 1, |prev|)
      {
        if prev[routeIndex].name in instanceMap {
          deactivated := deactivated + [instanceMap[prev[routeIndex].name]];
        }
        routeIndex := routeIndex - 1;
      }
    }

    /**
     * `runAsyncMethod`: every `before:<method>` event first, then the hooks
     * one after another, as Lifecycle.AsyncMethod says.
     */
    method RunAsyncMethod(t: Transition, routes: seq<RouteInstance>, kind: HookKind) returns (failure: Option<RouteError>)
      modifies this`log, t`isCancelled
      ensures var run := AsyncMethod(routes, kind, variant, old(t.isCancelled), listeners);
        log == old(log) + run.trace && t.isCancelled == run.cancelled && failure == run.failure
    {
      TriggerBefore(t, routes, kind);
      failure := RunHookChain(t, routes, kind);
    }

    /**
     * The deactivation step of `resolve`: `runAsyncMethod` triggers every
     * `before:deactivate` event while it builds the chain, `transition.instances`
     * is then set to `[]`, and only after that do the chained hooks run.
     * `seen` is the instance list the hooks observe.
     */
    method DeactivatePhase(t: Transition, deactivated: seq<RouteInstance>)
      returns (failure: Option<RouteError>, ghost seen: Option<seq<RouteInstance>>)
      modifies this`log, t`isCancelled, t`instances
      ensures var run := AsyncMethod(deactivated, Deactivate, variant, old(t.isCancelled), listeners);
        log == old(log) + run.trace && t.isCancelled == run.cancelled && failure == run.failure
      ensures seen == Some([]) && t.instances == seen
    {
      TriggerBefore(t, deactivated, Deactivate);
      t.instances := Some([]);
      seen := t.instances;
      failure := RunHookChain(t, deactivated, Deactivate);
    }

    /** The `before:<method>` events, triggered while the `reduce` builds the chain. */
    method TriggerBefore(t: Transition, routes: seq<RouteInstance>, kind: HookKind)
      modifies this`log, t`isCancelled
      ensures log == old(log) + BeforeEvents(routes, kind)
      ensures t.isCancelled == (old(t.isCancelled) || BeforeCancels(routes, kind, listeners))
    {
      var i := 0;
      while i < |routes|
        invariant 0 <= i <= |routes|
        invariant log == old(log) + BeforeEvents(routes[..i], kind)
        invariant t.isCancelled == (old(t.isCancelled) || BeforeCancels(routes[..i], kind, listeners))
      {
        ghost var done := routes[..i];
        assert routes[..i + 1] == done + [routes[i]];
        BeforeEventsSnoc(done, routes[i], kind);
        BeforeCancelsSnoc(done, routes[i], kind, listeners);
        Trigger(t, BeforeHook(kind, routes[i].name));
        i := i + 1;
      }
      assert routes[..i] == routes;
    }

    /** The chained hooks: each runs only while the transition is not cancelled. */
    method RunHookChain(t: Transition, routes: seq<RouteInstance>, kind: HookKind) returns (failure: Option<RouteError>)
      modifies this`log, t`isCancelled
      ensures var run := RunHooks(routes, kind, variant, old(t.isCancelled), listeners);
        log == old(log) + run.trace && t.isCancelled == run.cancelled && failure == run.failure
    {
      ghost var run := RunHooks(routes, kind, variant, t.isCancelled, listeners);
      ghost var done: seq<Obs> := [];
      assert routes[0..] == routes;
      var i := 0;
      while i < |routes| && !t.isCancelled
        invariant 0 <= i <= |routes|
        invariant log == old(log) + done && HooksRemain(routes, i, kind, variant, t.isCancelled, listeners, done, run)
      {
        var x := routes[i];
        HookStep(routes, i, kind, variant, listeners, done, run);
        var threw := RunHook(t, x, kind);
        if threw {
          return Some(HookThrew(kind, x.name));
        }
        done := done + HookTrace(x, kind, variant);
        i := i + 1;
      }
      HooksDone(routes, i, kind, variant, t.isCancelled, listeners, done, run);
      failure := None;
    }

    /** The hooks before `i` left `done` in the log, and the rest of the chain, from `cancelled`, completes `run`. */
    static ghost predicate HooksRemain(routes: seq<RouteInstance>, i: nat, kind: HookKind, v: Variant, cancelled: bool,
                                       listeners: set<Event>, done: seq<Obs>, run: HookRun)
    {
      && i <= |routes|
      && var rest := RunHooks(routes[i..], kind, v, cancelled, listeners);
        done + rest.trace == run.trace && run.ran == i + rest.ran && run.cancelled == rest.cancelled && run.failure == rest.failure
    }

    /** The hook at `i` of a chain not cancelled: a throw ends the chain with its error, otherwise the chain goes on. */
    static lemma HookStep(routes: seq<RouteInstance>, i: nat, kind: HookKind, v: Variant, listeners: set<Event>,
                          done: seq<Obs>, run: HookRun)
      requires i < |routes| && HooksRemain(routes, i, kind, v, false, listeners, done, run)
      ensures var x, o := routes[i], OutcomeOf(routes[i], kind);
        && (o == Throws ==>
              run.trace == done + HookTrace(x, kind, v) && !run.cancelled && run.failure == Some(HookThrew(kind, x.name)))
        && (o != Throws ==>
              HooksRemain(routes, i + 1, kind, v, CancelsAfter(o, v) || AfterHook(kind, x.name) in listeners, listeners,
                          done + HookTrace(x, kind, v), run))
    {
      RunHooksUnfold(routes, i, kind, v, listeners);
      var x, o := routes[i], OutcomeOf(routes[i], kind);
      if o != Throws {
        var rest := RunHooks(routes[i + 1..], kind, v, CancelsAfter(o, v) || AfterHook(kind, x.name) in listeners, listeners);
        assert done + (HookTrace(x, kind, v) + rest.trace) == (done + HookTrace(x, kind, v)) + rest.trace;
      }
    }

    /** A chain that reached the end of the list, or a cancelled transition, has run all it will. */
    static lemma HooksDone(routes: seq<RouteInstance>, i: nat, kind: HookKind, v: Variant, cancelled: bool,
                           listeners: set<Event>, done: seq<Obs>, run: HookRun)
      requires HooksRemain(routes, i, kind, v, cancelled, listeners, done, run) && (i == |routes| || cancelled)
      ensures done == run.trace && run.cancelled == cancelled && run.failure.None?
    {
      assert done + [] == done;
    }

    /**
     * One hook of the chain: it is called; `false` (in router.js) or a call
     * of `cancel` cancels; otherwise the `<method>` event fires, and its
     * listeners may cancel.
     */
    method RunHook(t: Transition, x: RouteInstance, kind: HookKind) returns (threw: bool)
      requires !t.isCancelled
      modifies this`log, t`isCancelled
      ensures var o := OutcomeOf(x, kind);
        && threw == (o == Throws)
        && log == old(log) + HookTrace(x, kind, variant)
        && t.isCancelled == (!threw && (CancelsAfter(o, variant) || AfterHook(kind, x.name) in listeners))
    {
      var o := OutcomeOf(x, kind);
      log := log + [Called(kind, x.name)];
      if o == Throws {
        return true;
      }
      if CancelsAfter(o, variant) {
        t.isCancelled := true;
      } else {
        Trigger(t, AfterHook(kind, x.name));
      }
      threw := false;
    }

    /** One step of the hook chain, on the suffix from `i`. */
    static lemma RunHooksUnfold(routes: seq<RouteInstance>, i: nat, kind: HookKind, v: Variant, listeners: set<Event>)
      requires i < |routes|
      ensures var x, o := routes[i], OutcomeOf(routes[i], kind);
        var here := RunHooks(routes[i..], kind, v, false, listeners);
        && (o == Throws ==> here.failure == Some(HookThrew(kind, x.name)) && here.trace == HookTrace(x, kind, v) && here.ran == 1)
        && (o != Throws ==>
             var rest := RunHooks(routes[i + 1..], kind, v, CancelsAfter(o, v) || AfterHook(kind, x.name) in listeners, listeners);
             here == HookRun(HookTrace(x, kind, v) + rest.trace, 1 + rest.ran, rest.cancelled, rest.failure))
    {
      assert routes[i..][0] == routes[i];
      assert routes[i..][1..] == routes[i + 1..];
      var o := OutcomeOf(routes[i], kind);
      if o != Throws && CancelsAfter(o, v) {
        assert HookTrace(routes[i], kind, v) + [] == HookTrace(routes[i], kind, v);
      }
    }

    /**
     * `x` was created for `desc` after the instances `built`:
     * `createRouteInstance` with the class `resolveRoute` found, the route's
     * options, and (router.js only) `$parent` set to the last instance built.
     */
    ghost predicate CreatedFor(x: RouteInstance, desc: RouteDesc, built: seq<RouteInstance>)
      reads x
    {
      var c := ResolveRoute(base, desc, Classes(built));
      && c.Create? && x.cls == c.cls
      && x.name == desc.name && x.path == desc.path && x.options == desc.options
      && x.routerRef == this && x.initOptions == desc.options.classOptions
      && x.component == (if desc.options.component.Some? then desc.options.component else c.cls.protoComponent)
      && x.el == null && x.fields == c.cls.instanceFields
      && x.parent == (if variant == Nextbone && |built| > 0 then built[|built| - 1] else null)
    }

    /** `resolveRoute` for a route without a cached instance, then `$parent` in router.js. */
    method ResolveInstance(desc: RouteDesc, built: seq<RouteInstance>) returns (r: Result<RouteInstance, RouteError>)
      ensures var c := ResolveRoute(base, desc, Classes(built));
        && (r.Ok? <==> c.Create?)
        && (r.Err? ==> r.error == ResolutionError(c, desc.name))
        && (r.Ok? ==> fresh(r.value) && CreatedFor(r.value, desc, built))
    {
      var c := ResolveRoute(base, desc, Classes(built));
      if !c.Create? {
        return Err(ResolutionError(c, desc.name));
      }
      var x := new RouteInstance(desc.options.classOptions, this, desc, c.cls);
      if variant == Nextbone && |built| > 0 {
        x.parent := built[|built| - 1];
      }
      return Ok(x);
    }

    /** One route of the build phase: the cached instance, or a new one that is cached. */
    method BuildStep(desc: RouteDesc, res: seq<RouteInstance>) returns (r: Result<RouteInstance, RouteError>)
      requires Valid()
      modifies this`instanceMap
      ensures Valid()
      ensures desc.name in old(instanceMap) ==> r == Ok(old(instanceMap)[desc.name]) && instanceMap == old(instanceMap)
      ensures desc.name !in old(instanceMap) ==>
        var c := ResolveRoute(base, desc, Classes(res));
        && (r.Ok? <==> c.Create?)
        && (r.Err? ==> r.error == ResolutionError(c, desc.name) && instanceMap == old(instanceMap))
        && (r.Ok? ==> fresh(r.value) && CreatedFor(r.value, desc, res) && instanceMap == old(instanceMap)[desc.name := r.value])
    {
      if desc.name in instanceMap {
        return Ok(instanceMap[desc.name]);
      }
      r := ResolveInstance(desc, res);
      if r.Ok? {
        instanceMap := instanceMap[desc.name := r.value];
      }
    }

    /**
     * The build phase: each route reuses its cached instance or gets a new
     * one from `resolveRoute`, which is cached; the first route for which no
     * class resolves fails the phase, and the list stops there.
     */
    method BuildInstances(t: Transition) returns (failure: Option<RouteError>)
      requires Valid()
      modifies this`instanceMap, t`instances
      ensures Valid() && t.instances.Some?
      ensures var res := t.instances.value;
        && Cached(t.routes, res, old(instanceMap), instanceMap)
        && (failure.None? <==> |res| == |t.routes|)
        && (failure.Some? ==>
              var d := t.routes[|res|];
              d.name !in instanceMap && !ResolveRoute(base, d, Classes(res)).Create?
              && failure == Some(ResolutionError(ResolveRoute(base, d, Classes(res)), d.name)))
        && (forall j :: 0 <= j < |res| && t.routes[j].name !in old(instanceMap) && FirstOccurrence(t.routes, j) ==>
              fresh(res[j]) && CreatedFor(res[j], t.routes[j], res[..j]))
    {
      var res: seq<RouteInstance> := [];
      t.instances := Some(res);
      var i := 0;
      while i < |t.routes|
        invariant 0 <= i <= |t.routes| && |res| == i && t.instances == Some(res)
        invariant Valid()
        invariant Cached(t.routes, res, old(instanceMap), instanceMap)
        invariant forall j :: 0 <= j < i && t.routes[j].name !in old(instanceMap) && FirstOccurrence(t.routes, j) ==>
          fresh(res[j]) && CreatedFor(res[j], t.routes[j], res[..j])
      {
        var desc := t.routes[i];
        ghost var m := instanceMap;
        var r := BuildStep(desc, res);
        if r.Err? {
          return Some(r.error);
        }
        var x := r.value;
        AppendKeepsPrefixes(res, x);
        CachedStep(t.routes, res, old(instanceMap), m, x, instanceMap);
        res := res + [x];
        t.instances := Some(res);
        i := i + 1;
      }
      failure := None;
    }

    /**
     * The load chain, `instances.reduce` over the instances that have `load`,
     * as Lifecycle.LoadChain says: the calls made, the state of the chain, and
     * the error of a first `load` that threw synchronously.
     */
    method RunLoads(instances: seq<RouteInstance>) returns (status: ChainStatus, failure: Option<RouteError>)
      modifies this`log
      ensures var run := LoadChain(Loads(instances), |instances|);
        && status == run.status
        && (run.failure.None? ==> failure.None?)
        && (run.failure.Some? ==> run.failure.value < |instances| && failure == Some(LoadThrew(instances[run.failure.value].name)))
        && log == old(log) + LoadedAt(instances, run.calls)
    {
      ghost var ls := Loads(instances);
      ghost var start := log;
      status := Unstarted;
      var i := 0;
      while i < |instances|
        invariant 0 <= i <= |instances|
        invariant LoadChain(ls, i).failure.None? && status == LoadChain(ls, i).status
        invariant log == start + LoadedAt(instances, LoadChain(ls, i).calls)
      {
        var next, threw := LoadOne(instances, i, status, start);
        if threw {
          LoadChainNext(ls, i);
          LoadChainStops(ls, i + 1, |instances|);
          return Unstarted, Some(LoadThrew(instances[i].name));
        }
        status := next;
        i := i + 1;
      }
      failure := None;
    }

    /**
     * The `load` of instance `i` of the chain: the first is called
     * synchronously, a later one is attached with `then(load).catch(load)`.
     * It extends the chain over `instances[..i]` by one instance.
     */
    method LoadOne(instances: seq<RouteInstance>, i: nat, status: ChainStatus, ghost start: seq<Obs>)
        returns (next: ChainStatus, threw: bool)
      requires i < |instances|
      requires LoadChain(Loads(instances), i).failure.None? && status == LoadChain(Loads(instances), i).status
      requires log == start + LoadedAt(instances, LoadChain(Loads(instances), i).calls)
      modifies this`log
      ensures var run := LoadChain(Loads(instances), i + 1);
        && threw == run.failure.Some?
        && (!threw ==> next == run.status)
        && log == start + LoadedAt(instances, run.calls)
    {
      ghost var ls := Loads(instances);
      ghost var run := LoadChain(ls, i);
      LoadChainNext(ls, i);
      var x := instances[i];
      var b := x.cls.hooks.load;
      next, threw := status, false;
      if b == NoLoad {
        return;
      }
      log := log + [Loaded(x.name)];
      if status == Unstarted && b == LoadThrows {
        assert LoadedAt(instances, [i]) == [Loaded(x.name)];
        LoadedAtAppend(instances, run.calls, [i]);
        return next, true;
      }
      if status != Unstarted && RetryCount(status, b == LoadResolves) == 2 {
        log := log + [Loaded(x.name)];
        assert LoadedAt(instances, [i, i]) == [Loaded(x.name), Loaded(x.name)];
      } else {
        assert LoadedAt(instances, [i]) == [Loaded(x.name)];
      }
      LoadedAtAppend(instances, run.calls, StepCalls(i, status, b));
      next := AfterStep(b == LoadResolves);
    }

    /**
     * `middleware.resolve` (`middleware.next` in the adapter): the phases in
     * order, each ending the transition when it fails or leaves it cancelled.
     */
    method Resolve(t: Transition) returns (outcome: Outcome)
      requires Valid() && DomClosed() && TracksCache()
      modifies this`log, this`instanceMap, this`elements, this`regions, t`isCancelled, t`instances, t`activating
      modifies instanceMap.Values`el, elements`outletRegion, regions
      ensures Valid()
      ensures old(t.isCancelled) || BeforeTransition in listeners ==>
        outcome == Cancelled && log == old(log) + [Emitted(BeforeTransition)]
        && instanceMap == old(instanceMap) && t.instances == old(t.instances) && t.activating == old(t.activating)
      ensures outcome == Completed || outcome == Stalled ==>
        && !t.isCancelled && t.instances.Some? && |t.instances.value| == |t.routes|
        && Cached(t.routes, t.instances.value, old(instanceMap), instanceMap)
        && t.activating == Some(t.instances.value[ChangingIndex(t.prev, t.routes)..])
      ensures !(old(t.isCancelled) || BeforeTransition in listeners) ==>
        var down := AsyncMethod(Deactivated(t.prev, old(instanceMap), ChangingIndex(t.prev, t.routes)), Deactivate, variant, false, listeners);
        && (down.failure.Some? ==> outcome == Failed(down.failure.value))
        && (outcome == Completed || outcome == Stalled ==>
              var up := AsyncMethod(t.activating.value, Activate, variant, false, listeners);
              down.failure.None? && !down.cancelled && up.failure.None? && !up.cancelled)
    {
      var early, deactivated, activated := Prepare(t);
      if early.Some? {
        return early.value;
      }
      TracksKept(t.instances.value);
      var renders;
      outcome, renders := LoadAndRender(t, deactivated, activated);
    }

    /** Instances that were cached, or are new without an element, are tracked while no element changed. */
    twostate lemma TracksKept(new xs: seq<RouteInstance>)
      requires old(TracksCache()) && unchanged(this`elements)
      requires forall y :: y in xs ==> y in old(instanceMap).Values || (fresh(y) && y.el == null)
      requires forall y :: y in old(instanceMap).Values ==> unchanged(y`el)
      ensures Tracks(xs)
    {
    }

    /**
     * The continuation of `resolve` after activation: Finish over the
     * transition's instances, with the load chain of their `load` hooks.
     */
    method LoadAndRender(t: Transition, deactivated: seq<RouteInstance>, activated: seq<RouteInstance>)
        returns (outcome: Outcome, renders: seq<Option<RouteError>>)
      requires t.instances.Some? && (forall y :: y in activated ==> y in t.instances.value)
      requires Tracks(t.instances.value) && DomClosed()
      modifies this`log, this`elements, this`regions, deactivated`el, t.instances.value`el, elements`outletRegion, regions
      ensures outcome == Completed || outcome == Stalled || outcome.Failed?
      ensures LoadsThenRenders(t.instances.value, old(log), log, outcome, renders)
      ensures old(log) <= log
    {
      outcome, renders := Finish(deactivated, t.instances.value, activated);
    }

    /**
     * The middleware up to the end of activation: `before:transition`, the
     * deactivation list and its hooks (DeactivatePhase), then
     * BuildAndActivate. `early` is how the transition ends when it does not
     * reach the load phase.
     */
    method Prepare(t: Transition)
      returns (early: Option<Outcome>, deactivated: seq<RouteInstance>, activated: seq<RouteInstance>)
      requires Valid() && DomClosed()
      modifies this`log, this`instanceMap, t`isCancelled, t`instances, t`activating
      ensures Valid() && DomClosed()
      ensures old(t.isCancelled) || BeforeTransition in listeners ==>
        early == Some(Cancelled) && log == old(log) + [Emitted(BeforeTransition)]
        && instanceMap == old(instanceMap) && t.instances == old(t.instances) && t.activating == old(t.activating)
      ensures !(old(t.isCancelled) || BeforeTransition in listeners) ==>
        var ci := ChangingIndex(t.prev, t.routes);
        var down := AsyncMethod(Deactivated(t.prev, old(instanceMap), ci), Deactivate, variant, false, listeners);
        && deactivated == Deactivated(t.prev, old(instanceMap), ci)
        && t.instances.Some? && Cached(t.routes, t.instances.value, old(instanceMap), instanceMap)
        && (down.failure.Some? ==> early == Some(Failed(down.failure.value)) && t.instances == Some([]))
        && (down.failure.None? && |t.instances.value| < |t.routes| ==> early.Some? && early.value.Failed?)
        && (down.failure.Some? || |t.instances.value| < |t.routes| ==>
              log == old(log) + [Emitted(BeforeTransition)] + down.trace)
        && (down.failure.None? && |t.instances.value| == |t.routes| ==>
              var up := AsyncMethod(t.instances.value[ci..], Activate, variant, down.cancelled, listeners);
              && log == old(log) + [Emitted(BeforeTransition)] + down.trace + up.trace
              && (up.failure.Some? ==> early == Some(Failed(up.failure.value)))
              && (up.failure.None? && up.cancelled ==> early == Some(Cancelled))
              && (up.failure.None? && !up.cancelled ==> early.None?)
              && (down.cancelled ==> early == Some(Cancelled)))
        && (early.None? ==>
              && down.failure.None? && !t.isCancelled && |t.instances.value| == |t.routes|
              && activated == t.instances.value[ci..] && t.activating == Some(activated))
      ensures early.Some? ==> early.value.Cancelled? || early.value.Failed?
      ensures early.None? ==>
        && t.instances.Some?
        && (forall y :: y in activated ==> y in t.instances.value)
        && (forall y :: y in deactivated ==> y in old(instanceMap).Values)
        && (forall y :: y in t.instances.value ==> y in old(instanceMap).Values || (fresh(y) && y.el == null))
    {
      Trigger(t, BeforeTransition);
      if t.isCancelled {
        return Some(Cancelled), [], [];
      }
      var ci := GetChangingIndex(t.prev, t.routes);
      deactivated := CollectDeactivated(t.prev, ci);
      var failure;
      ghost var seen;
      failure, seen := DeactivatePhase(t, deactivated);
      if failure.Some? {
        return Some(Failed(failure.value)), deactivated, [];
      }
      ghost var downCancelled := t.isCancelled;
      early, activated := BuildAndActivate(t, ci);
      if downCancelled && |t.instances.value| == |t.routes| {
        AsyncMethodWhenCancelled(t.instances.value[ci..], Activate, variant, listeners);
      }
      if early.None? {
        DeactivatedAreCached(t.prev, old(instanceMap), ci);
      }
    }

    /**
     * The build phase, then `activating` set to the instances from the
     * changing index on and their `activate` hooks run.
     */
    method BuildAndActivate(t: Transition, ci: nat) returns (early: Option<Outcome>, activated: seq<RouteInstance>)
      requires Valid() && ci <= |t.routes|
      modifies this`log, this`instanceMap, t`isCancelled, t`instances, t`activating
      ensures Valid() && t.instances.Some? && Cached(t.routes, t.instances.value, old(instanceMap), instanceMap)
      ensures old(log) <= log
      ensures early.Some? ==> early.value.Cancelled? || early.value.Failed?
      ensures |t.instances.value| < |t.routes| ==>
        early.Some? && early.value.Failed? && log == old(log) && t.activating == old(t.activating)
      ensures |t.instances.value| == |t.routes| ==>
        var up := AsyncMethod(t.instances.value[ci..], Activate, variant, old(t.isCancelled), listeners);
        && activated == t.instances.value[ci..] && t.activating == Some(activated)
        && log == old(log) + up.trace
        && (up.failure.Some? ==> early == Some(Failed(up.failure.value)))
        && (up.failure.None? && up.cancelled ==> early == Some(Cancelled))
        && (up.failure.None? && !up.cancelled ==> early.None? && !t.isCancelled)
      ensures early.None? ==>
        forall y :: y in t.instances.value ==> y in old(instanceMap).Values || (fresh(y) && y.el == null)
    {
      var failure := BuildInstances(t);
      if failure.Some? {
        return Some(Failed(failure.value)), [];
      }
      var instances := t.instances.value;
      activated := instances[ci..];
      t.activating := Some(activated);
      failure := RunAsyncMethod(t, activated, Activate);
      if failure.Some? {
        return Some(Failed(failure.value)), activated;
      }
      if t.isCancelled {
        return Some(Cancelled), activated;
      }
      early := None;
      forall y | y in instances
        ensures y in old(instanceMap).Values || (fresh(y) && y.el == null)
      {
        var j :| 0 <= j < |instances| && instances[j] == y;
        if t.routes[j].name !in old(instanceMap) {
          var k := FirstIndexFrom(t.routes, j, 0);
          assert instances[k] == y;
        }
      }
    }

    /**
     * `middleware.done`: the instance list becomes the router state; in
     * router.js every rendered element also gets the state as `$route`.
     * Then the `transition` event.
     */
    method Done(t: Transition)
      requires variant == Nextbone ==> t.instances.Some?
      modifies state`instances, this`log, ElsOf(t.instances)`routeState
      ensures state.instances == t.instances
      ensures log == old(log) + [Emitted(TransitionDone)]
      ensures variant == Nextbone ==> forall y :: y in t.instances.value && y.el != null ==> y.el.routeState == state
      ensures variant == Cherrytree ==> forall e :: e in ElsOf(t.instances) ==> e.routeState == old(e.routeState)
    {
      state.instances := t.instances;
      if variant == Nextbone {
        var xs := t.instances.value;
        var i := 0;
        while i < |xs|
          invariant 0 <= i <= |xs|
          invariant forall j :: 0 <= j < i && xs[j].el != null ==> xs[j].el.routeState == state
          invariant state.instances == t.instances && log == old(log)
        {
          if xs[i].el != null {
            xs[i].el.routeState := state;
          }
          i := i + 1;
        }
      }
      Emit(TransitionDone);
    }

    /** `middleware.cancel`: `transition:abort`, unless the transition was cancelled by a redirect. */
    method Cancel(t: Transition, redirected: bool)
      modifies this`log
      ensures log == old(log) + if redirected then [] else [Emitted(TransitionAbort)]
    {
      if !redirected {
        Emit(TransitionAbort);
      } else {
        assert log + [] == log;
      }
    }

    /** `middleware.error`: `transition:abort`, then `transition:error`. */
    method Error(t: Transition)
      modifies this`log
      ensures log == old(log) + [Emitted(TransitionAbort), Emitted(TransitionFailed)]
    {
      Emit(TransitionAbort);
      Emit(TransitionFailed);
    }

    /** `Router.prototype.use` of the adapter: `middleware` becomes UseMiddleware of it; the router is returned. */
    method Use(m: MiddlewareArg, before: bool) returns (self: Router)
      requires variant == Cherrytree
      modifies this`middleware
      ensures middleware == UseMiddleware(old(middleware), AsMiddleware(m), before)
      ensures self == this
    {
      var entry := AsMiddleware(m);
      if before {
        var k := IndexOf(middleware, Core);
        var at := if k >= 0 then k else if |middleware| > 0 then |middleware| - 1 else 0;
        middleware := middleware[..at] + [entry] + middleware[at..];
      } else {
        middleware := middleware + [entry];
      }
      self := this;
    }

    /**
     * The last stage of the middleware, once activation left the transition
     * uncancelled: the load chain, the stale elements, then `renderElements`
     * behind the load promise (or at once when there is none).
     */
    method Finish(deactivated: seq<RouteInstance>, instances: seq<RouteInstance>, activated: seq<RouteInstance>)
        returns (outcome: Outcome, renders: seq<Option<RouteError>>)
      requires forall y :: y in activated ==> y in instances
      requires Tracks(instances) && DomClosed()
      modifies this`log, this`elements, this`regions, deactivated`el, instances`el, elements`outletRegion, regions
      ensures LoadsThenRenders(instances, old(log), log, outcome, renders)
      ensures old(log) <= log
    {
      var status, loadFailure := RunLoads(instances);
      if loadFailure.Some? {
        return Failed(loadFailure.value), [];
      }
      ghost var loaded := log;
      ghost var passes, states;
      renders, passes, states := RenderAfterLoads(deactivated, instances, activated, status);
      outcome := Settle(status, renders);
    }

    /**
     * How the load chain of the `load` hooks of `instances` and the render
     * passes behind it end a transition, with `log0` the log before them: a
     * load that throws fails the transition before anything renders;
     * otherwise the last render pass decides, and its error fails the
     * transition only when no load promise exists.
     */
    static ghost predicate LoadsThenRenders(instances: seq<RouteInstance>, log0: seq<Obs>, log: seq<Obs>,
                                            outcome: Outcome, renders: seq<Option<RouteError>>)
    {
      var run := LoadChain(Loads(instances), |instances|);
      && (run.failure.Some? ==>
            && run.failure.value < |instances|
            && outcome == Failed(LoadThrew(instances[run.failure.value].name)) && renders == []
            && log == log0 + LoadedAt(instances, run.calls))
      && (run.failure.None? ==>
            && 1 <= |renders| <= 2
            && (|renders| == 2 <==> run.status == Fulfilled && renders[0].Some?)
            && (renders[|renders| - 1].None? ==> outcome == Completed)
            && (renders[|renders| - 1].Some? && run.status == Unstarted ==> outcome == Failed(renders[|renders| - 1].value))
            && (renders[|renders| - 1].Some? && run.status != Unstarted ==> outcome == Stalled)
            && log0 + LoadedAt(instances, run.calls) <= log)
    }

    /**
     * The stale elements cleared, then the `renderElements` calls behind the
     * load chain: once, and a second time only after a fulfilled load chain
     * whose first pass failed. `passes[k]` and `states[k]` are the render
     * chain of the `k`-th call, and `renders[k]` is the error that escaped it.
     */
    method RenderAfterLoads(deactivated: seq<RouteInstance>, instances: seq<RouteInstance>, activated: seq<RouteInstance>,
                            status: ChainStatus)
        returns (renders: seq<Option<RouteError>>, ghost passes: seq<seq<seq<Try>>>, ghost states: seq<seq<ChainStatus>>)
      requires forall y :: y in activated ==> y in instances
      requires Tracks(instances) && DomClosed()
      modifies this`log, this`elements, this`regions, deactivated`el, instances`el, elements`outletRegion, regions
      ensures 1 <= |renders| <= 2 && (|renders| == 2 <==> status == Fulfilled && renders[0].Some?)
      ensures old(log) <= log
      ensures |passes| == |renders| && |states| == |renders|
      ensures var q := RenderQueue(Candidates(instances, activated));
        && ChainPass(q, passes[0], states[0], renders[0])
        && (|renders| == 2 ==> ChainPass(q, passes[1], states[1], renders[1]))
        && log == old(log) + RenderTrace(q, passes[0]) + (if |renders| == 2 then RenderTrace(q, passes[1]) else [])
    {
      ClearStaleEls(deactivated, activated);
      var first, tries, st := RenderElements(instances, activated);
      renders, passes, states := [first], [tries], [st];
      if status == Fulfilled && first.Some? {
        var second, tries', st' := RenderElements(instances, activated);
        renders, passes, states := renders + [second], passes + [tries'], states + [st'];
      }
    }

    /** One `renderElements` call over `q`: a chained run, complete unless its last synchronous step threw `failure`. */
    static ghost predicate ChainPass(q: seq<RouteInstance>, tries: seq<seq<Try>>, st: seq<ChainStatus>, failure: Option<RouteError>)
    {
      && ChainedTries(tries, st) && |tries| <= |q|
      && (failure.None? ==> |tries| == |q|)
      && (failure.Some? <==> |tries| > 0 && EscapesAt(tries, st, |tries| - 1))
      && (failure.Some? ==> failure == Some(tries[|tries| - 1][0].result.error))
      && forall k :: 0 <= k < |tries| - 1 ==> !EscapesAt(tries, st, k)
    }

    /**
     * Before rendering, the deactivated instances lose their element: in
     * router.js only those that are not activated again, in the adapter all.
     */
    method ClearStaleEls(deactivated: seq<RouteInstance>, activated: seq<RouteInstance>)
      modifies deactivated`el
      ensures forall x :: x in deactivated ==>
        x.el == if variant == Cherrytree || x !in activated then null else old(x.el)
    {
      var i := 0;
      while i < |deactivated|
        invariant 0 <= i <= |deactivated|
        invariant forall x :: x in deactivated[..i] ==>
          x.el == if variant == Cherrytree || x !in activated then null else old(x.el)
        invariant forall x :: x in deactivated && x !in deactivated[..i] ==> x.el == old(x.el)
      {
        var x := deactivated[i];
        if variant == Cherrytree || x !in activated {
          x.el := null;
        }
        assert deactivated[..i + 1] == deactivated[..i] + [x];
        i := i + 1;
      }
      assert deactivated[..i] == deactivated;
    }

    /**
     * `getParentRegion`: walking up from the route's parent, the outlet of the
     * first ancestor that has an element and an outlet (an error when that
     * element has no outlet), else the root outlet. Every ancestor passed on
     * the way loses its element; nothing else changes but the outlet cache of
     * the ancestor found.
     */
    method GetParentRegion(routes: seq<RouteInstance>, route: RouteInstance) returns (r: Result<Dom.Region?, RouteError>, ghost p: int)
      requires Tracks(routes) && DomClosed()
      modifies this`regions, routes`el, elements`outletRegion
      ensures Tracks(routes) && DomClosed() && DomGrown()
      ensures r.Ok? && r.value != null ==> r.value in regions
      ensures p == old(ParentWithOutlet(routes, IndexOf(routes, route) - 1))
      ensures p < 0 ==> r == Ok(rootOutlet)
      ensures p >= 0 ==>
        var e := old(routes[p].el);
        && routes[p].el == e
        && (old(e.outletRegion) != null ==> r == Ok(old(e.outletRegion)))
        && (old(e.outletRegion) == null && OutletSelector(routes[p].cls) in e.spec.outlets ==>
              r.Ok? && r.value != null && fresh(r.value) && r.value.shown == null
              && r.value.node == Dom.OutletNode(e, OutletSelector(routes[p].cls)))
        && (old(e.outletRegion) == null && OutletSelector(routes[p].cls) !in e.spec.outlets ==>
              r == Err(NoOutletIn(routes[p].name)))
        && (r.Ok? ==> r.value == e.outletRegion)
      ensures forall j :: p < j < IndexOf(routes, route) && 0 <= j ==> routes[j].el == null
      ensures route in routes ==> route.el == old(route.el)
      ensures forall x :: x in routes && x.el != old(x.el) ==>
        x.el == null && exists j :: p < j < IndexOf(routes, route) && 0 <= j && routes[j] == x
      ensures forall e :: e in elements && e.outletRegion != old(e.outletRegion) ==>
        p >= 0 && e == old(routes[p].el) && old(e.outletRegion) == null && fresh(e.outletRegion)
    {
      var i := ClimbToParent(routes, IndexOf(routes, route) - 1);
      p := i;
      if i < 0 {
        return Ok(rootOutlet), p;
      }
      r := ParentOutlet(routes[i]);
    }

    /** How `getParentRegion` ends at an ancestor with an element: the element's outlet, or an error when it has none. */
    method ParentOutlet(parent: RouteInstance) returns (r: Result<Dom.Region?, RouteError>)
      requires parent.el != null && parent.el in elements && DomClosed()
      modifies this`regions, parent.el`outletRegion
      ensures DomClosed() && DomGrown() && elements == old(elements)
      ensures var e := parent.el;
        && (old(e.outletRegion) != null ==> r == Ok(old(e.outletRegion)))
        && (old(e.outletRegion) == null && OutletSelector(parent.cls) in e.spec.outlets ==>
              r.Ok? && r.value != null && fresh(r.value) && r.value.shown == null
              && r.value.node == Dom.OutletNode(e, OutletSelector(parent.cls)))
        && (old(e.outletRegion) == null && OutletSelector(parent.cls) !in e.spec.outlets ==>
              r == Err(NoOutletIn(parent.name)))
        && (r.Ok? ==> r.value != null && r.value == e.outletRegion && r.value in regions)
        && (e.outletRegion != old(e.outletRegion) ==> old(e.outletRegion) == null && fresh(e.outletRegion))
    {
      var region := parent.GetOutlet();
      if region == null {
        return Err(NoOutletIn(parent.name));
      }
      regions := regions + {region};
      r := Ok(region);
    }

    /**
     * The loop of `getParentRegion`, from position `k` upwards: an ancestor
     * without an element, or whose route has `outlet: false`, loses its
     * element and is passed; the position where the walk stops, or -1.
     */
    static method ClimbToParent(routes: seq<RouteInstance>, k: int) returns (p: int)
      requires k < |routes|
      modifies routes`el
      ensures p == old(ParentWithOutlet(routes, k))
      ensures p >= 0 ==> routes[p].el == old(routes[p].el)
      ensures forall j :: p < j <= k && 0 <= j ==> routes[j].el == null
      ensures forall x :: x in routes && x.el != old(x.el) ==> x.el == null && exists j :: p < j <= k && 0 <= j && routes[j] == x
    {
      var routeIndex := k;
      while routeIndex >= 0
        invariant routeIndex <= k
        invariant old(ParentWithOutlet(routes, k)) == old(ParentWithOutlet(routes, routeIndex))
        invariant forall j :: routeIndex < j <= k && 0 <= j ==> routes[j].el == null
        invariant forall j :: 0 <= j <= routeIndex ==>
          routes[j].el == old(routes[j].el) || (routes[j].el == null && !old(Eligible(routes[j])))
        invariant forall x :: x in routes && x.el != old(x.el) ==>
          x.el == null && exists j :: routeIndex < j <= k && 0 <= j && routes[j] == x
      {
        var parent := routes[routeIndex];
        if parent.el != null && !parent.options.outletFalse {
          return routeIndex;
        }
        parent.el := null;
        routeIndex := routeIndex - 1;
      }
      p := -1;
    }

    /**
     * One step of the render `reduce`: `getParentRegion`, then `renderEl` in
     * the region found; an error of either is the step's error. The step
     * returns the element's `updateComplete`. Elements and outlet regions
     * that appear are new ones.
     */
    method RenderStep(instances: seq<RouteInstance>, x: RouteInstance) returns (t: Try)
      requires x in instances && Tracks(instances) && DomClosed()
      modifies this`log, this`elements, this`regions, instances`el, elements`outletRegion, regions
      ensures log == old(log) + [Rendered(x.name, t.result)]
      ensures t.result.Ok? ==> x.el != null && t.update == x.el.spec.updates
      ensures t.result.Err? ==> t.update == Dom.NoUpdate
      ensures var p := old(ParentWithOutlet(instances, IndexOf(instances, x) - 1));
        p >= 0 && old(instances[p].el.outletRegion) == null && OutletSelector(instances[p].cls) !in old(instances[p].el.spec.outlets) ==>
          t.result == Err(NoOutletIn(instances[p].name))
      ensures var p := old(ParentWithOutlet(instances, IndexOf(instances, x) - 1));
        var region := if p < 0 then rootOutlet else old(instances[p].el).outletRegion;
        var keep := old(x.el) != null && x.cls.hooks.updateEl;
        var spec := ElementFor(GetComponent(x));
        (p < 0 || old(instances[p].el.outletRegion) != null || OutletSelector(instances[p].cls) in old(instances[p].el.spec.outlets)) ==>
          && (keep ==> t.result == Ok(Kept))
          && (!keep && spec.None? ==> t.result == Err(InvalidComponent(x.cls.name)))
          && (!keep && spec.Some? && region == null ==> t.result == Err(NoRootOutlet))
          && (!keep && spec.Some? && region != null ==>
                t.result == Ok(Mounted) && x.el.spec == spec.value && region.shown == x.el)
      ensures t.result == Ok(Kept) ==> x.el == old(x.el)
      ensures t.result == Ok(Mounted) ==> fresh(x.el)
      ensures Tracks(instances) && DomClosed() && DomGrown()
    {
      var parent, _ := GetParentRegion(instances, x);
      var result: Result<RenderStatus, RouteError>;
      if parent.Err? {
        result := Err(parent.error);
      } else {
        result := Mount(instances, x, parent.value);
      }
      log := log + [Rendered(x.name, result)];
      t := Try(result, if result.Ok? then x.el.spec.updates else Dom.NoUpdate);
    }

    /** `renderEl` in a known region (or none), with its outcomes; a new element becomes a known one. */
    method Mount(instances: seq<RouteInstance>, x: RouteInstance, region: Dom.Region?) returns (result: Result<RenderStatus, RouteError>)
      requires x in instances && Tracks(instances) && DomClosed() && (region != null ==> region in regions)
      modifies this`elements, x`el, region
      ensures Tracks(instances) && DomClosed() && DomGrown()
      ensures result.Ok? ==> x.el != null
      ensures var keep := old(x.el) != null && x.cls.hooks.updateEl;
        var spec := ElementFor(GetComponent(x));
        && (keep ==> result == Ok(Kept) && x.el == old(x.el))
        && (!keep && spec.None? ==> result == Err(InvalidComponent(x.cls.name)))
        && (!keep && spec.Some? && region == null ==> result == Err(NoRootOutlet))
        && (!keep && spec.Some? && region != null ==>
              && result == Ok(Mounted) && fresh(x.el)
              && x.el.spec == spec.value && x.el.props == x.options.properties && region.shown == x.el)
    {
      result := x.RenderEl(region);
      if result == Ok(Mounted) {
        elements := elements + {x.el};
      }
    }

    /** The queue's `reduce`: a component-bearing candidate pops a queued outlet-less one, then is pushed. */
    static method BuildQueue(candidates: seq<RouteInstance>) returns (queue: seq<RouteInstance>)
      ensures queue == RenderQueue(candidates)
    {
      queue := [];
      var i := 0;
      while i < |candidates|
        invariant 0 <= i <= |candidates|
        invariant queue == RenderQueue(candidates[..i])
      {
        var x := candidates[i];
        assert candidates[..i + 1][..i] == candidates[..i];
        if GetComponent(x).Some? {
          if |queue| > 0 && queue[|queue| - 1].options.outletFalse {
            queue := queue[..|queue| - 1];
          }
          queue := queue + [x];
        }
        i := i + 1;
      }
      assert candidates[..i] == candidates;
    }

    /**
     * `renderElements`: the render queue of the candidates, rendered step
     * after step by RenderChain.
     */
    method RenderElements(instances: seq<RouteInstance>, activated: seq<RouteInstance>)
        returns (failure: Option<RouteError>, ghost tries: seq<seq<Try>>, ghost st: seq<ChainStatus>)
      requires forall y :: y in activated ==> y in instances
      requires Tracks(instances) && DomClosed()
      modifies this`log, this`elements, this`regions, instances`el, elements`outletRegion, regions
      ensures var q := RenderQueue(Candidates(instances, activated));
        ChainPass(q, tries, st, failure) && log == old(log) + RenderTrace(q, tries)
      ensures Tracks(instances) && DomClosed() && DomGrown()
    {
      var queue := BuildQueue(Candidates(instances, activated));
      RenderQueueFromCandidates(Candidates(instances, activated));
      failure, tries, st := RenderChain(instances, queue);
    }

    /**
     * The render `reduce` over `queue`. `tries[k]` are the attempts of the
     * `k`-th step and `st[k]` the chain before it. A step that runs while no
     * promise was returned yet runs synchronously, and its error leaves
     * `renderElements`; once a step returned a promise the rest is chained
     * with `then(step).catch(step)` and what fails there is lost with the
     * discarded promise.
     */
    method RenderChain(instances: seq<RouteInstance>, queue: seq<RouteInstance>)
        returns (failure: Option<RouteError>, ghost tries: seq<seq<Try>>, ghost st: seq<ChainStatus>)
      requires forall y :: y in queue ==> y in instances
      requires Tracks(instances) && DomClosed()
      modifies this`log, this`elements, this`regions, instances`el, elements`outletRegion, regions
      ensures ChainPass(queue, tries, st, failure)
      ensures log == old(log) + RenderTrace(queue, tries)
      ensures Tracks(instances) && DomClosed() && DomGrown()
    {
      tries, st := [], [Unstarted];
      ghost var start, trace := log, [];
      var status := Unstarted;
      var i := 0;
      while i < |queue|
        invariant 0 <= i <= |queue| && |tries| == i && |st| == i + 1 && status == st[i]
        invariant ChainSoFar(queue, tries, st, trace) && log == start + trace
        invariant Tracks(instances) && DomClosed() && DomGrown()
      {
        var x := queue[i];
        var attempts := RenderAttempts(instances, x, status);
        ghost var more := RenderedOf(x, attempts);
        assert log == start + (trace + more);
        ChainGrows(queue, tries, st, trace, attempts);
        var next := StepStatus(status, attempts[|attempts| - 1]);
        tries, st, trace := tries + [attempts], st + [next], trace + more;
        if status.Unstarted? && attempts[0].result.Err? {
          return Some(attempts[0].result.error), tries, st;
        }
        status := next;
        i := i + 1;
      }
      failure := None;
    }

    /** A step of the render chain after `status`: run once, and once more in the `catch` when it failed after a fulfilled promise. */
    method RenderAttempts(instances: seq<RouteInstance>, x: RouteInstance, status: ChainStatus) returns (attempts: seq<Try>)
      requires x in instances && Tracks(instances) && DomClosed()
      modifies this`log, this`elements, this`regions, instances`el, elements`outletRegion, regions
      ensures 1 <= |attempts| <= 2 && (|attempts| == 2 <==> status == Fulfilled && !Succeeded(attempts[0]))
      ensures log == old(log) + RenderedOf(x, attempts)
      ensures Tracks(instances) && DomClosed() && DomGrown()
    {
      var first := RenderStep(instances, x);
      attempts := [first];
      if status == Fulfilled && !Succeeded(first) {
        var again := RenderStep(instances, x);
        attempts := [first, again];
      }
    }

    /**
     * The bookkeeping of the build loop after the first `|res|` routes, with
     * `m0` the cache before the phase and `m` the cache now: each entry is the
     * cached instance of its route, nothing cached before is replaced, and
     * the first route of a name not cached before is not cached yet when the
     * loop reaches it.
     */
    static ghost predicate Cached(routes: seq<RouteDesc>, res: seq<RouteInstance>,
                                  m0: map<string, RouteInstance>, m: map<string, RouteInstance>)
    {
      && |res| <= |routes|
      && (forall j :: 0 <= j < |res| ==> routes[j].name in m && res[j] == m[routes[j].name])
      && (forall n :: n in m0 ==> n in m && m[n] == m0[n])
      && (forall k :: |res| <= k < |routes| && FirstOccurrence(routes, k) && routes[k].name !in m0 ==> routes[k].name !in m)
    }

    /** The next route reuses its cached instance, or caches a new one under a name not cached before. */
    static lemma CachedStep(routes: seq<RouteDesc>, res: seq<RouteInstance>, m0: map<string, RouteInstance>,
                            m: map<string, RouteInstance>, x: RouteInstance, m': map<string, RouteInstance>)
      requires Cached(routes, res, m0, m) && |res| < |routes|
      requires var n := routes[|res|].name;
        (n in m && m[n] == x && m' == m) || (n !in m && m' == m[n := x])
      ensures Cached(routes, res + [x], m0, m')
    {
      var n := routes[|res|].name;
      forall j | 0 <= j <= |res|
        ensures routes[j].name in m' && (res + [x])[j] == m'[routes[j].name]
      {
        if j < |res| {
          assert (res + [x])[j] == res[j];
        }
      }
      forall k | |res| + 1 <= k < |routes| && FirstOccurrence(routes, k) && routes[k].name !in m0
        ensures routes[k].name !in m'
      {
        assert routes[k].name != routes[|res|].name;
      }
    }

    /** The render chain after its first `|tries|` steps, none of which escaped, and their trace. */
    static ghost predicate ChainSoFar(queue: seq<RouteInstance>, tries: seq<seq<Try>>, st: seq<ChainStatus>, trace: seq<Obs>)
    {
      && ChainedTries(tries, st) && |tries| <= |queue|
      && trace == RenderTrace(queue, tries)
      && forall k :: 0 <= k < |tries| ==> !EscapesAt(tries, st, k)
    }

    /** One more step of the render chain: it escapes exactly when no promise exists yet and it fails. */
    static lemma ChainGrows(queue: seq<RouteInstance>, tries: seq<seq<Try>>, st: seq<ChainStatus>, trace: seq<Obs>, attempts: seq<Try>)
      requires ChainSoFar(queue, tries, st, trace) && |tries| < |queue|
      requires |attempts| > 0 && |attempts| == AttemptCount(st[|tries|], Succeeded(attempts[0]))
      ensures var tries', st' := tries + [attempts], st + [StepStatus(st[|tries|], attempts[|attempts| - 1])];
        var trace' := trace + RenderedOf(queue[|tries|], attempts);
        && ChainedTries(tries', st') && trace' == RenderTrace(queue, tries')
        && (forall k :: 0 <= k < |tries| ==> !EscapesAt(tries', st', k))
        && (EscapesAt(tries', st', |tries|) <==> st[|tries|].Unstarted? && attempts[0].result.Err?)
        && (!EscapesAt(tries', st', |tries|) ==> ChainSoFar(queue, tries', st', trace'))
    {
      ChainedTriesSnoc(tries, st, attempts);
      RenderTraceSnoc(queue, tries, attempts);
    }

    /** Appending a step to a chained run. */
    static lemma ChainedTriesSnoc(tries: seq<seq<Try>>, st: seq<ChainStatus>, attempts: seq<Try>)
      requires ChainedTries(tries, st)
      requires |attempts| > 0 && |attempts| == AttemptCount(st[|tries|], Succeeded(attempts[0]))
      ensures var tries', st' := tries + [attempts], st + [StepStatus(st[|tries|], attempts[|attempts| - 1])];
        && ChainedTries(tries', st')
        && (forall k :: 0 <= k < |tries| ==> (EscapesAt(tries', st', k) <==> EscapesAt(tries, st, k)))
        && (EscapesAt(tries', st', |tries|) <==> st[|tries|].Unstarted? && attempts[0].result.Err?)
    {
      var tries': seq<seq<Try>>, st': seq<ChainStatus> := tries + [attempts], st + [StepStatus(st[|tries|], attempts[|attempts| - 1])];
      forall k | 0 <= k < |tries'|
        ensures |tries'[k]| > 0 && |tries'[k]| == AttemptCount(st'[k], Succeeded(tries'[k][0]))
        ensures st'[k + 1] == StepStatus(st'[k], tries'[k][|tries'[k]| - 1])
      {
        if k < |tries| {
          assert tries'[k] == tries[k] && st'[k] == st[k] && st'[k + 1] == st[k + 1];
        }
      }
    }

    /** The trace of one more step. */
    static lemma RenderTraceSnoc(q: seq<RouteInstance>, tries: seq<seq<Try>>, attempts: seq<Try>)
      requires |tries| < |q|
      ensures RenderTrace(q, tries + [attempts]) == RenderTrace(q, tries) + RenderedOf(q[|tries|], attempts)
    {
      assert (tries + [attempts])[..|tries|] == tries;
    }

    /** `res.push(x)`: the entries built so far keep their prefixes, which are the ancestors of later routes. */
    static lemma AppendKeepsPrefixes(res: seq<RouteInstance>, x: RouteInstance)
      ensures forall j :: 0 <= j <= |res| ==> (res + [x])[..j] == res[..j]
    {
      forall j | 0 <= j <= |res|
        ensures (res + [x])[..j] == res[..j]
      {
        assert (res + [x])[..j] == res[..j];
      }
    }

    /** Appending one instance adds its `before:<method>` event at the end. */
    static lemma {:induction false} BeforeEventsSnoc(routes: seq<RouteInstance>, x: RouteInstance, kind: HookKind)
      ensures BeforeEvents(routes + [x], kind) == BeforeEvents(routes, kind) + [Emitted(BeforeHook(kind, x.name))]
    {
      var l, r := BeforeEvents(routes + [x], kind), BeforeEvents(routes, kind) + [Emitted(BeforeHook(kind, x.name))];
      assert |l| == |r|;
      forall j | 0 <= j < |l|
        ensures l[j] == r[j]
      {
        if j < |routes| {
          assert (routes + [x])[j] == routes[j];
        }
      }
    }

    static lemma BeforeCancelsSnoc(routes: seq<RouteInstance>, x: RouteInstance, kind: HookKind, listeners: set<Event>)
      ensures BeforeCancels(routes + [x], kind, listeners) == (BeforeCancels(routes, kind, listeners) || BeforeHook(kind, x.name) in listeners)
    {
      if BeforeCancels(routes + [x], kind, listeners) {
        var i :| 0 <= i < |routes| + 1 && BeforeHook(kind, (routes + [x])[i].name) in listeners;
        if i < |routes| {
          assert (routes + [x])[i] == routes[i];
        }
      }
      if BeforeCancels(routes, kind, listeners) {
        var i :| 0 <= i < |routes| && BeforeHook(kind, routes[i].name) in listeners;
        assert (routes + [x])[i] == routes[i];
      }
      if BeforeHook(kind, x.name) in listeners {
        assert (routes + [x])[|routes|] == x;
      }
    }
  }

  /** `getMnRoutes` of the adapter: each route's cached instance by name (`undefined` when none), in order. */
  function GetMnRoutes(cache: map<string, RouteInstance>, routes: seq<RouteDesc>): seq<Option<RouteInstance>>
  {
    seq(|routes|, j requires 0 <= j < |routes| => if routes[j].name in cache then Some(cache[routes[j].name]) else None)
  }

  /** After a complete build phase, `getMnRoutes` of the transition's routes gives back the instance list. */
  lemma MnRoutesAfterBuild(routes: seq<RouteDesc>, res: seq<RouteInstance>, m0: map<string, RouteInstance>, m: map<string, RouteInstance>)
    requires Router.Cached(routes, res, m0, m) && |res| == |routes|
    ensures GetMnRoutes(m, routes) == seq(|res|, j requires 0 <= j < |res| => Some(res[j]))
  {
  }

  /** Where the root outlet comes from. */
  datatype OutletChoice = NoRoot | NewRegion(node: Dom.Node) | KeepRegion(region: Dom.Region)

  /**
   * The constructor's treatment of the root outlet: router.js defaults the
   * option to 'app-root', the adapter has no default; a falsy value (the
   * empty string among them) means no root outlet; a string is looked up in
   * the page (`document.querySelector`), and anything that then is neither
   * an element nor a region is invalid.
   */
  function ChooseOutlet(variant: Variant, outlet: OutletArg, page: map<string, Dom.Node>): (c: Result<OutletChoice, RouterError>)
  {
    var given := if outlet.Unset? && variant == Nextbone then Selector("app-root") else outlet;
    match given
    case Unset => Ok(NoRoot)
    case Falsy => Ok(NoRoot)
    case Selector(sel) =>
      if sel == "" then Ok(NoRoot)
      else if sel in page then Ok(NewRegion(page[sel]))
      else Err(InvalidOutlet)
    case HtmlElement(node) => Ok(NewRegion(node))
    case GivenRegion(region) => Ok(KeepRegion(region))
    case OtherValue => Err(InvalidOutlet)
  }

  /** router.js without an `outlet` option behaves as with `outlet: 'app-root'`; the adapter then has no root outlet. */
  lemma DefaultOutlet(page: map<string, Dom.Node>)
    ensures ChooseOutlet(Nextbone, Unset, page) == ChooseOutlet(Nextbone, Selector("app-root"), page)
    ensures ChooseOutlet(Cherrytree, Unset, page) == Ok(NoRoot)
    ensures ChooseOutlet(Nextbone, Unset, page).Ok? <==> "app-root" in page
  {
  }

  /** A selector is an error exactly when it is non-empty and matches nothing; a region or an element is never one. */
  lemma OutletErrors(variant: Variant, outlet: OutletArg, page: map<string, Dom.Node>)
    requires !outlet.Unset?
    ensures ChooseOutlet(variant, outlet, page).Err? <==>
      outlet.OtherValue? || (outlet.Selector? && outlet.s != "" && outlet.s !in page)
    ensures outlet.GivenRegion? ==> ChooseOutlet(variant, outlet, page) == Ok(KeepRegion(outlet.region))
  {
  }

  /** The module-level `router` singleton of router.js (or of the adapter). */
  class Registry {
    var current: Router?

    constructor ()
      ensures current == null
    {
      current := null;
    }

    /**
     * `new Router(options)` (`new Router(options, renderRoot)` in the
     * adapter): refused while a router exists; otherwise the root outlet is
     * chosen, and an invalid one is refused before the router is registered.
     */
    method CreateRouter(variant: Variant, base: RouteClass, listeners: set<Event>, outlet: OutletArg, page: map<string, Dom.Node>)
        returns (r: Result<Router, RouterError>)
      requires IsBaseRoute(base)
      modifies this
      ensures old(current) != null ==> r == Err(AlreadyCreated) && current == old(current)
      ensures old(current) == null ==>
        var c := ChooseOutlet(variant, outlet, page);
        && (r.Ok? <==> c.Ok?)
        && (r.Err? ==> r.error == c.error && current == null)
        && (r.Ok? ==>
              var x := r.value;
              && fresh(x) && current == x && x.Valid()
              && x.variant == variant && x.base == base && x.listeners == listeners
              && x.instanceMap == map[] && x.log == []
              && x.middleware == (if variant == Nextbone then [Core, RouterLinks] else [Core])
              && (c.value.NoRoot? ==> x.rootOutlet == null)
              && (c.value.KeepRegion? ==> x.rootOutlet == c.value.region)
              && (c.value.NewRegion? ==>
                    x.rootOutlet != null && fresh(x.rootOutlet) && x.rootOutlet.node == c.value.node && x.rootOutlet.shown == null))
    {
      if current != null {
        return Err(AlreadyCreated);
      }
      var c := ChooseOutlet(variant, outlet, page);
      if c.Err? {
        return Err(c.error);
      }
      var root: Dom.Region? := null;
      if c.value.NewRegion? {
        root := new Dom.Region(c.value.node);
      } else if c.value.KeepRegion? {
        root := c.value.region;
      }
      var x := new Router(variant, base, listeners, root);
      current := x;
      r := Ok(x);
    }

    /** `destroy`: the listeners are removed, the singleton cleared and the instance cache emptied. */
    method Destroy(x: Router)
      modifies this, x`listeners, x`instanceMap
      ensures current == null && x.listeners == {} && x.instanceMap == map[] && x.Valid()
    {
      x.listeners := {};
      current := null;
      x.instanceMap := map[];
    }
  }
}
