/**
 * The decisions the transition middleware of src/router.js (and of its older
 * copy src/cherrytree-adapter.js) takes, as functions of the transition's
 * route lists and the instance cache. The imperative middleware in
 * module RouterEngine is proved against these.
 */
module Lifecycle {
  import opened Wrappers
  import opened Route
  import Dom

  /** router.js, or the older cherrytree-adapter.js that src/index.js exports. */
  datatype Variant = Nextbone | Cherrytree

  /** The router's events. */
  datatype Event =
    | BeforeTransition
    | BeforeHook(kind: HookKind, route: string)
    | AfterHook(kind: HookKind, route: string)
    | TransitionDone
    | TransitionAbort
    | TransitionFailed

  /** What an observer of the router sees, in order: events, hook calls, loads, renders. */
  datatype Obs =
    | Emitted(event: Event)
    | Called(kind: HookKind, route: string)
    | Loaded(route: string)
    | Rendered(route: string, result: Result<RenderStatus, RouteError>)

  // ---------------------------------------------------------------- changing index

  /** Two segments match when their names are equal and their params are equal. */
  predicate SameSegment(a: RouteDesc, b: RouteDesc)
  {
    a.name == b.name && a.params == b.params
  }

  /** `getChangingIndex`: the length of the longest common prefix of matching segments. */
  function ChangingIndex(prev: seq<RouteDesc>, next: seq<RouteDesc>): (ci: nat)
    ensures ci <= |prev| && ci <= |next|
    ensures forall i :: 0 <= i < ci ==> SameSegment(prev[i], next[i])
    ensures ci < |prev| && ci < |next| ==> !SameSegment(prev[ci], next[ci])
  {
    if |prev| == 0 || |next| == 0 || !SameSegment(prev[0], next[0]) then 0
    else 1 + ChangingIndex(prev[1..], next[1..])
  }

  /**
   * The changing index is the first position where one list has run out or
   * the segments differ: any `k` with that property is the changing index.
   */
  lemma {:induction false} ChangingIndexIsFirstMismatch(prev: seq<RouteDesc>, next: seq<RouteDesc>, k: nat)
    requires k <= |prev| && k <= |next|
    requires forall i :: 0 <= i < k ==> SameSegment(prev[i], next[i])
    requires k == |prev| || k == |next| || !SameSegment(prev[k], next[k])
    ensures ChangingIndex(prev, next) == k
  {
    if k > 0 {
      assert SameSegment(prev[0], next[0]);
      forall i | 0 <= i < k - 1
        ensures SameSegment(prev[1..][i], next[1..][i])
      {
        assert SameSegment(prev[i + 1], next[i + 1]);
      }
      ChangingIndexIsFirstMismatch(prev[1..], next[1..], k - 1);
    }
  }

  // ---------------------------------------------------------------- deactivation list

  /** The cached instance of `d`, as a list of zero or one elements. */
  function CachedOf(d: RouteDesc, cache: map<string, RouteInstance>): seq<RouteInstance>
  {
    if d.name in cache then [cache[d.name]] else []
  }

  /** The cached instances of `prev[lo..hi]`, from `hi - 1` down to `lo`. */
  function CachedDown(prev: seq<RouteDesc>, cache: map<string, RouteInstance>, lo: nat, hi: nat): seq<RouteInstance>
    requires hi <= |prev|
    decreases hi - lo
  {
    if lo >= hi then [] else CachedDown(prev, cache, lo + 1, hi) + CachedOf(prev[lo], cache)
  }

  /** The positions `CachedDown` picks, in the same order. */
  function CachedPositions(prev: seq<RouteDesc>, cache: map<string, RouteInstance>, lo: nat, hi: nat): seq<nat>
    requires hi <= |prev|
    decreases hi - lo
  {
    if lo >= hi then [] else CachedPositions(prev, cache, lo + 1, hi) + (if prev[lo].name in cache then [lo] else [])
  }

  /** The instances to deactivate: cached instances of `prev` from the leaf down to the changing index. */
  function Deactivated(prev: seq<RouteDesc>, cache: map<string, RouteInstance>, ci: nat): seq<RouteInstance>
  {
    CachedDown(prev, cache, ci, |prev|)
  }

  /** The `j`-th entry of the deactivation list is the cached instance of `prev[ps[j]]`, with `lo <= ps[j] < hi`. */
  lemma {:induction false} DeactivatedEntries(prev: seq<RouteDesc>, cache: map<string, RouteInstance>, lo: nat, hi: nat)
    requires hi <= |prev|
    decreases hi - lo
    ensures var ds, ps := CachedDown(prev, cache, lo, hi), CachedPositions(prev, cache, lo, hi);
      |ds| == |ps| &&
      forall j :: 0 <= j < |ps| ==> lo <= ps[j] < hi && prev[ps[j]].name in cache && ds[j] == cache[prev[ps[j]].name]
  {
    if lo < hi {
      DeactivatedEntries(prev, cache, lo + 1, hi);
    }
  }

  /** Every instance to deactivate comes from the cache. */
  lemma DeactivatedAreCached(prev: seq<RouteDesc>, cache: map<string, RouteInstance>, ci: nat)
    ensures forall y :: y in Deactivated(prev, cache, ci) ==> y in cache.Values
  {
    if ci <= |prev| {
      DeactivatedEntries(prev, cache, ci, |prev|);
    }
  }

  /** The deactivation list runs from the leaf upwards: its positions strictly decrease. */
  lemma {:induction false} DeactivatedLeafFirst(prev: seq<RouteDesc>, cache: map<string, RouteInstance>, lo: nat, hi: nat)
    requires hi <= |prev|
    decreases hi - lo
    ensures var ps := CachedPositions(prev, cache, lo, hi);
      forall j, k :: 0 <= j < k < |ps| ==> ps[j] > ps[k]
  {
    if lo < hi {
      DeactivatedLeafFirst(prev, cache, lo + 1, hi);
      DeactivatedEntries(prev, cache, lo + 1, hi);
    }
  }

  /** Every cached position at or after the changing index is deactivated. */
  lemma {:induction false} DeactivatedCovers(prev: seq<RouteDesc>, cache: map<string, RouteInstance>, lo: nat, hi: nat, p: nat)
    requires hi <= |prev| && lo <= p < hi && prev[p].name in cache
    decreases hi - lo
    ensures p in CachedPositions(prev, cache, lo, hi)
  {
    if p > lo {
      DeactivatedCovers(prev, cache, lo + 1, hi, p);
    }
  }

  /**
   * Positions before the changing index are never deactivated: when the
   * names of `prev` are distinct and the cache is keyed by name, the
   * instance of `prev[i]`, `i < ci`, is not in the list.
   */
  lemma PrefixNotDeactivated(prev: seq<RouteDesc>, cache: map<string, RouteInstance>, ci: nat, i: nat)
    requires ci <= |prev| && i < ci
    requires forall a, b :: 0 <= a < b < |prev| ==> prev[a].name != prev[b].name
    requires forall n :: n in cache ==> cache[n].name == n
    requires prev[i].name in cache
    ensures cache[prev[i].name] !in Deactivated(prev, cache, ci)
  {
    DeactivatedEntries(prev, cache, ci, |prev|);
    var ds, ps := CachedDown(prev, cache, ci, |prev|), CachedPositions(prev, cache, ci, |prev|);
    forall j | 0 <= j < |ds|
      ensures ds[j] != cache[prev[i].name]
    {
      assert prev[ps[j]].name != prev[i].name;
      assert ds[j].name == prev[ps[j]].name;
    }
  }

  // ---------------------------------------------------------------- class resolution

  /** The nearest ancestor (highest position) whose class declares `name` in `childRoutes`, or -1. */
  function NearestDeclaring(ancestors: seq<RouteClass>, name: string): (j: int)
    ensures -1 <= j < |ancestors|
    ensures j >= 0 ==> name in ancestors[j].childRoutes
    ensures forall k :: j < k < |ancestors| ==> name !in ancestors[k].childRoutes
  {
    if |ancestors| == 0 then -1
    else if name in ancestors[|ancestors| - 1].childRoutes then |ancestors| - 1
    else NearestDeclaring(ancestors[..|ancestors| - 1], name)
  }

  /** `findRouteClass`: `options.class`, else the nearest ancestor's `childRoutes[name]`. */
  function FindRouteClass(options: RouteOptions, name: string, ancestors: seq<RouteClass>): (r: Option<ClassRef>)
    ensures options.routeClass.Some? ==> r == options.routeClass
    ensures options.routeClass.None? ==>
      (r.Some? <==> exists j :: 0 <= j < |ancestors| && name in ancestors[j].childRoutes)
    ensures options.routeClass.None? && r.Some? ==>
      exists j :: 0 <= j < |ancestors| && name in ancestors[j].childRoutes && r.value == ancestors[j].childRoutes[name]
        && forall k :: j < k < |ancestors| ==> name !in ancestors[k].childRoutes
  {
    if options.routeClass.Some? then options.routeClass
    else
      var j := NearestDeclaring(ancestors, name);
      if j < 0 then None else Some(ancestors[j].childRoutes[name])
  }

  /** `createRouteInstance`'s choice of class: the given one unwrapped, else `Route` when a component is set. */
  function InstanceClass(def: Option<ClassDef>, options: RouteOptions, base: RouteClass): Option<RouteClass>
  {
    if def.Some? then Some(def.value.cls)
    else if options.component.Some? then Some(base)
    else None
  }

  datatype Resolution = Create(cls: RouteClass) | NoClass | RejectedFactory

  /**
   * `resolveRoute`: a lazy definition is called and its result, when truthy,
   * goes through `createRouteInstance`; anything else goes there directly.
   */
  function ResolveRoute(base: RouteClass, desc: RouteDesc, ancestors: seq<RouteClass>): (r: Resolution)
    ensures var found := FindRouteClass(desc.options, desc.name, ancestors);
      && (r.RejectedFactory? <==> found == Some(LazyClass(Rejects)))
      && (r.NoClass? <==> found == Some(LazyClass(YieldsNothing)) || (found.None? && desc.options.component.None?))
      && (found.None? && desc.options.component.Some? ==> r == Create(base))
      && (found.Some? && found.value.Direct? ==> r == Create(found.value.def.cls))
      && (found.Some? && found.value.LazyClass? && found.value.result.Yields? ==> r == Create(found.value.result.def.cls))
  {
    match FindRouteClass(desc.options, desc.name, ancestors)
    case Some(LazyClass(result)) =>
      (match result
       case Yields(def) => Create(InstanceClass(Some(def), desc.options, base).value)
       case YieldsNothing => NoClass
       case Rejects => RejectedFactory)
    case Some(Direct(def)) => Create(InstanceClass(Some(def), desc.options, base).value)
    case None =>
      var c := InstanceClass(None, desc.options, base);
      if c.Some? then Create(c.value) else NoClass
  }

  // ---------------------------------------------------------------- build phase

  /** The classes of the instances built so far: the ancestors `findRouteClass` searches for a later route. */
  function Classes(xs: seq<RouteInstance>): (cs: seq<RouteClass>)
    ensures |cs| == |xs| && forall j :: 0 <= j < |xs| ==> cs[j] == xs[j].cls
  {
    if |xs| == 0 then [] else Classes(xs[..|xs| - 1]) + [xs[|xs| - 1].cls]
  }

  /** No earlier segment has the name of `routes[j]`. */
  predicate FirstOccurrence(routes: seq<RouteDesc>, j: nat)
    requires j < |routes|
  {
    forall k :: 0 <= k < j ==> routes[k].name != routes[j].name
  }

  /** The first position at or after `i` with the name of `routes[j]`, given that none before `i` has it. */
  function FirstIndexFrom(routes: seq<RouteDesc>, j: nat, i: nat): (k: nat)
    requires i <= j < |routes|
    requires forall l :: 0 <= l < i ==> routes[l].name != routes[j].name
    ensures i <= k <= j && routes[k].name == routes[j].name && FirstOccurrence(routes, k)
    decreases j - i
  {
    if routes[i].name == routes[j].name then i else FirstIndexFrom(routes, j, i + 1)
  }

  /** The error the build phase fails with when no controller was created. */
  function ResolutionError(r: Resolution, name: string): RouteError
    requires !r.Create?
  {
    if r.RejectedFactory? then FactoryRejected(name) else UnableToCreate(name)
  }

  // ---------------------------------------------------------------- hook phases

  function OutcomeOf(r: RouteInstance, kind: HookKind): HookOutcome
  {
    if kind == Activate then r.cls.hooks.activate else r.cls.hooks.deactivate
  }

  /** Whether the hook's result cancels: `false` does so only in router.js. */
  predicate CancelsAfter(o: HookOutcome, v: Variant)
  {
    o == CallsCancel || (o == ReturnsFalse && v == Nextbone)
  }

  /** The `before:<method>` events, one per instance, in list order. */
  function BeforeEvents(routes: seq<RouteInstance>, kind: HookKind): (es: seq<Obs>)
    ensures |es| == |routes| && forall i :: 0 <= i < |routes| ==> es[i] == Emitted(BeforeHook(kind, routes[i].name))
  {
    if |routes| == 0 then [] else [Emitted(BeforeHook(kind, routes[0].name))] + BeforeEvents(routes[1..], kind)
  }

  /** Whether a listener cancels on one of these `before:<method>` events. */
  predicate BeforeCancels(routes: seq<RouteInstance>, kind: HookKind, listeners: set<Event>)
  {
    exists i :: 0 <= i < |routes| && BeforeHook(kind, routes[i].name) in listeners
  }

  /** The trace of a hook chain, how many hooks ran, whether it ended cancelled, and its failure. */
  datatype HookRun = HookRun(trace: seq<Obs>, ran: nat, cancelled: bool, failure: Option<RouteError>)

  /**
   * The hooks of `runAsyncMethod`, in order: each runs only while the
   * transition is not cancelled; after it the `<method>` event fires only if
   * the transition is still not cancelled; a throwing hook rejects the chain.
   */
  function RunHooks(routes: seq<RouteInstance>, kind: HookKind, v: Variant, cancelled: bool, listeners: set<Event>): (r: HookRun)
    ensures r.ran <= |routes|
  {
    if |routes| == 0 || cancelled then HookRun([], 0, cancelled, None)
    else
      var x := routes[0];
      var o := OutcomeOf(x, kind);
      if o == Throws then HookRun([Called(kind, x.name)], 1, false, Some(HookThrew(kind, x.name)))
      else if CancelsAfter(o, v) then HookRun([Called(kind, x.name)], 1, true, None)
      else
        var rest := RunHooks(routes[1..], kind, v, AfterHook(kind, x.name) in listeners, listeners);
        HookRun([Called(kind, x.name), Emitted(AfterHook(kind, x.name))] + rest.trace, 1 + rest.ran, rest.cancelled, rest.failure)
  }

  /**
   * The hooks that run are those of a prefix of the list; the chain stops
   * early only when the transition was cancelled or a hook failed; a hook
   * that cancels or throws is the last to run; a transition already
   * cancelled runs none.
   */
  lemma {:induction false} RunHooksShape(routes: seq<RouteInstance>, kind: HookKind, v: Variant, cancelled: bool, listeners: set<Event>)
    ensures var r := RunHooks(routes, kind, v, cancelled, listeners);
      && r.ran <= |routes|
      && (cancelled ==> r.ran == 0 && r.cancelled && r.failure.None?)
      && (r.ran < |routes| ==> r.cancelled || r.failure.Some?)
      && (forall j :: 0 <= j < r.ran - 1 ==>
           OutcomeOf(routes[j], kind) != Throws && !CancelsAfter(OutcomeOf(routes[j], kind), v))
      && (r.failure.Some? ==>
           r.ran > 0 && OutcomeOf(routes[r.ran - 1], kind) == Throws && r.failure == Some(HookThrew(kind, routes[r.ran - 1].name)))
      && (r.ran > 0 && r.failure.None? && CancelsAfter(OutcomeOf(routes[r.ran - 1], kind), v) ==> r.cancelled)
  {
    if |routes| > 0 && !cancelled {
      var x := routes[0];
      var o := OutcomeOf(x, kind);
      if o != Throws && !CancelsAfter(o, v) {
        var c' := AfterHook(kind, x.name) in listeners;
        RunHooksShape(routes[1..], kind, v, c', listeners);
        var rest := RunHooks(routes[1..], kind, v, c', listeners);
        forall j | 0 < j < rest.ran + 1
          ensures routes[j] == routes[1..][j - 1]
        {
        }
      }
    }
  }

  /** What one hook call leaves in the trace. */
  function HookTrace(x: RouteInstance, kind: HookKind, v: Variant): seq<Obs>
  {
    var o := OutcomeOf(x, kind);
    if o == Throws || CancelsAfter(o, v) then [Called(kind, x.name)]
    else [Called(kind, x.name), Emitted(AfterHook(kind, x.name))]
  }

  /** The `<method>` event follows a hook's call exactly when the hook neither threw nor cancelled. */
  lemma HookTraceEvent(x: RouteInstance, kind: HookKind, v: Variant)
    ensures var o := OutcomeOf(x, kind);
      && HookTrace(x, kind, v)[0] == Called(kind, x.name)
      && (Emitted(AfterHook(kind, x.name)) in HookTrace(x, kind, v) <==> o != Throws && !CancelsAfter(o, v))
  {
  }

  /** The traces of hooks that all ran, concatenated in list order. */
  function HookTraces(routes: seq<RouteInstance>, kind: HookKind, v: Variant): seq<Obs>
  {
    if |routes| == 0 then [] else HookTrace(routes[0], kind, v) + HookTraces(routes[1..], kind, v)
  }

  /** The chain's trace is the hooks' traces, one after another, for the hooks that ran. */
  lemma {:induction false} RunHooksTrace(routes: seq<RouteInstance>, kind: HookKind, v: Variant, cancelled: bool, listeners: set<Event>)
    ensures var r := RunHooks(routes, kind, v, cancelled, listeners);
      r.trace == HookTraces(routes[..r.ran], kind, v)
  {
    if |routes| > 0 && !cancelled {
      var x := routes[0];
      var o := OutcomeOf(x, kind);
      if o == Throws || CancelsAfter(o, v) {
        assert routes[..1] == [x];
        assert HookTraces([x], kind, v) == HookTrace(x, kind, v) + HookTraces([], kind, v);
      } else {
        var c' := AfterHook(kind, x.name) in listeners;
        RunHooksTrace(routes[1..], kind, v, c', listeners);
        var rest := RunHooks(routes[1..], kind, v, c', listeners);
        var taken := routes[..rest.ran + 1];
        assert taken[0] == x && taken[1..] == routes[1..][..rest.ran];
      }
    } else {
      assert routes[..0] == [];
    }
  }

  /**
   * Every hook that ran and neither threw nor cancelled is followed by its
   * `<method>` event; a last hook that threw or cancelled leaves its call as
   * the last entry of the trace, so no `<method>` event follows it.
   */
  lemma {:induction false} RunHooksEvents(routes: seq<RouteInstance>, kind: HookKind, v: Variant, cancelled: bool, listeners: set<Event>)
    ensures var r := RunHooks(routes, kind, v, cancelled, listeners);
      && (forall j :: 0 <= j < r.ran && OutcomeOf(routes[j], kind) != Throws && !CancelsAfter(OutcomeOf(routes[j], kind), v) ==>
           Emitted(AfterHook(kind, routes[j].name)) in r.trace)
      && (r.ran > 0 && (OutcomeOf(routes[r.ran - 1], kind) == Throws || CancelsAfter(OutcomeOf(routes[r.ran - 1], kind), v)) ==>
           |r.trace| > 0 && r.trace[|r.trace| - 1] == Called(kind, routes[r.ran - 1].name))
  {
    if |routes| > 0 && !cancelled {
      var x := routes[0];
      var o := OutcomeOf(x, kind);
      if o != Throws && !CancelsAfter(o, v) {
        var c' := AfterHook(kind, x.name) in listeners;
        RunHooksEvents(routes[1..], kind, v, c', listeners);
        var rest := RunHooks(routes[1..], kind, v, c', listeners);
        var head := [Called(kind, x.name), Emitted(AfterHook(kind, x.name))];
        var r := RunHooks(routes, kind, v, cancelled, listeners);
        assert r.trace == head + rest.trace;
        forall j | 0 <= j < r.ran && OutcomeOf(routes[j], kind) != Throws && !CancelsAfter(OutcomeOf(routes[j], kind), v)
          ensures Emitted(AfterHook(kind, routes[j].name)) in r.trace
        {
          if j == 0 {
            assert r.trace[1] == Emitted(AfterHook(kind, x.name));
          } else {
            assert routes[j] == routes[1..][j - 1];
            assert Emitted(AfterHook(kind, routes[j].name)) in rest.trace;
          }
        }
        if r.ran > 1 {
          assert routes[r.ran - 1] == routes[1..][rest.ran - 1];
        }
      }
    }
  }

  /**
   * A listener that cancels on the `<method>` event of a hook that ran ends
   * the chain there: that hook is the last to run, and unless it threw, the
   * chain ends cancelled.
   */
  lemma {:induction false} ListenerCancelStops(routes: seq<RouteInstance>, kind: HookKind, v: Variant, cancelled: bool,
                                               listeners: set<Event>, j: nat)
    requires j < RunHooks(routes, kind, v, cancelled, listeners).ran
    requires AfterHook(kind, routes[j].name) in listeners
    ensures var r := RunHooks(routes, kind, v, cancelled, listeners);
      r.ran == j + 1 && (OutcomeOf(routes[j], kind) != Throws ==> r.cancelled)
  {
    var x := routes[0];
    var o := OutcomeOf(x, kind);
    if o != Throws && !CancelsAfter(o, v) {
      var c' := AfterHook(kind, x.name) in listeners;
      if j == 0 {
        assert c';
      } else {
        assert routes[1..][j - 1] == routes[j];
        ListenerCancelStops(routes[1..], kind, v, c', listeners, j - 1);
      }
    }
  }

  /** `runAsyncMethod`: every `before:<method>` event first, then the hooks. */
  function AsyncMethod(routes: seq<RouteInstance>, kind: HookKind, v: Variant, cancelled: bool, listeners: set<Event>): HookRun
  {
    var run := RunHooks(routes, kind, v, cancelled || BeforeCancels(routes, kind, listeners), listeners);
    HookRun(BeforeEvents(routes, kind) + run.trace, run.ran, run.cancelled, run.failure)
  }

  /** A transition already cancelled fires the `before:<method>` events and runs no hook. */
  lemma AsyncMethodWhenCancelled(routes: seq<RouteInstance>, kind: HookKind, v: Variant, listeners: set<Event>)
    ensures AsyncMethod(routes, kind, v, true, listeners) == HookRun(BeforeEvents(routes, kind), 0, true, None)
  {
    assert BeforeEvents(routes, kind) + [] == BeforeEvents(routes, kind);
  }

  /** The routes whose hook appears in a trace, in trace order. */
  function CallsOf(trace: seq<Obs>): seq<string>
  {
    if |trace| == 0 then []
    else (if trace[0].Called? then [trace[0].route] else []) + CallsOf(trace[1..])
  }

  function InstanceNames(routes: seq<RouteInstance>): (ns: seq<string>)
    ensures |ns| == |routes| && forall i :: 0 <= i < |routes| ==> ns[i] == routes[i].name
  {
    if |routes| == 0 then [] else [routes[0].name] + InstanceNames(routes[1..])
  }

  lemma {:induction false} CallsOfAppend(a: seq<Obs>, b: seq<Obs>)
    ensures CallsOf(a + b) == CallsOf(a) + CallsOf(b)
  {
    if |a| == 0 {
      assert a + b == b;
    } else {
      assert (a + b)[0] == a[0];
      assert (a + b)[1..] == a[1..] + b;
      CallsOfAppend(a[1..], b);
    }
  }

  /** The hook calls of the trace are exactly those of the first `ran` routes, in list order, each once. */
  lemma {:induction false} HookCallsInOrder(routes: seq<RouteInstance>, kind: HookKind, v: Variant, cancelled: bool, listeners: set<Event>)
    ensures var run := RunHooks(routes, kind, v, cancelled, listeners);
      CallsOf(run.trace) == InstanceNames(routes[..run.ran])
  {
    if |routes| > 0 && !cancelled {
      var x := routes[0];
      var o := OutcomeOf(x, kind);
      if o == Throws || CancelsAfter(o, v) {
        assert CallsOf([Called(kind, x.name)]) == [x.name];
        assert routes[..1] == [x];
      } else {
        var c' := AfterHook(kind, x.name) in listeners;
        HookCallsInOrder(routes[1..], kind, v, c', listeners);
        var rest := RunHooks(routes[1..], kind, v, c', listeners);
        var head := [Called(kind, x.name), Emitted(AfterHook(kind, x.name))];
        CallsOfAppend(head, rest.trace);
        assert CallsOf(head) == [x.name];
        var taken := routes[..rest.ran + 1];
        assert taken[1..] == routes[1..][..rest.ran];
        assert InstanceNames(taken) == [x.name] + InstanceNames(routes[1..][..rest.ran]);
      }
    }
  }

  /**
   * In cherrytree-adapter.js a hook that returns `false` does not stop the
   * chain: with no cancelling listener and no hook that throws or calls
   * `cancel`, every hook runs.
   */
  lemma {:induction false} FalseDoesNotCancelInAdapter(routes: seq<RouteInstance>, kind: HookKind)
    requires forall i :: 0 <= i < |routes| ==> OutcomeOf(routes[i], kind) in {Proceeds, ReturnsFalse}
    ensures var run := RunHooks(routes, kind, Cherrytree, false, {});
      run.ran == |routes| && !run.cancelled && run.failure.None?
  {
    if |routes| > 0 {
      FalseDoesNotCancelInAdapter(routes[1..], kind);
    }
  }

  /** In router.js a hook that returns `false` cancels the transition and is the last hook to run. */
  lemma FalseCancelsInRouter(routes: seq<RouteInstance>, kind: HookKind, listeners: set<Event>, j: nat)
    requires j < |routes| && OutcomeOf(routes[j], kind) == ReturnsFalse
    ensures var run := RunHooks(routes, kind, Nextbone, false, listeners);
      run.ran <= j + 1 && (run.failure.None? ==> run.cancelled)
  {
    RunHooksShape(routes, kind, Nextbone, false, listeners);
  }

  // ---------------------------------------------------------------- promise chains with a retry

  /** The state of a promise chain built by `reduce`: no promise yet, or the last one settled. */
  datatype ChainStatus = Unstarted | Fulfilled | Rejected

  /**
   * How often a step attached with `prev.then(step).catch(step)` runs: twice
   * when the previous promise fulfilled and the step failed (it runs again in
   * the `catch`), once otherwise (the `catch` alone runs after a rejection).
   */
  function RetryCount(prev: ChainStatus, ok: bool): nat
    requires !prev.Unstarted?
  {
    if prev == Fulfilled && !ok then 2 else 1
  }

  /** The chain after such a step: a step gives the same outcome each time it runs. */
  function AfterStep(ok: bool): ChainStatus
  {
    if ok then Fulfilled else Rejected
  }

  // ---------------------------------------------------------------- load phase

  /** The `load` behaviour of each instance, in list order. */
  function Loads(xs: seq<RouteInstance>): (ls: seq<LoadBehaviour>)
    ensures |ls| == |xs| && forall i :: 0 <= i < |xs| ==> ls[i] == xs[i].cls.hooks.load
  {
    if |xs| == 0 then [] else [xs[0].cls.hooks.load] + Loads(xs[1..])
  }

  /** The load calls (positions, in call order), the chain state, and the position whose `load` threw synchronously. */
  datatype LoadRun = LoadRun(calls: seq<nat>, status: ChainStatus, failure: Option<nat>)

  /**
   * The load phase over `ls[..n]`: the first `load` is called synchronously
   * (a throw escapes the render phase); each later one is attached with
   * `then(load).catch(load)`; instances without `load` are skipped.
   */
  function LoadChain(ls: seq<LoadBehaviour>, n: nat): LoadRun
    requires n <= |ls|
  {
    if n == 0 then LoadRun([], Unstarted, None)
    else
      var r := LoadChain(ls, n - 1);
      var b := ls[n - 1];
      if r.failure.Some? || b == NoLoad then r
      else if r.status == Unstarted && b == LoadThrows then LoadRun(r.calls + [n - 1], Unstarted, Some(n - 1))
      else LoadRun(r.calls + StepCalls(n - 1, r.status, b), AfterStep(b == LoadResolves), None)
  }

  /**
   * Only instances that have `load` are called, and only those of the list;
   * a synchronous failure is the one call made; an unstarted chain made none.
   */
  lemma LoadChainShape(ls: seq<LoadBehaviour>, n: nat)
    requires n <= |ls|
    ensures var r := LoadChain(ls, n);
      && (forall j :: 0 <= j < |r.calls| ==> r.calls[j] < n && ls[r.calls[j]] != NoLoad)
      && (r.failure.Some? ==> r.failure.value < n && r.calls == [r.failure.value] && ls[r.failure.value] == LoadThrows)
      && (r.status.Unstarted? && r.failure.None? ==> r.calls == [])
  {
    LoadCallsValid(ls, n);
    LoadFailureAlone(ls, n);
  }

  /** Every call is of an instance of the list that has `load`. */
  lemma {:induction false} LoadCallsValid(ls: seq<LoadBehaviour>, n: nat)
    requires n <= |ls|
    ensures forall j :: 0 <= j < |LoadChain(ls, n).calls| ==> LoadChain(ls, n).calls[j] < n && ls[LoadChain(ls, n).calls[j]] != NoLoad
  {
    if n > 0 {
      LoadCallsValid(ls, n - 1);
      var r, full := LoadChain(ls, n - 1), LoadChain(ls, n);
      var b := ls[n - 1];
      if r.failure.Some? || b == NoLoad {
        assert full == r;
      } else {
        var step := if r.status == Unstarted && b == LoadThrows then [n - 1] else StepCalls(n - 1, r.status, b);
        assert full.calls == r.calls + step;
        forall j | 0 <= j < |full.calls|
          ensures full.calls[j] < n && ls[full.calls[j]] != NoLoad
        {
          if j >= |r.calls| {
            assert full.calls[j] == step[j - |r.calls|];
          } else {
            assert full.calls[j] == r.calls[j];
          }
        }
      }
    }
  }

  /** A synchronous failure is the one call made; an unstarted chain made none. */
  lemma {:induction false} LoadFailureAlone(ls: seq<LoadBehaviour>, n: nat)
    requires n <= |ls|
    ensures var r := LoadChain(ls, n);
      && (r.failure.Some? ==> r.failure.value < n && r.calls == [r.failure.value] && ls[r.failure.value] == LoadThrows)
      && (r.status.Unstarted? && r.failure.None? ==> r.calls == [])
  {
    if n > 0 {
      LoadFailureAlone(ls, n - 1);
    }
  }

  /** One more instance of the list: the chain as LoadChain's definition extends it. */
  lemma LoadChainNext(ls: seq<LoadBehaviour>, i: nat)
    requires i < |ls|
    ensures LoadChain(ls, i).failure.Some? || ls[i] == NoLoad ==> LoadChain(ls, i + 1) == LoadChain(ls, i)
    ensures LoadChain(ls, i).failure.None? && LoadChain(ls, i).status == Unstarted && ls[i] == LoadThrows ==>
      LoadChain(ls, i + 1) == LoadRun(LoadChain(ls, i).calls + [i], Unstarted, Some(i))
    ensures LoadChain(ls, i).failure.None? && ls[i] != NoLoad && !(LoadChain(ls, i).status == Unstarted && ls[i] == LoadThrows) ==>
      LoadChain(ls, i + 1) == LoadRun(LoadChain(ls, i).calls + StepCalls(i, LoadChain(ls, i).status, ls[i]), AfterStep(ls[i] == LoadResolves), None)
  {
  }

  /** The loads are called in list order. */
  lemma {:induction false} LoadCallsInOrder(ls: seq<LoadBehaviour>, n: nat)
    requires n <= |ls|
    ensures Ascending(LoadChain(ls, n).calls)
  {
    if n > 0 {
      var r := LoadChain(ls, n - 1);
      LoadCallsInOrder(ls, n - 1);
      LoadChainShape(ls, n - 1);
      var b := ls[n - 1];
      if r.failure.Some? || b == NoLoad {
        assert LoadChain(ls, n) == r;
      } else {
        var extra := if r.status == Unstarted && b == LoadThrows then [n - 1] else StepCalls(n - 1, r.status, b);
        assert LoadChain(ls, n).calls == r.calls + extra;
        assert forall j :: 0 <= j < |r.calls| ==> r.calls[j] <= n - 1;
        AscendingAppend(r.calls, extra, n - 1);
      }
    }
  }

  /** Positions in non-decreasing order. */
  predicate Ascending(s: seq<nat>)
  {
    forall j, k :: 0 <= j < k < |s| ==> s[j] <= s[k]
  }

  /** An ascending sequence of positions up to `p`, followed by repeats of `p`, is ascending. */
  lemma AscendingAppend(a: seq<nat>, b: seq<nat>, p: nat)
    requires Ascending(a) && (forall j :: 0 <= j < |a| ==> a[j] <= p) && (forall j :: 0 <= j < |b| ==> b[j] == p)
    ensures Ascending(a + b)
  {
    forall j, k | 0 <= j < k < |a + b|
      ensures (a + b)[j] <= (a + b)[k]
    {
      if k >= |a| {
        assert (a + b)[k] == b[k - |a|];
        if j < |a| {
          assert (a + b)[j] == a[j];
        } else {
          assert (a + b)[j] == b[j - |a|];
        }
      } else {
        assert (a + b)[j] == a[j] && (a + b)[k] == a[k];
      }
    }
  }

  /** The `Loaded` observations of the calls at positions `ps` of `xs`. */
  function LoadedAt(xs: seq<RouteInstance>, ps: seq<nat>): (os: seq<Obs>)
  {
    seq(|ps|, j requires 0 <= j < |ps| => Loaded(NameAt(xs, ps[j])))
  }

  /** The name of the instance at position `p` (positions past the end do not occur). */
  function NameAt(xs: seq<RouteInstance>, p: nat): string
  {
    if p < |xs| then xs[p].name else ""
  }

  /** The calls of the loader at position `p`: once for the first loader, else as the retry policy says. */
  function StepCalls(p: nat, prev: ChainStatus, b: LoadBehaviour): (cs: seq<nat>)
    ensures forall j :: 0 <= j < |cs| ==> cs[j] == p
    ensures 1 <= |cs| <= 2 && (|cs| == 2 <==> prev == Fulfilled && b != LoadResolves)
  {
    if !prev.Unstarted? && RetryCount(prev, b == LoadResolves) == 2 then [p, p] else [p]
  }

  /** Without a synchronous failure every `load` of the list is called. */
  lemma {:induction false} LoadCoverage(ls: seq<LoadBehaviour>, n: nat, i: nat)
    requires i < n <= |ls| && ls[i] != NoLoad && LoadChain(ls, n).failure.None?
    ensures i in LoadChain(ls, n).calls
  {
    var r, full := LoadChain(ls, n - 1), LoadChain(ls, n);
    var b := ls[n - 1];
    if r.failure.Some? || b == NoLoad {
      assert full == r;
      LoadCoverage(ls, n - 1, i);
    } else if r.status == Unstarted && b == LoadThrows {
    } else {
      var step := StepCalls(n - 1, r.status, b);
      assert full.calls == r.calls + step;
      if i < n - 1 {
        LoadCoverage(ls, n - 1, i);
      } else {
        assert step[0] == n - 1;
        assert full.calls[|r.calls|] == n - 1;
      }
    }
  }

  /** The chain is still unstarted, and nothing failed, exactly when no instance so far has `load`. */
  lemma {:induction false} LoadUnstarted(ls: seq<LoadBehaviour>, n: nat)
    requires n <= |ls|
    ensures LoadChain(ls, n).status.Unstarted? && LoadChain(ls, n).failure.None? <==>
      forall i :: 0 <= i < n ==> ls[i] == NoLoad
  {
    if n > 0 {
      LoadUnstarted(ls, n - 1);
    }
  }

  /** A synchronous failure comes from the first instance that has `load`. */
  lemma {:induction false} LoadFailureIsFirstLoader(ls: seq<LoadBehaviour>, n: nat)
    requires n <= |ls| && LoadChain(ls, n).failure.Some?
    ensures LoadChain(ls, n).failure.value < n
    ensures forall i :: 0 <= i < LoadChain(ls, n).failure.value ==> ls[i] == NoLoad
  {
    LoadChainShape(ls, n);
    var r := LoadChain(ls, n - 1);
    if r.failure.Some? {
      LoadFailureIsFirstLoader(ls, n - 1);
    } else {
      LoadUnstarted(ls, n - 1);
    }
  }

  /**
   * Each `load` runs once, except one that fails after a predecessor's
   * promise fulfilled: it runs twice. A loader after a rejection runs once.
   */
  lemma {:induction false} LoadRetryPolicy(ls: seq<LoadBehaviour>, n: nat, i: nat)
    requires i < n <= |ls| && ls[i] != NoLoad && LoadChain(ls, n).failure.None?
    ensures multiset(LoadChain(ls, n).calls)[i] ==
      if LoadChain(ls, i).status == Fulfilled && ls[i] != LoadResolves then 2 else 1
  {
    if i < n - 1 {
      LoadRetryPolicy(ls, n - 1, i);
      LaterLoadsKeepCount(ls, n, i);
    } else {
      LastLoadCount(ls, n);
    }
  }

  /** The loader at the end of the list is called as often as the retry policy says. */
  lemma LastLoadCount(ls: seq<LoadBehaviour>, n: nat)
    requires 0 < n <= |ls| && ls[n - 1] != NoLoad && LoadChain(ls, n).failure.None?
    ensures multiset(LoadChain(ls, n).calls)[n - 1] ==
      if LoadChain(ls, n - 1).status == Fulfilled && ls[n - 1] != LoadResolves then 2 else 1
  {
    var r := LoadChain(ls, n - 1);
    var step := StepCalls(n - 1, r.status, ls[n - 1]);
    assert LoadChain(ls, n).calls == r.calls + step;
    LoadChainShape(ls, n - 1);
    assert n - 1 !in r.calls;
    assert multiset(r.calls)[n - 1] == 0;
    assert multiset(LoadChain(ls, n).calls) == multiset(r.calls) + multiset(step);
  }

  /** The loader at the end of the list adds no call of an earlier position. */
  lemma LaterLoadsKeepCount(ls: seq<LoadBehaviour>, n: nat, i: nat)
    requires i < n - 1 && n <= |ls|
    ensures multiset(LoadChain(ls, n).calls)[i] == multiset(LoadChain(ls, n - 1).calls)[i]
  {
    var r := LoadChain(ls, n - 1);
    var b := ls[n - 1];
    if !(r.failure.Some? || b == NoLoad) {
      var extra := if r.status == Unstarted && b == LoadThrows then [n - 1] else StepCalls(n - 1, r.status, b);
      assert LoadChain(ls, n).calls == r.calls + extra;
      assert multiset(LoadChain(ls, n).calls) == multiset(r.calls) + multiset(extra);
      assert multiset(extra)[i] == 0;
    }
  }

  /** A first `load` that settles and a second that rejects: the second loader runs twice. */
  lemma RejectingLoaderRunsTwice()
    ensures LoadChain([LoadResolves, LoadRejects], 2) == LoadRun([0, 1, 1], Rejected, None)
  {
    assert LoadChain([LoadResolves, LoadRejects], 1) == LoadRun([0], Fulfilled, None);
  }

  /** Once a `load` threw synchronously, later instances add nothing: the exception left the `reduce`. */
  lemma {:induction false} LoadChainStops(ls: seq<LoadBehaviour>, i: nat, n: nat)
    requires i <= n <= |ls| && LoadChain(ls, i).failure.Some?
    ensures LoadChain(ls, n) == LoadChain(ls, i)
  {
    if n > i {
      LoadChainStops(ls, i, n - 1);
    }
  }

  /** The observations of two runs of calls, one after the other. */
  lemma LoadedAtAppend(xs: seq<RouteInstance>, ps: seq<nat>, qs: seq<nat>)
    ensures LoadedAt(xs, ps + qs) == LoadedAt(xs, ps) + LoadedAt(xs, qs)
  {
    var l, r := LoadedAt(xs, ps + qs), LoadedAt(xs, ps) + LoadedAt(xs, qs);
    forall j | 0 <= j < |l|
      ensures l[j] == r[j]
    {
      if j < |ps| {
        assert (ps + qs)[j] == ps[j];
      } else {
        assert (ps + qs)[j] == qs[j - |ps|];
      }
    }
  }

  // ---------------------------------------------------------------- render queue

  /** `renderCandidates`: the activated instances, else only the target (last) instance. */
  function Candidates(instances: seq<RouteInstance>, activated: seq<RouteInstance>): seq<RouteInstance>
  {
    if |activated| > 0 then activated
    else if |instances| > 0 then [instances[|instances| - 1]]
    else []
  }

  predicate HasComponent(r: RouteInstance)
  {
    GetComponent(r).Some?
  }

  /** One step of the queue's `reduce`: a component-bearing instance replaces a preceding outlet-less one. */
  function QueuePush(memo: seq<RouteInstance>, r: RouteInstance): seq<RouteInstance>
  {
    if !HasComponent(r) then memo
    else if |memo| > 0 && memo[|memo| - 1].options.outletFalse then memo[..|memo| - 1] + [r]
    else memo + [r]
  }

  /** `renderQueue`: the `reduce` over the candidates. */
  function RenderQueue(c: seq<RouteInstance>): seq<RouteInstance>
  {
    if |c| == 0 then [] else QueuePush(RenderQueue(c[..|c| - 1]), c[|c| - 1])
  }

  /** The candidates that have a component, in order. */
  function WithComponent(c: seq<RouteInstance>): (w: seq<RouteInstance>)
    ensures forall j :: 0 <= j < |w| ==> HasComponent(w[j]) && w[j] in c
  {
    if |c| == 0 then [] else WithComponent(c[..|c| - 1]) + (if HasComponent(c[|c| - 1]) then [c[|c| - 1]] else [])
  }

  /** The instances whose `outlet` option is not `false`, in order. */
  function WithOutlet(w: seq<RouteInstance>): seq<RouteInstance>
  {
    if |w| == 0 then [] else WithOutlet(w[..|w| - 1]) + (if w[|w| - 1].options.outletFalse then [] else [w[|w| - 1]])
  }

  /** Every component-bearing entry but the last loses its place when its `outlet` is `false`. */
  function DropOutletless(w: seq<RouteInstance>): seq<RouteInstance>
  {
    if |w| == 0 then [] else WithOutlet(w[..|w| - 1]) + [w[|w| - 1]]
  }

  /**
   * The render queue holds the candidates that have a component, in order,
   * except that one whose `outlet` option is `false` is dropped when a later
   * candidate has a component: the last component-bearing candidate is
   * always rendered.
   */
  lemma {:induction false} RenderQueueContents(c: seq<RouteInstance>)
    ensures RenderQueue(c) == DropOutletless(WithComponent(c))
  {
    if |c| > 0 {
      var init, x := c[..|c| - 1], c[|c| - 1];
      RenderQueueContents(init);
      var w := WithComponent(init);
      assert WithComponent(c) == w + (if HasComponent(x) then [x] else []);
      if HasComponent(x) && |w| > 0 {
        var memo := RenderQueue(init);
        var w0, wl := w[..|w| - 1], w[|w| - 1];
        assert memo == WithOutlet(w0) + [wl];
        assert memo[|memo| - 1] == wl;
        assert memo[..|memo| - 1] == WithOutlet(w0);
        var w' := w + [x];
        assert w'[..|w'| - 1] == w;
        assert w == w0 + [wl];
        assert WithOutlet(w) == WithOutlet(w0) + (if wl.options.outletFalse then [] else [wl]);
        assert DropOutletless(w') == WithOutlet(w) + [x];
      } else if HasComponent(x) {
        assert [x][..0] == [];
        assert DropOutletless([x]) == [x];
        assert RenderQueue(c) == QueuePush([], x) == [x];
      } else {
        assert RenderQueue(c) == QueuePush(RenderQueue(init), x) == RenderQueue(init);
        assert WithComponent(c) == w + [] == w;
      }
    }
  }

  /** Whenever some candidate has a component, the queue is not empty and ends with the last such candidate. */
  lemma RenderQueueEndsWithLastComponent(c: seq<RouteInstance>)
    requires |WithComponent(c)| > 0
    ensures var q, w := RenderQueue(c), WithComponent(c);
      |q| > 0 && q[|q| - 1] == w[|w| - 1]
  {
    RenderQueueContents(c);
  }

  /**
   * What `renderCandidates` leads to: the activated instances' queue when
   * some were activated, else the target alone when it has a component, and
   * nothing otherwise.
   */
  lemma RenderCandidates(instances: seq<RouteInstance>, activated: seq<RouteInstance>)
    ensures |activated| > 0 ==> RenderQueue(Candidates(instances, activated)) == RenderQueue(activated)
    ensures |activated| == 0 && |instances| > 0 ==>
      var target := instances[|instances| - 1];
      RenderQueue(Candidates(instances, activated)) == if HasComponent(target) then [target] else []
    ensures |activated| == 0 && |instances| == 0 ==> RenderQueue(Candidates(instances, activated)) == []
  {
    if |activated| == 0 && |instances| > 0 {
      var target := instances[|instances| - 1];
      assert [target][..0] == [];
    }
  }

  /** Every queued instance is a candidate. */
  lemma {:induction false} RenderQueueFromCandidates(c: seq<RouteInstance>)
    ensures forall y :: y in RenderQueue(c) ==> y in c
  {
    if |c| > 0 {
      var init := c[..|c| - 1];
      RenderQueueFromCandidates(init);
      var memo := RenderQueue(init);
      assert forall y :: y in init ==> y in c;
      if |memo| > 0 {
        assert forall y :: y in memo[..|memo| - 1] ==> y in memo;
      }
    }
  }

  // ---------------------------------------------------------------- render chain

  /**
   * One attempt of a render step (`getParentRegion` then `renderEl`): what
   * `renderEl` returned or threw, and the element's `updateComplete` that the
   * step then returns for the next step to chain on (none after a throw).
   */
  datatype Try = Try(result: Result<RenderStatus, RouteError>, update: Dom.Update)

  /** The promise that an attempt leaves behind fulfils: nothing threw and `updateComplete` did not reject. */
  predicate Succeeded(t: Try)
  {
    t.result.Ok? && t.update != Dom.UpdateRejects
  }

  /**
   * How often a step runs in the render `reduce`: once while no promise was
   * returned yet (the step runs synchronously), else as `then(step).catch(step)` says.
   */
  function AttemptCount(prev: ChainStatus, ok: bool): nat
  {
    if prev.Unstarted? then 1 else RetryCount(prev, ok)
  }

  /**
   * The chain after a step whose last attempt was `last`: a synchronous step
   * that returned no `updateComplete` leaves no promise; otherwise the chain
   * holds a promise that settles as the attempt succeeded.
   */
  function StepStatus(prev: ChainStatus, last: Try): (s: ChainStatus)
    ensures !prev.Unstarted? ==> !s.Unstarted?
    ensures s.Unstarted? <==> prev.Unstarted? && last.result.Ok? && last.update.NoUpdate?
    ensures !s.Unstarted? ==> (s == Fulfilled <==> Succeeded(last))
  {
    if prev.Unstarted? && last.result.Ok? && last.update.NoUpdate? then Unstarted
    else AfterStep(Succeeded(last))
  }

  /** A synchronous step whose attempt threw: the exception leaves `renderElements`. */
  predicate EscapesAt(tries: seq<seq<Try>>, st: seq<ChainStatus>, k: nat)
    requires k < |tries| && k < |st|
  {
    st[k].Unstarted? && |tries[k]| > 0 && tries[k][0].result.Err?
  }

  /**
   * `tries[k]` are the attempts of the `k`-th queued step and `st[k]` the
   * chain before it: each step runs as often as the chain says, and the
   * chain moves on as its last attempt says.
   */
  predicate ChainedTries(tries: seq<seq<Try>>, st: seq<ChainStatus>)
  {
    && |st| == |tries| + 1 && st[0] == Unstarted
    && forall k :: 0 <= k < |tries| ==>
         && |tries[k]| > 0
         && |tries[k]| == AttemptCount(st[k], Succeeded(tries[k][0]))
         && st[k + 1] == StepStatus(st[k], tries[k][|tries[k]| - 1])
  }

  /** Once a step returned a promise, the chain never becomes synchronous again. */
  lemma {:induction false} ChainStaysAsync(tries: seq<seq<Try>>, st: seq<ChainStatus>, k: nat, j: nat)
    requires ChainedTries(tries, st) && k <= j < |st| && !st[k].Unstarted?
    ensures !st[j].Unstarted?
  {
    if j > k {
      ChainStaysAsync(tries, st, k, j - 1);
      assert st[j] == StepStatus(st[j - 1], tries[j - 1][|tries[j - 1]| - 1]);
    }
  }

  /** Only a synchronous step can let an exception escape: none after the first pending element. */
  lemma NoEscapeAfterPending(tries: seq<seq<Try>>, st: seq<ChainStatus>, k: nat, j: nat)
    requires ChainedTries(tries, st) && k <= j < |tries| && !st[k].Unstarted?
    ensures !EscapesAt(tries, st, j)
  {
    ChainStaysAsync(tries, st, k, j);
  }

  /** The `Rendered` observations of the attempts of one step. */
  function RenderedOf(x: RouteInstance, ts: seq<Try>): (os: seq<Obs>)
  {
    seq(|ts|, j requires 0 <= j < |ts| => Rendered(x.name, ts[j].result))
  }

  /** The observations of the attempts of the first `|tries|` queued steps, step after step. */
  function RenderTrace(q: seq<RouteInstance>, tries: seq<seq<Try>>): seq<Obs>
    requires |tries| <= |q|
  {
    if |tries| == 0 then [] else RenderTrace(q, tries[..|tries| - 1]) + RenderedOf(q[|tries| - 1], tries[|tries| - 1])
  }

  // ---------------------------------------------------------------- transition queries

  /** `Array.prototype.indexOf` (by identity on objects): the first position of `r`, or -1. */
  function IndexOf<T(==)>(xs: seq<T>, r: T): (i: int)
    ensures -1 <= i < |xs|
    ensures i >= 0 ==> xs[i] == r && forall j :: 0 <= j < i ==> xs[j] != r
    ensures i == -1 ==> r !in xs
  {
    if |xs| == 0 then -1
    else if xs[0] == r then 0
    else var k := IndexOf(xs[1..], r); if k < 0 then -1 else k + 1
  }

  /** `transition.isActivating(route)`: `activating` is set once the activate phase begins. */
  predicate IsActivating(activating: Option<seq<RouteInstance>>, r: RouteInstance)
  {
    activating.Some? && IndexOf(activating.value, r) != -1
  }

  lemma IsActivatingMeansListed(activating: Option<seq<RouteInstance>>, r: RouteInstance)
    ensures IsActivating(activating, r) <==> activating.Some? && r in activating.value
  {
  }

  /** `transition.isTarget(route)` as written: the first position of `route` is the last position. */
  predicate IsTarget(instances: Option<seq<RouteInstance>>, r: RouteInstance)
  {
    instances.Some? && IndexOf(instances.value, r) == |instances.value| - 1
  }

  /** While `instances` is still the empty list (during `deactivate`), every route counts as the target. */
  lemma EveryRouteIsTargetOfEmptyList(r: RouteInstance)
    ensures IsTarget(Some([]), r)
  {
  }

  /** `isTarget` with the evident intent: the route is listed and it is the last one. */
  predicate IsTargetIntended(instances: Option<seq<RouteInstance>>, r: RouteInstance)
  {
    instances.Some? && IndexOf(instances.value, r) != -1 && IndexOf(instances.value, r) == |instances.value| - 1
  }

  /** The intended query holds exactly for the last instance of a list where it appears once. */
  lemma {:induction false} IsTargetIntendedMeansLast(xs: seq<RouteInstance>, r: RouteInstance)
    ensures IsTargetIntended(Some(xs), r) <==>
      |xs| > 0 && xs[|xs| - 1] == r && forall j :: 0 <= j < |xs| - 1 ==> xs[j] != r
    ensures !IsTargetIntended(Some([]), r)
  {
    if |xs| > 0 && xs[|xs| - 1] == r && forall j :: 0 <= j < |xs| - 1 ==> xs[j] != r {
      assert IndexOf(xs, r) == |xs| - 1;
    }
  }

  /** On a non-empty list the two agree. */
  lemma IsTargetAgreesWhenListed(xs: seq<RouteInstance>, r: RouteInstance)
    requires |xs| > 0
    ensures IsTarget(Some(xs), r) <==> IsTargetIntended(Some(xs), r)
  {
  }
}
