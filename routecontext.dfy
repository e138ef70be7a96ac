/**
 * Context lookup (src/routecontext.js): a route asks for a key and the
 * nearest ancestor, following `$parent`, whose class provides that key answers.
 */
module RouteContext {
  import opened Wrappers
  import opened Route

  /** `chain` lists `route`'s ancestors, nearest first, following `$parent` until it is unset. */
  ghost predicate AncestorChain(route: RouteInstance, chain: seq<RouteInstance>)
    reads route, set a | a in chain
  {
    && (route.parent == if |chain| == 0 then null else chain[0])
    && (forall k :: 0 <= k < |chain| - 1 ==> chain[k].parent == chain[k + 1])
    && (|chain| > 0 ==> chain[|chain| - 1].parent == null)
  }

  predicate Provides(a: RouteInstance, key: string)
  {
    key in a.cls.providedContexts
  }

  /** What a providing ancestor answers: its field named by `property`, else the declared `value`. */
  function ProvidedValue(a: RouteInstance, def: ContextDef): (v: Option<string>)
    reads a
    ensures def.property != "" && def.property in a.fields ==> v == Some(a.fields[def.property])
    ensures def.property != "" && def.property !in a.fields ==> v.None?
    ensures def.property == "" ==> v == def.value
  {
    if def.property != "" then
      if def.property in a.fields then Some(a.fields[def.property]) else None
    else def.value
  }

  /** Reference definition: the first route of `chain` that provides `key` decides the answer. */
  function ContextFrom(chain: seq<RouteInstance>, key: string): Option<string>
    reads set a | a in chain
  {
    if |chain| == 0 then None
    else if Provides(chain[0], key) then ProvidedValue(chain[0], chain[0].cls.providedContexts[key])
    else ContextFrom(chain[1..], key)
  }

  /** `findContext`: walks up `$parent` from the route's parent; the route itself is never consulted. */
  method FindContext(route: RouteInstance, key: string, ghost chain: seq<RouteInstance>) returns (r: Option<string>)
    requires AncestorChain(route, chain)
    ensures r == ContextFrom(chain, key)
  {
    var p := route.parent;
    ghost var k := 0;
    while p != null
      invariant 0 <= k <= |chain|
      invariant p == if k < |chain| then chain[k] else null
      invariant ContextFrom(chain[k..], key) == ContextFrom(chain, key)
      decreases |chain| - k
    {
      assert chain[k..][1..] == chain[k + 1..];
      if Provides(p, key) {
        return ProvidedValue(p, p.cls.providedContexts[key]);
      }
      p := p.parent;
      k := k + 1;
    }
    return None;
  }

  /** The nearest provider wins: providers further up, and routes that are not ancestors, are invisible. */
  lemma {:induction false} NearestProviderWins(chain: seq<RouteInstance>, key: string, j: nat)
    requires j < |chain| && Provides(chain[j], key)
    requires forall k :: 0 <= k < j ==> !Provides(chain[k], key)
    ensures ContextFrom(chain, key) == ProvidedValue(chain[j], chain[j].cls.providedContexts[key])
  {
    if j > 0 {
      assert !Provides(chain[0], key);
      NearestProviderWins(chain[1..], key, j - 1);
    }
  }

  /** Without a providing ancestor the answer is `undefined`. */
  lemma {:induction false} NoProviderIsUndefined(chain: seq<RouteInstance>, key: string)
    requires forall k :: 0 <= k < |chain| ==> !Provides(chain[k], key)
    ensures ContextFrom(chain, key).None?
  {
    if |chain| > 0 {
      assert !Provides(chain[0], key);
      NoProviderIsUndefined(chain[1..], key);
    }
  }
}
