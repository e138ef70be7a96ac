/**
 * Route controllers (src/route.js): the values a route table and a route
 * class declare, the controller instance the router caches per route name,
 * and the per-route render decisions.
 */
module Route {
  import opened Wrappers
  import Dom

  /** What a lifecycle hook (`activate`, `deactivate`) does when it is called. */
  datatype HookOutcome =
    | Proceeds       // returns anything but `false` and leaves the transition alone
    | ReturnsFalse   // returns exactly `false`
    | CallsCancel    // calls `transition.cancel()` (or `redirectTo`)
    | Throws         // throws or returns a rejected promise

  /** Whether a controller has a `load` method and, if so, how its promise settles. */
  datatype LoadBehaviour = NoLoad | LoadResolves | LoadRejects | LoadThrows

  /** The hooks a route class defines; the base `Route` class has the defaults. */
  datatype Hooks = Hooks(activate: HookOutcome, deactivate: HookOutcome, load: LoadBehaviour, updateEl: bool)

  /** An entry of a class's static `providedContexts`: `property` when non-empty, else `value`. */
  datatype ContextDef = ContextDef(property: string, value: Option<string>)

  /** A component definition, as a route's `component` option or a class's static `component` holds it. */
  datatype ComponentDef =
    | ElementClass(kind: string, outlets: set<string>, updates: Dom.Update)  // a subclass of HTMLElement
    | ComponentFactory(result: ComponentDef)  // any other function: called with the route as receiver
    | Tag(name: string, outlets: set<string>, updates: Dom.Update)           // a string: a tag name
    | Opaque                                  // anything else

  /**
   * A route controller class: its static members and the hooks of its
   * prototype. Classes are compared by identity, as JavaScript constructors are.
   */
  class RouteClass {
    const name: string
    const childRoutes: map<string, ClassRef>
    const staticComponent: Option<ComponentDef>
    const protoComponent: Option<ComponentDef>
    /** The static `outletSelector`; empty when the class does not set it. */
    const outletSelector: string
    const providedContexts: map<string, ContextDef>
    const instanceFields: map<string, string>
    const hooks: Hooks

    constructor (name: string, childRoutes: map<string, ClassRef>, staticComponent: Option<ComponentDef>,
                 protoComponent: Option<ComponentDef>, outletSelector: string,
                 providedContexts: map<string, ContextDef>, instanceFields: map<string, string>, hooks: Hooks)
      ensures this.name == name && this.childRoutes == childRoutes && this.staticComponent == staticComponent
      ensures this.protoComponent == protoComponent && this.outletSelector == outletSelector
      ensures this.providedContexts == providedContexts && this.instanceFields == instanceFields && this.hooks == hooks
    {
      this.name := name;
      this.childRoutes := childRoutes;
      this.staticComponent := staticComponent;
      this.protoComponent := protoComponent;
      this.outletSelector := outletSelector;
      this.providedContexts := providedContexts;
      this.instanceFields := instanceFields;
      this.hooks := hooks;
    }
  }

  /** The base `Route` class: no children, no component, no contexts, hooks that do nothing. */
  predicate IsBaseRoute(c: RouteClass)
  {
    && c.name == "Route" && c.childRoutes == map[] && c.staticComponent.None? && c.protoComponent.None?
    && c.outletSelector == "" && c.providedContexts == map[] && c.instanceFields == map[]
    && c.hooks == Hooks(Proceeds, Proceeds, NoLoad, false)
  }

  /** A class as it may be referenced: directly, or wrapped in an ES module (`{__esModule, default}`). */
  datatype ClassDef = Subclass(cls: RouteClass) | EsModule(cls: RouteClass)

  /** What a lazy class definition (a function that is not a route class) resolves to. */
  datatype FactoryResult = Yields(def: ClassDef) | YieldsNothing | Rejects

  /** A value found in `options.class` or in an ancestor's `childRoutes`. */
  datatype ClassRef = Direct(def: ClassDef) | LazyClass(result: FactoryResult)

  /** The options a route table declares for one route. */
  datatype RouteOptions = RouteOptions(
    routeClass: Option<ClassRef>,
    component: Option<ComponentDef>,
    classOptions: map<string, string>,
    properties: map<string, string>,
    outletFalse: bool)

  /** One route segment of a transition, as the matcher produces it. */
  datatype RouteDesc = RouteDesc(name: string, path: string, params: map<string, string>, options: RouteOptions)

  datatype HookKind = Activate | Deactivate

  /** Every error a transition can end with. */
  datatype RouteError =
    | UnableToCreate(route: string)          // "Unable to create route X: class or component must be defined"
    | FactoryRejected(route: string)         // a lazy class definition rejected
    | HookThrew(kind: HookKind, route: string)
    | LoadThrew(route: string)               // the first `load` threw synchronously
    | InvalidComponent(className: string)    // "X: component has invalid value ..."
    | NoOutletIn(route: string)              // "No outlet region defined in X route"
    | NoRootOutlet                           // "No root outlet region defined"

  /** What a successful `renderEl` did. */
  datatype RenderStatus = Kept | Mounted

  /** The definition `createElement` ends up with once every factory was called. */
  function Innermost(def: ComponentDef): ComponentDef
  {
    if def.ComponentFactory? then Innermost(def.result) else def
  }

  /** `createElement`: constructs an element class, calls a factory and uses its result, creates a tag. */
  function CreateElement(def: ComponentDef): (r: Option<Dom.ElementSpec>)
    ensures r.Some? <==> !Innermost(def).Opaque?
    ensures Innermost(def).ElementClass? ==>
      r == Some(Dom.ElementSpec(Dom.Constructed(Innermost(def).kind), Innermost(def).outlets, Innermost(def).updates))
    ensures Innermost(def).Tag? ==>
      r == Some(Dom.ElementSpec(Dom.Created(Innermost(def).name), Innermost(def).outlets, Innermost(def).updates))
  {
    match def
    case ElementClass(kind, outlets, updates) => Some(Dom.ElementSpec(Dom.Constructed(kind), outlets, updates))
    case ComponentFactory(result) => CreateElement(result)
    case Tag(name, outlets, updates) => Some(Dom.ElementSpec(Dom.Created(name), outlets, updates))
    case Opaque => None
  }

  /** `n` nested factories around `def`. */
  function Wrapped(def: ComponentDef, n: nat): ComponentDef
  {
    if n == 0 then def else ComponentFactory(Wrapped(def, n - 1))
  }

  /** A factory is transparent: wrapping a definition in any number of factories creates the same element. */
  lemma {:induction false} CreateElementThroughFactories(def: ComponentDef, n: nat)
    ensures CreateElement(Wrapped(def, n)) == CreateElement(def)
  {
    if n > 0 {
      CreateElementThroughFactories(def, n - 1);
    }
  }

  /** The element `renderEl` would create for a route whose component is `c` (`undefined` creates none). */
  function ElementFor(c: Option<ComponentDef>): (r: Option<Dom.ElementSpec>)
    ensures c.None? ==> r.None?
    ensures r.Some? ==> c.Some? && !Innermost(c.value).Opaque?
  {
    if c.Some? then CreateElement(c.value) else None
  }

  /** The selector `getOutlet` looks for: the class's `outletSelector`, else 'router-outlet'. */
  function OutletSelector(cls: RouteClass): string
  {
    if cls.outletSelector != "" then cls.outletSelector else "router-outlet"
  }

  /** `getComponent`: the instance's own component when set, else the class's static one. */
  function GetComponent(route: RouteInstance): Option<ComponentDef>
  {
    if route.component.Some? then route.component else route.cls.staticComponent
  }

  /** A route controller instance; one per route name lives in the router's instance cache. */
  class RouteInstance {
    const name: string
    const path: string
    const options: RouteOptions
    const cls: RouteClass
    const routerRef: object?
    /** The `classOptions` handed to `initialize`. */
    const initOptions: map<string, string>
    /** `component`: the route option when given (createRouteInstance assigns it), else the prototype's. */
    const component: Option<ComponentDef>
    var el: Dom.Element?
    var parent: RouteInstance?
    /** User-defined instance fields (class fields), read by context lookup. */
    var fields: map<string, string>

    /** `new RouteClass(classOptions, router, route)` followed by createRouteInstance's `component` assignment. */
    constructor (classOptions: map<string, string>, router: object?, desc: RouteDesc, cls: RouteClass)
      ensures routerRef == router && name == desc.name && path == desc.path && options == desc.options
      ensures this.cls == cls && initOptions == classOptions
      ensures component == if desc.options.component.Some? then desc.options.component else cls.protoComponent
      ensures el == null && parent == null && fields == cls.instanceFields
    {
      routerRef := router;
      name := desc.name;
      path := desc.path;
      options := desc.options;
      this.cls := cls;
      initOptions := classOptions;
      component := if desc.options.component.Some? then desc.options.component else cls.protoComponent;
      el := null;
      parent := null;
      fields := cls.instanceFields;
    }

    /** `prepareEl`: assigns the route's `properties` option onto the element. */
    method PrepareEl(e: Dom.Element)
      modifies e`props
      ensures e.props == old(e.props) + options.properties
    {
      e.props := e.props + options.properties;
    }

    /**
     * `renderEl`: keeps the current element when `updateEl` says so; otherwise
     * creates one from the component, prepares it and shows it in `region`.
     * Both errors are raised before `el` is assigned.
     */
    method RenderEl(region: Dom.Region?) returns (r: Result<RenderStatus, RouteError>)
      modifies this`el, region
      ensures old(el) != null && cls.hooks.updateEl ==>
        r == Ok(Kept) && el == old(el) && (region != null ==> unchanged(region))
      ensures !(old(el) != null && cls.hooks.updateEl) && ElementFor(GetComponent(this)).None? ==>
        r == Err(InvalidComponent(cls.name)) && el == old(el) && (region != null ==> unchanged(region))
      ensures !(old(el) != null && cls.hooks.updateEl) && ElementFor(GetComponent(this)).Some? && region == null ==>
        r == Err(NoRootOutlet) && el == old(el)
      ensures !(old(el) != null && cls.hooks.updateEl) && ElementFor(GetComponent(this)).Some? && region != null ==>
        && r == Ok(Mounted)
        && el != null && fresh(el)
        && el.spec == ElementFor(GetComponent(this)).value
        && el.props == options.properties
        && el.outletRegion == null
        && region.shown == el
    {
      if el != null && cls.hooks.updateEl {
        return Ok(Kept);
      }
      var spec := ElementFor(GetComponent(this));
      if spec.None? {
        return Err(InvalidComponent(cls.name));
      }
      var e := new Dom.Element(spec.value);
      PrepareEl(e);
      if region == null {
        return Err(NoRootOutlet);
      }
      region.Show(e);
      el := e;
      r := Ok(Mounted);
    }

    /**
     * `getOutlet`: the region cached for the current element, else a new region
     * around the node matching the outlet selector, cached only when one is found.
     */
    method GetOutlet() returns (region: Dom.Region?)
      requires el != null
      modifies el`outletRegion
      ensures old(el.outletRegion) != null ==> region == old(el.outletRegion) && el.outletRegion == region
      ensures old(el.outletRegion) == null && OutletSelector(cls) in el.spec.outlets ==>
        && region != null && fresh(region)
        && region.node == Dom.OutletNode(el, OutletSelector(cls)) && region.shown == null
        && el.outletRegion == region
      ensures old(el.outletRegion) == null && OutletSelector(cls) !in el.spec.outlets ==>
        region == null && el.outletRegion == null
      ensures old(el.outletRegion) == null && cls.outletSelector == "" ==>
        (region != null <==> "router-outlet" in el.spec.outlets)
        && (region != null ==> region.node == Dom.OutletNode(el, "router-outlet"))
      ensures old(el.outletRegion) == null && cls.outletSelector != "" ==>
        (region != null <==> cls.outletSelector in el.spec.outlets)
        && (region != null ==> region.node == Dom.OutletNode(el, cls.outletSelector))
    {
      region := el.outletRegion;
      if region == null {
        var selector := OutletSelector(cls);
        if selector in el.spec.outlets {
          region := new Dom.Region(Dom.OutletNode(el, selector));
          el.outletRegion := region;
        }
      }
    }

    /** Two calls of `getOutlet` on the same element return the same region. */
    method GetOutletTwice() returns (first: Dom.Region?, second: Dom.Region?)
      requires el != null
      modifies el`outletRegion
      ensures first == second
      ensures first == null <==> old(el.outletRegion) == null && OutletSelector(cls) !in el.spec.outlets
    {
      first := GetOutlet();
      second := GetOutlet();
    }
  }
}
