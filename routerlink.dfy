/**
 * Router links (src/routerlink.js): elements carrying a `route` attribute,
 * with `param-*` and `query-*` attributes merged over per-route defaults.
 * Their anchors get an `href`, they get an active class after each
 * transition, and a click on one asks the router for a transition.
 * The router's `generate`, `isActive` and `transitionTo` are not part of this
 * model: the first two are function parameters, the third is the request a
 * click produces.
 */
module RouterLink {
  import opened Wrappers

  /** One DOM attribute. */
  datatype Attr = Attr(name: string, value: string)

  // ---------------------------------------------------------------------------
  // getAttributeValues

  /** Whether attribute `a` is one of the `prefix`ed ones (`name.indexOf(prefix) === 0`). */
  predicate Prefixed(a: Attr, prefix: string)
  {
    prefix <= a.name
  }

  /** The key a prefixed attribute writes: its name with the prefix sliced off. */
  function Key(a: Attr, prefix: string): string
    requires Prefixed(a, prefix)
  {
    a.name[|prefix|..]
  }

  /** `result` after writing each prefixed attribute of `attrs`, first to last, into `seed`. */
  function AttributeValues(attrs: seq<Attr>, prefix: string, seed: map<string, string>): map<string, string>
  {
    if |attrs| == 0 then seed
    else
      var r := AttributeValues(attrs[..|attrs| - 1], prefix, seed);
      var a := attrs[|attrs| - 1];
      if Prefixed(a, prefix) then r[Key(a, prefix) := a.value] else r
  }

  /** `getAttributeValues`: the loop over the element's attributes, writing into `result`. */
  method GetAttributeValues(attrs: seq<Attr>, prefix: string, seed: map<string, string>) returns (result: map<string, string>)
    ensures result == AttributeValues(attrs, prefix, seed)
  {
    result := seed;
    var i := 0;
    while i < |attrs|
      invariant 0 <= i <= |attrs|
      invariant result == AttributeValues(attrs[..i], prefix, seed)
    {
      var attr := attrs[i];
      if Prefixed(attr, prefix) {
        var paramName := attr.name[|prefix|..];
        result := result[paramName := attr.value];
      }
      assert attrs[..i + 1][..i] == attrs[..i];
      i := i + 1;
    }
    assert attrs[..i] == attrs;
  }

  /** A key is in the result exactly when it was seeded or some prefixed attribute writes it. */
  lemma {:induction false} AttributeValuesKeys(attrs: seq<Attr>, prefix: string, seed: map<string, string>, k: string)
    ensures k in AttributeValues(attrs, prefix, seed) <==>
      k in seed || exists i :: 0 <= i < |attrs| && Prefixed(attrs[i], prefix) && Key(attrs[i], prefix) == k
  {
    if |attrs| > 0 {
      var init := attrs[..|attrs| - 1];
      AttributeValuesKeys(init, prefix, seed, k);
      if exists i :: 0 <= i < |init| && Prefixed(init[i], prefix) && Key(init[i], prefix) == k {
        var i :| 0 <= i < |init| && Prefixed(init[i], prefix) && Key(init[i], prefix) == k;
        assert attrs[i] == init[i];
      }
      if exists i :: 0 <= i < |attrs| && Prefixed(attrs[i], prefix) && Key(attrs[i], prefix) == k {
        var i :| 0 <= i < |attrs| && Prefixed(attrs[i], prefix) && Key(attrs[i], prefix) == k;
        if i < |init| {
          assert init[i] == attrs[i];
        }
      }
    }
  }

  /** A prefixed attribute that no later prefixed attribute overrides gives its key its value. */
  lemma {:induction false} AttributeValuesLastWins(attrs: seq<Attr>, prefix: string, seed: map<string, string>, i: nat)
    requires i < |attrs| && Prefixed(attrs[i], prefix)
    requires forall j :: i < j < |attrs| && Prefixed(attrs[j], prefix) ==> Key(attrs[j], prefix) != Key(attrs[i], prefix)
    ensures Key(attrs[i], prefix) in AttributeValues(attrs, prefix, seed)
    ensures AttributeValues(attrs, prefix, seed)[Key(attrs[i], prefix)] == attrs[i].value
  {
    var init := attrs[..|attrs| - 1];
    if i < |attrs| - 1 {
      assert init[i] == attrs[i];
      forall j | i < j < |init| && Prefixed(init[j], prefix)
        ensures Key(init[j], prefix) != Key(init[i], prefix)
      {
        assert init[j] == attrs[j];
      }
      AttributeValuesLastWins(init, prefix, seed, i);
    }
  }

  /** A seeded default survives unless some prefixed attribute writes its key. */
  lemma {:induction false} AttributeValuesSeedKept(attrs: seq<Attr>, prefix: string, seed: map<string, string>, k: string)
    requires k in seed
    requires forall i :: 0 <= i < |attrs| && Prefixed(attrs[i], prefix) ==> Key(attrs[i], prefix) != k
    ensures k in AttributeValues(attrs, prefix, seed) && AttributeValues(attrs, prefix, seed)[k] == seed[k]
  {
    if |attrs| > 0 {
      var init := attrs[..|attrs| - 1];
      forall i | 0 <= i < |init| && Prefixed(init[i], prefix)
        ensures Key(init[i], prefix) != k
      {
        assert init[i] == attrs[i];
      }
      AttributeValuesSeedKept(init, prefix, seed, k);
    }
  }

  /** Attributes without the prefix are ignored: appending one changes nothing. */
  lemma AttributeValuesIgnoresOthers(attrs: seq<Attr>, a: Attr, prefix: string, seed: map<string, string>)
    requires !Prefixed(a, prefix)
    ensures AttributeValues(attrs + [a], prefix, seed) == AttributeValues(attrs, prefix, seed)
  {
    assert (attrs + [a])[..|attrs|] == attrs;
  }

  // ---------------------------------------------------------------------------
  // getDefaults

  /**
   * A default as the `defaults` option holds it for one route and property:
   * missing (or any falsy value), an object, or a function of the route
   * element, given by what it returns for the element at hand (`undefined`
   * is `None`); a caller that visits several elements passes each its own.
   */
  datatype DefaultValue = NoValue | Value(fields: map<string, string>) | Getter(result: Option<map<string, string>>)

  /** Defaults by route name, then by property (`params`, `query`). */
  type DefaultsTable = map<string, map<string, DefaultValue>>

  /** The `defaults` option of a router-links owner: missing, a table, or a function returning one. */
  datatype DefaultsOption = NoDefaults | Table(table: DefaultsTable) | TableGetter(result: Option<DefaultsTable>)

  /** The table after calling the option when it is a function. */
  function TableOf(defaults: DefaultsOption): Option<DefaultsTable>
  {
    match defaults
    case NoDefaults => None
    case Table(t) => Some(t)
    case TableGetter(t) => t
  }

  /** The object a default stands for after calling it when it is a function. */
  function ValueOf(v: DefaultValue): Option<map<string, string>>
  {
    match v
    case NoValue => None
    case Value(m) => Some(m)
    case Getter(m) => m
  }

  /**
   * `getDefaults`: `defaults[routeName][prop]`, calling whichever of the two is
   * a function, as a copy (a map value), or `{}` when any step finds nothing.
   */
  function GetDefaults(defaults: DefaultsOption, routeName: string, prop: string): map<string, string>
  {
    var table := TableOf(defaults);
    if table.None? || routeName !in table.value || prop !in table.value[routeName] then map[]
    else
      var v := ValueOf(table.value[routeName][prop]);
      if v.Some? then v.value else map[]
  }

  /** Without a table, a route entry or a property entry, the defaults are `{}`. */
  lemma GetDefaultsMissing(defaults: DefaultsOption, routeName: string, prop: string)
    requires defaults.NoDefaults? || defaults == TableGetter(None)
      || (TableOf(defaults).Some? && (routeName !in TableOf(defaults).value || prop !in TableOf(defaults).value[routeName]))
    ensures GetDefaults(defaults, routeName, prop) == map[]
  {
  }

  /**
   * Functions are transparent: an option that is a function returning a table,
   * and an entry that is a function returning an object, give what the table
   * and the object themselves would.
   */
  lemma GetDefaultsGetters(t: DefaultsTable, routeName: string, prop: string, m: map<string, string>)
    ensures GetDefaults(TableGetter(Some(t)), routeName, prop) == GetDefaults(Table(t), routeName, prop)
    ensures routeName in t ==>
      var getter := Table(t[routeName := t[routeName][prop := Getter(Some(m))]]);
      var plain := Table(t[routeName := t[routeName][prop := Value(m)]]);
      GetDefaults(getter, routeName, prop) == GetDefaults(plain, routeName, prop) == m
  {
  }

  // ---------------------------------------------------------------------------
  // Link elements

  /** The position of the first attribute called `name`, or `|attrs|` when there is none. */
  function IndexOfName(attrs: seq<Attr>, name: string): (k: nat)
    ensures k <= |attrs| && (k < |attrs| ==> attrs[k].name == name)
    ensures forall j :: 0 <= j < k ==> attrs[j].name != name
  {
    if |attrs| == 0 || attrs[0].name == name then 0 else 1 + IndexOfName(attrs[1..], name)
  }

  /** The first position holding `name` is unique. */
  lemma IndexOfNameUnique(attrs: seq<Attr>, name: string, k: nat)
    requires k <= |attrs| && (k < |attrs| ==> attrs[k].name == name)
    requires forall j :: 0 <= j < k ==> attrs[j].name != name
    ensures IndexOfName(attrs, name) == k
  {
  }

  /** `getAttribute`: the value of the first attribute called `name`, `None` for `null`. */
  function GetAttribute(attrs: seq<Attr>, name: string): (v: Option<string>)
    ensures v.Some? <==> exists i :: 0 <= i < |attrs| && attrs[i].name == name
  {
    var k := IndexOfName(attrs, name);
    if k < |attrs| then Some(attrs[k].value) else None
  }

  /** `setAttribute`: overwrites the first attribute called `name` in place, or appends one. */
  function SetAttr(attrs: seq<Attr>, name: string, value: string): (r: seq<Attr>)
    ensures GetAttribute(r, name) == Some(value)
    ensures forall n :: n != name ==> GetAttribute(r, n) == GetAttribute(attrs, n)
  {
    var k := IndexOfName(attrs, name);
    var r := if k < |attrs| then attrs[k := Attr(name, value)] else attrs + [Attr(name, value)];
    IndexOfNameUnique(r, name, k);
    forall n | n != name
      ensures GetAttribute(r, n) == GetAttribute(attrs, n)
    {
      var kn := IndexOfName(attrs, n);
      if kn < |attrs| {
        IndexOfNameUnique(r, n, kn);
      } else {
        IndexOfNameUnique(r, n, |r|);
      }
    }
    r
  }

  /** Overwriting an attribute without the prefix by another one without it leaves the values unchanged. */
  lemma {:induction false} AttributeValuesReplaceOther(attrs: seq<Attr>, k: nat, a: Attr, prefix: string, seed: map<string, string>)
    requires k < |attrs| && !Prefixed(attrs[k], prefix) && !Prefixed(a, prefix)
    ensures AttributeValues(attrs[k := a], prefix, seed) == AttributeValues(attrs, prefix, seed)
  {
    var n := |attrs| - 1;
    if k == n {
      assert attrs[k := a][..n] == attrs[..n];
    } else {
      assert attrs[k := a][..n] == attrs[..n][k := a];
      AttributeValuesReplaceOther(attrs[..n], k, a, prefix, seed);
    }
  }

  /** Setting an attribute without the prefix (such as `href`) leaves the values unchanged. */
  lemma AttributeValuesSetOther(attrs: seq<Attr>, name: string, value: string, prefix: string, seed: map<string, string>)
    requires !(prefix <= name)
    ensures AttributeValues(SetAttr(attrs, name, value), prefix, seed) == AttributeValues(attrs, prefix, seed)
  {
    var k := IndexOfName(attrs, name);
    if k < |attrs| {
      AttributeValuesReplaceOther(attrs, k, Attr(name, value), prefix, seed);
    } else {
      AttributeValuesIgnoresOthers(attrs, Attr(name, value), prefix, seed);
    }
  }

  /** The route a link element names: its `route` attribute, unless missing or empty. */
  function RouteName(attrs: seq<Attr>): Option<string>
  {
    var v := GetAttribute(attrs, "route");
    if v.Some? && v.value != "" then v else None
  }

  /** The params (`param-`, `params`) or query (`query-`, `query`) of a link: its attributes over the route's defaults. */
  function LinkValues(attrs: seq<Attr>, defaults: DefaultsOption, route: string, prefix: string, prop: string): map<string, string>
  {
    AttributeValues(attrs, prefix, GetDefaults(defaults, route, prop))
  }

  /** An element of the page, as the link handlers see it. */
  class LinkElement {
    const tagName: string
    /** The `a` elements inside this element, in document order (what `querySelectorAll('a')` finds). */
    const anchors: seq<LinkElement>
    var attributes: seq<Attr>
    var classes: set<string>

    constructor (tagName: string, anchors: seq<LinkElement>, attributes: seq<Attr>, classes: set<string>)
      ensures this.tagName == tagName && this.anchors == anchors && this.attributes == attributes && this.classes == classes
    {
      this.tagName := tagName;
      this.anchors := anchors;
      this.attributes := attributes;
      this.classes := classes;
    }

    /** `setAttribute`. */
    method SetAttribute(name: string, value: string)
      modifies this`attributes
      ensures attributes == SetAttr(old(attributes), name, value)
    {
      attributes := SetAttr(attributes, name, value);
    }
  }

  /** The element that receives the `href`: the link itself when it is an `A`, else its first anchor, else none. */
  function HrefTarget(el: LinkElement): LinkElement?
  {
    if el.tagName == "A" then el else if |el.anchors| > 0 then el.anchors[0] else null
  }

  /** What `updateHref` may change. */
  function HrefFrame(el: LinkElement): set<LinkElement>
  {
    var a := HrefTarget(el);
    if a == null then {} else {a}
  }

  // ---------------------------------------------------------------------------
  // updateHref

  /**
   * `updateHref`: without a route name nothing happens; otherwise the href
   * `generate` makes from the route, params and query is set on the target.
   */
  method UpdateHref(el: LinkElement, defaults: DefaultsOption,
                    generate: (string, map<string, string>, map<string, string>) -> string)
    modifies HrefFrame(el)`attributes
    ensures RouteName(old(el.attributes)).None? ==>
      el.attributes == old(el.attributes) && (HrefTarget(el) != null ==> HrefTarget(el).attributes == old(HrefTarget(el).attributes))
    ensures RouteName(old(el.attributes)).Some? && HrefTarget(el) != null ==>
      var route := RouteName(old(el.attributes)).value;
      var params := LinkValues(old(el.attributes), defaults, route, "param-", "params");
      var query := LinkValues(old(el.attributes), defaults, route, "query-", "query");
      HrefTarget(el).attributes == SetAttr(old(HrefTarget(el).attributes), "href", generate(route, params, query))
    ensures HrefTarget(el) == null ==> el.attributes == old(el.attributes)
  {
    var routeName := RouteName(el.attributes);
    if routeName.None? {
      return;
    }
    var params := GetAttributeValues(el.attributes, "param-", GetDefaults(defaults, routeName.value, "params"));
    var query := GetAttributeValues(el.attributes, "query-", GetDefaults(defaults, routeName.value, "query"));
    var href := generate(routeName.value, params, query);
    var anchorEl := HrefTarget(el);
    if anchorEl != null {
      anchorEl.SetAttribute("href", href);
    }
  }

  /** After `updateHref` on a named link with a target, the target's `href` is the generated one and nothing else moved. */
  method UpdateHrefSetsHref(el: LinkElement, defaults: DefaultsOption,
                            generate: (string, map<string, string>, map<string, string>) -> string)
      returns (href: Option<string>)
    requires RouteName(el.attributes).Some? && HrefTarget(el) != null
    modifies HrefFrame(el)`attributes
    ensures href == GetAttribute(HrefTarget(el).attributes, "href")
    ensures href == Some(generate(RouteName(old(el.attributes)).value,
                                  LinkValues(old(el.attributes), defaults, RouteName(old(el.attributes)).value, "param-", "params"),
                                  LinkValues(old(el.attributes), defaults, RouteName(old(el.attributes)).value, "query-", "query")))
    ensures forall n :: n != "href" ==> GetAttribute(HrefTarget(el).attributes, n) == GetAttribute(old(HrefTarget(el).attributes), n)
  {
    UpdateHref(el, defaults, generate);
    href := GetAttribute(HrefTarget(el).attributes, "href");
  }

  // ---------------------------------------------------------------------------
  // mutationHandler

  /** A node in a `childList` mutation's `addedNodes`: an element (with its `route` property's truthiness) or any other node. */
  datatype AddedNode = OtherNode | ElementNode(el: LinkElement, routeProperty: bool)

  /** A mutation record: an attribute change on `target`, or a `childList` change adding nodes. */
  datatype Mutation = AttributeMutation(target: LinkElement, attributeName: string) | ChildListMutation(addedNodes: seq<AddedNode>)

  /** Attribute names whose change refreshes the href. */
  predicate RefreshesHref(attributeName: string)
  {
    "param-" <= attributeName || "query-" <= attributeName
  }

  /** The added elements of `ms`, whose attributes the handler reads. */
  function AddedElements(ms: seq<Mutation>): set<LinkElement>
  {
    set m, n | m in ms && m.ChildListMutation? && n in m.addedNodes && n.ElementNode? :: n.el
  }

  /** Whether an added node is a route element (`nodeType === 1` and a `route` property or attribute). */
  predicate IsAddedRoute(n: AddedNode)
    reads if n.ElementNode? then {n.el} else {}
  {
    n.ElementNode? && (n.routeProperty || RouteName(n.el.attributes).Some?)
  }

  /** The added nodes `updateHref` is called on, in order. */
  function AddedTargets(nodes: seq<AddedNode>): (r: seq<LinkElement>)
    reads set n | n in nodes && n.ElementNode? :: n.el
  {
    if |nodes| == 0 then []
    else (if IsAddedRoute(nodes[0]) then [nodes[0].el] else []) + AddedTargets(nodes[1..])
  }

  /** The elements `mutationHandler` calls `updateHref` on, one call each, in order. */
  function MutationTargets(ms: seq<Mutation>): seq<LinkElement>
    reads AddedElements(ms)
  {
    if |ms| == 0 then []
    else
      assert AddedElements(ms[1..]) <= AddedElements(ms) by {
        forall x | x in AddedElements(ms[1..]) ensures x in AddedElements(ms) {
          var m, n :| m in ms[1..] && m.ChildListMutation? && n in m.addedNodes && n.ElementNode? && x == n.el;
          assert m in ms;
        }
      }
      var first := match ms[0]
        case AttributeMutation(target, name) => if RefreshesHref(name) then [target] else []
        case ChildListMutation(nodes) => AddedTargets(nodes);
      first + MutationTargets(ms[1..])
  }

  /** The targets among added nodes are exactly the elements that are route elements. */
  lemma {:induction false} AddedTargetsExactly(nodes: seq<AddedNode>, x: LinkElement)
    ensures x in AddedTargets(nodes) <==> exists i :: 0 <= i < |nodes| && IsAddedRoute(nodes[i]) && nodes[i].el == x
  {
    if |nodes| > 0 {
      var rest := nodes[1..];
      AddedTargetsExactly(rest, x);
      if x in AddedTargets(nodes) && !(IsAddedRoute(nodes[0]) && nodes[0].el == x) {
        var i :| 0 <= i < |rest| && IsAddedRoute(rest[i]) && rest[i].el == x;
        assert nodes[i + 1] == rest[i];
      }
      if exists i :: 0 <= i < |nodes| && IsAddedRoute(nodes[i]) && nodes[i].el == x {
        var i :| 0 <= i < |nodes| && IsAddedRoute(nodes[i]) && nodes[i].el == x;
        if i > 0 {
          assert rest[i - 1] == nodes[i];
        }
      }
    }
  }

  /**
   * One more mutation at the end of a batch adds its own targets after the
   * earlier ones: an attribute change adds its target exactly when the name
   * starts with `param-` or `query-`.
   */
  lemma {:induction false} MutationTargetsSnoc(ms: seq<Mutation>, m: Mutation)
    ensures m.AttributeMutation? ==>
      MutationTargets(ms + [m]) == MutationTargets(ms) + (if RefreshesHref(m.attributeName) then [m.target] else [])
    ensures m.ChildListMutation? ==> MutationTargets(ms + [m]) == MutationTargets(ms) + AddedTargets(m.addedNodes)
  {
    if |ms| == 0 {
      assert [m][1..] == [];
    } else {
      assert (ms + [m])[1..] == ms[1..] + [m];
      MutationTargetsSnoc(ms[1..], m);
    }
  }

  // ---------------------------------------------------------------------------
  // transitionHandler

  /** The class `transitionHandler` toggles: the `active-class` attribute when present, else `active`; none when it is empty. */
  function ActiveClass(attrs: seq<Attr>): (c: Option<string>)
    ensures GetAttribute(attrs, "active-class").None? ==> c == Some("active")
    ensures GetAttribute(attrs, "active-class").Some? ==>
      (c.None? <==> GetAttribute(attrs, "active-class").value == "")
    ensures c.Some? ==> c.value != "" && (c.value == "active" || c == GetAttribute(attrs, "active-class"))
  {
    var given := GetAttribute(attrs, "active-class");
    var cls := if given.Some? then given.value else "active";
    if cls == "" then None else Some(cls)
  }

  /** `classList.toggle(c, on)`. */
  function Toggled(classes: set<string>, c: string, on: bool): set<string>
  {
    if on then classes + {c} else classes - {c}
  }

  /** The classes of a link element after `transitionHandler` visited it once. */
  function ActiveClasses(classes: set<string>, attrs: seq<Attr>, defaults: DefaultsOption,
                         isActive: (string, map<string, string>, map<string, string>) -> bool): set<string>
  {
    var route := RouteName(attrs);
    var c := ActiveClass(attrs);
    if route.None? || c.None? then classes
    else Toggled(classes, c.value, isActive(route.value, LinkValues(attrs, defaults, route.value, "param-", "params"),
                                            LinkValues(attrs, defaults, route.value, "query-", "query")))
  }

  /**
   * Only the active class can change; it is present afterwards exactly when
   * the router says the link's route, params and query are active.
   */
  lemma ActiveClassesOnlyActive(classes: set<string>, attrs: seq<Attr>, defaults: DefaultsOption,
                                isActive: (string, map<string, string>, map<string, string>) -> bool)
    ensures RouteName(attrs).None? || ActiveClass(attrs).None? ==> ActiveClasses(classes, attrs, defaults, isActive) == classes
    ensures RouteName(attrs).Some? && ActiveClass(attrs).Some? ==>
      var route := RouteName(attrs).value;
      var c := ActiveClass(attrs).value;
      var after := ActiveClasses(classes, attrs, defaults, isActive);
      && (c in after <==> isActive(route, LinkValues(attrs, defaults, route, "param-", "params"),
                                   LinkValues(attrs, defaults, route, "query-", "query")))
      && after - {c} == classes - {c}
  {
  }

  /** Visiting a link twice is the same as visiting it once. */
  lemma ActiveClassesIdempotent(classes: set<string>, attrs: seq<Attr>, defaults: DefaultsOption,
                                isActive: (string, map<string, string>, map<string, string>) -> bool)
    ensures ActiveClasses(ActiveClasses(classes, attrs, defaults, isActive), attrs, defaults, isActive)
      == ActiveClasses(classes, attrs, defaults, isActive)
  {
  }

  /** One visit of `transitionHandler` to a route element. */
  method ToggleActive(el: LinkElement, defaults: DefaultsOption,
                      isActive: (string, map<string, string>, map<string, string>) -> bool)
    modifies el`classes
    ensures el.classes == ActiveClasses(old(el.classes), el.attributes, defaults, isActive)
  {
    var routeName := RouteName(el.attributes);
    if routeName.None? {
      return;
    }
    var params := GetAttributeValues(el.attributes, "param-", GetDefaults(defaults, routeName.value, "params"));
    var query := GetAttributeValues(el.attributes, "query-", GetDefaults(defaults, routeName.value, "query"));
    var activeClass := ActiveClass(el.attributes);
    if activeClass.Some? {
      var active := isActive(routeName.value, params, query);
      el.classes := Toggled(el.classes, activeClass.value, active);
    }
  }

  /**
   * `transitionHandler`: for each route element under the root elements (given
   * in order, possibly more than once when root elements nest), toggles its
   * active class by what the router reports. `defaultsFor(e)` is the
   * `defaults` option as the `getDefaults` calls for `e` see it: its getters
   * are called with the route element, so links of one route may get
   * different defaults.
   */
  method TransitionHandler(routeEls: seq<LinkElement>, defaultsFor: LinkElement -> DefaultsOption,
                           isActive: (string, map<string, string>, map<string, string>) -> bool)
    modifies routeEls`classes
    ensures forall e :: e in routeEls ==> e.classes == ActiveClasses(old(e.classes), e.attributes, defaultsFor(e), isActive)
  {
    var i := 0;
    while i < |routeEls|
      invariant 0 <= i <= |routeEls|
      invariant forall e :: e in routeEls ==>
        e.classes == if e in routeEls[..i] then ActiveClasses(old(e.classes), e.attributes, defaultsFor(e), isActive) else old(e.classes)
    {
      var el := routeEls[i];
      if el in routeEls[..i] {
        ActiveClassesIdempotent(old(el.classes), el.attributes, defaultsFor(el), isActive);
      }
      ToggleActive(el, defaultsFor(el), isActive);
      assert routeEls[..i + 1] == routeEls[..i] + [el];
      i := i + 1;
    }
    assert routeEls[..i] == routeEls;
  }

  // ---------------------------------------------------------------------------
  // linkClickHandler

  /** The transition a click asks the router for. */
  datatype TransitionRequest = TransitionRequest(route: string, params: map<string, string>, query: map<string, string>)

  /**
   * `linkClickHandler`: no transition when the clicked route element contains
   * an anchor (the anchor's own navigation handles it) or names no route;
   * otherwise the route, params and query the href is generated from.
   */
  function LinkClick(el: LinkElement, defaults: DefaultsOption): (r: Option<TransitionRequest>)
    reads el
    ensures r.Some? <==> |el.anchors| == 0 && RouteName(el.attributes).Some?
    ensures r.Some? ==>
      var route := RouteName(el.attributes).value;
      r.value == TransitionRequest(route, LinkValues(el.attributes, defaults, route, "param-", "params"),
                                   LinkValues(el.attributes, defaults, route, "query-", "query"))
  {
    if |el.anchors| > 0 then None
    else
      var routeName := RouteName(el.attributes);
      if routeName.None? then None
      else Some(TransitionRequest(routeName.value,
                                  AttributeValues(el.attributes, "param-", GetDefaults(defaults, routeName.value, "params")),
                                  AttributeValues(el.attributes, "query-", GetDefaults(defaults, routeName.value, "query"))))
  }

  /**
   * A click on an `A` link with no nested anchor asks for exactly the
   * transition whose href `updateHref` set on it.
   */
  method ClickFollowsHref(el: LinkElement, defaults: DefaultsOption,
                          generate: (string, map<string, string>, map<string, string>) -> string)
      returns (request: Option<TransitionRequest>, href: Option<string>)
    requires el.tagName == "A" && |el.anchors| == 0 && RouteName(el.attributes).Some?
    modifies el`attributes
    ensures request.Some? && href.Some?
    ensures href.value == generate(request.value.route, request.value.params, request.value.query)
  {
    UpdateHref(el, defaults, generate);
    href := GetAttribute(el.attributes, "href");
    request := LinkClick(el, defaults);
    var route := RouteName(old(el.attributes)).value;
    AttributeValuesSetOther(old(el.attributes), "href", href.value, "param-", GetDefaults(defaults, route, "params"));
    AttributeValuesSetOther(old(el.attributes), "href", href.value, "query-", GetDefaults(defaults, route, "query"));
  }
}
