/**
 * The opaque DOM the router renders into: elements and the regions (outlets)
 * that show one element at a time. Element construction, querying and
 * mounting are abstracted: an element carries, as data, the set of CSS
 * selectors that match a node inside its rendered content.
 */
module Dom {

  /** How an element came to be: `new Definition()` or `document.createElement(tag)`. */
  datatype Origin = Constructed(kind: string) | Created(tag: string)

  /**
   * An element's `updateComplete`: none (a plain element), or a promise that
   * fulfils or rejects (as the reactive base elements have).
   */
  datatype Update = NoUpdate | UpdateFulfils | UpdateRejects

  /**
   * What the router needs to know about an element it creates: where it came
   * from, the selectors of its outlets, and its `updateComplete`.
   */
  datatype ElementSpec = ElementSpec(origin: Origin, outlets: set<string>, updates: Update)

  /** A mount point: a node found inside an element by a selector, or a node of the page. */
  datatype Node = OutletNode(host: Element, selector: string) | PageNode(id: string)

  class Element {
    const spec: ElementSpec
    /** Properties assigned onto the element (`Object.assign(el, properties)`). */
    var props: map<string, string>
    /** The entry of route.js's `outletRegionMap` (a WeakMap keyed by element) for this element. */
    var outletRegion: Region?
    /** The `$route` back-reference assigned when a transition is done. */
    var routeState: object?

    constructor (spec: ElementSpec)
      ensures this.spec == spec
      ensures props == map[] && outletRegion == null && routeState == null
    {
      this.spec := spec;
      props := map[];
      outletRegion := null;
      routeState := null;
    }
  }

  /** A region wraps one node and shows one element in it, replacing what was shown before. */
  class Region {
    const node: Node
    var shown: Element?

    constructor (node: Node)
      ensures this.node == node && shown == null
    {
      this.node := node;
      shown := null;
    }

    method Show(el: Element)
      modifies this
      ensures shown == el
    {
      shown := el;
    }
  }
}
