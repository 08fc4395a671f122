/**
 * `ComposableElement`: the custom-element base class that owns a props bag,
 * runs the composition pipeline on every change and hands the result to the
 * renderer.
 *
 * The renderer is outside the model; each call to it is recorded in the
 * element's ghost `trace`, together with every transformer call.
 */
module Element {
  import opened Values
  import opened Enhancers
  import opened Pipeline

  /** A property definition's `type`, as far as attribute parsing looks at it. */
  datatype AttrType = NumberType | ArrayType | ObjectType | OtherType

  /** `{ value, attr, type }`: the default value, the observed attribute (if any) and the type. */
  datatype PropDef = PropDef(value: Value, attr: Option<string>, kind: AttrType)

  /** What the element remembers per observed attribute: the definition and the prop it feeds. */
  datatype AttrDef = AttrDef(propDef: PropDef, key: string)

  /**
   * The host's parsers: `parseFloat` (never fails; a bad number is just
   * another value) and `JSON.parse` (`None` when it throws).
   */
  datatype Parsers = Parsers(parseFloat: string -> Value, parseJson: string -> Option<Value>)

  /** The static configuration an element type carries. */
  datatype ElementType = ElementType(
    properties: seq<(string, PropDef)>,  // `properties`, in key order
    composition: seq<Enhancer>)          // `composition`

  /** The bag and attribute table the constructor builds. */
  datatype InitState = InitState(props: Props, attrDefs: map<string, AttrDef>)

  /** `if (def.attr)`: an attribute name counts only when present and non-empty. */
  predicate Observed(d: PropDef)
  {
    d.attr.Some? && d.attr.value != ""
  }

  /**
   * `getAttrValue`: numbers go through the host float parser, arrays and
   * objects through the host JSON parser, anything else is the text itself.
   * Only the JSON parser can fail.
   */
  function AttrValue(raw: string, kind: AttrType, parsers: Parsers): (r: Option<Value>)
    ensures r.None? ==> (kind == ArrayType || kind == ObjectType) && parsers.parseJson(raw).None?
    ensures kind == ArrayType || kind == ObjectType ==> r == parsers.parseJson(raw)
    ensures kind == NumberType ==> r == Some(parsers.parseFloat(raw))
    ensures kind == OtherType ==> r == Some(Str(raw))
  {
    match kind
    case NumberType => Some(parsers.parseFloat(raw))
    case ArrayType => parsers.parseJson(raw)
    case ObjectType => parsers.parseJson(raw)
    case OtherType => Some(Str(raw))
  }

  /** The value a prop starts with: the parsed attribute when it is observed and present, else the default. */
  function InitialValue(d: PropDef, attrs: map<string, string>, parsers: Parsers): Option<Value>
  {
    if Observed(d) && d.attr.value in attrs then AttrValue(attrs[d.attr.value], d.kind, parsers)
    else Some(d.value)
  }

  /** One round of the constructor's loop, for the definition `d` of prop `key`. */
  function InitStep(s: InitState, key: string, d: PropDef, attrs: map<string, string>, parsers: Parsers): Option<InitState>
  {
    var attrDefs := if Observed(d) then s.attrDefs[d.attr.value := AttrDef(d, key)] else s.attrDefs;
    match InitialValue(d, attrs, parsers)
    case None => None
    case Some(v) => Some(InitState(s.props[key := v], attrDefs))
  }

  /** The constructor's loop over the first `k` definitions; `None` once a parse has thrown. */
  function InitPrefix(defs: seq<(string, PropDef)>, attrs: map<string, string>, parsers: Parsers, k: nat): Option<InitState>
    requires k <= |defs|
  {
    if k == 0 then Some(InitState(map[], map[]))
    else
      match InitPrefix(defs, attrs, parsers, k - 1)
      case None => None
      case Some(s) => InitStep(s, defs[k - 1].0, defs[k - 1].1, attrs, parsers)
  }

  /** The keys of a JavaScript object are distinct. */
  predicate DistinctKeys(defs: seq<(string, PropDef)>)
  {
    forall i, j :: 0 <= i < j < |defs| ==> defs[i].0 != defs[j].0
  }

  /**
   * The constructor's props initialisation: start from each default, and
   * override it with the parsed attribute when that attribute is present.
   * `None` models the exception `JSON.parse` throws out of the constructor.
   */
  method InitialProps(defs: seq<(string, PropDef)>, attrs: map<string, string>, parsers: Parsers)
    returns (r: Option<InitState>)
    ensures r == InitPrefix(defs, attrs, parsers, |defs|)
  {
    var props: Props := map[];
    var attrDefs: map<string, AttrDef> := map[];
    var i := 0;
    while i < |defs|
      invariant 0 <= i <= |defs|
      invariant InitPrefix(defs, attrs, parsers, i) == Some(InitState(props, attrDefs))
    {
      var key, d := defs[i].0, defs[i].1;
      var before := props;
      props := props[key := d.value];
      if Observed(d) {
        var attr := d.attr.value;
        attrDefs := attrDefs[attr := AttrDef(d, key)];
        if attr in attrs {
          var v := AttrValue(attrs[attr], d.kind, parsers);
          if v.None? {
            InitFailureIsFinal(defs, attrs, parsers, i + 1, |defs|);
            return None;
          }
          props := props[key := v.value];
          assert props == before[key := v.value];
        }
      }
      i := i + 1;
    }
    r := Some(InitState(props, attrDefs));
  }

  /** Once a parse has thrown, the rest of the loop never runs. */
  lemma {:induction false} InitFailureIsFinal(defs: seq<(string, PropDef)>, attrs: map<string, string>, parsers: Parsers, j: nat, k: nat)
    requires j <= k <= |defs| && InitPrefix(defs, attrs, parsers, j).None?
    ensures InitPrefix(defs, attrs, parsers, k).None?
  {
    if k > j {
      InitFailureIsFinal(defs, attrs, parsers, j, k - 1);
    }
  }

  /** Every declared prop gets a key, and nothing else does; the table lists exactly the observed attributes. */
  lemma {:induction false} InitialPropsKeys(defs: seq<(string, PropDef)>, attrs: map<string, string>, parsers: Parsers, k: nat)
    requires k <= |defs| && InitPrefix(defs, attrs, parsers, k).Some?
    ensures InitPrefix(defs, attrs, parsers, k).value.props.Keys == set i | 0 <= i < k :: defs[i].0
    ensures InitPrefix(defs, attrs, parsers, k).value.attrDefs.Keys ==
      set i | 0 <= i < k && Observed(defs[i].1) :: defs[i].1.attr.value
  {
    if k > 0 {
      InitialPropsKeys(defs, attrs, parsers, k - 1);
      assert (set i | 0 <= i < k :: defs[i].0) == (set i | 0 <= i < k - 1 :: defs[i].0) + {defs[k - 1].0};
      if Observed(defs[k - 1].1) {
        assert (set i | 0 <= i < k && Observed(defs[i].1) :: defs[i].1.attr.value)
          == (set i | 0 <= i < k - 1 && Observed(defs[i].1) :: defs[i].1.attr.value) + {defs[k - 1].1.attr.value};
      } else {
        assert (set i | 0 <= i < k && Observed(defs[i].1) :: defs[i].1.attr.value)
          == (set i | 0 <= i < k - 1 && Observed(defs[i].1) :: defs[i].1.attr.value);
      }
    }
  }

  /** Each prop starts at its own initial value: the parsed attribute if observed and present, else the default. */
  lemma {:induction false} InitialPropsValues(defs: seq<(string, PropDef)>, attrs: map<string, string>, parsers: Parsers, k: nat)
    requires k <= |defs| && DistinctKeys(defs) && InitPrefix(defs, attrs, parsers, k).Some?
    ensures forall i :: 0 <= i < k ==>
      && InitialValue(defs[i].1, attrs, parsers).Some?
      && defs[i].0 in InitPrefix(defs, attrs, parsers, k).value.props
      && InitPrefix(defs, attrs, parsers, k).value.props[defs[i].0] == InitialValue(defs[i].1, attrs, parsers).value
  {
    if k > 0 {
      InitialPropsValues(defs, attrs, parsers, k - 1);
    }
  }

  /** Construction fails exactly when some observed, present attribute of array or object type fails to parse. */
  lemma {:induction false} InitialPropsFailsIff(defs: seq<(string, PropDef)>, attrs: map<string, string>, parsers: Parsers, k: nat)
    requires k <= |defs|
    ensures InitPrefix(defs, attrs, parsers, k).None? <==>
      exists i :: 0 <= i < k && InitialValue(defs[i].1, attrs, parsers).None?
  {
    if k > 0 {
      InitialPropsFailsIff(defs, attrs, parsers, k - 1);
      if InitPrefix(defs, attrs, parsers, k - 1).None? {
        var i :| 0 <= i < k - 1 && InitialValue(defs[i].1, attrs, parsers).None?;
        assert 0 <= i < k && InitialValue(defs[i].1, attrs, parsers).None?;
      } else if InitPrefix(defs, attrs, parsers, k).None? {
        assert InitialValue(defs[k - 1].1, attrs, parsers).None?;
      }
    }
  }

  /** Each attribute-table entry is one of the definitions that observes that attribute, with its own key. */
  lemma {:induction false} InitialAttrDefsMatch(defs: seq<(string, PropDef)>, attrs: map<string, string>, parsers: Parsers, k: nat)
    requires k <= |defs| && InitPrefix(defs, attrs, parsers, k).Some?
    ensures var table := InitPrefix(defs, attrs, parsers, k).value.attrDefs;
      forall a :: a in table ==>
        && table[a].propDef.attr == Some(a)
        && Observed(table[a].propDef)
        && (table[a].key, table[a].propDef) in defs[..k]
  {
    if k > 0 {
      InitialAttrDefsMatch(defs, attrs, parsers, k - 1);
      assert defs[..k] == defs[..k - 1] + [defs[k - 1]];
    }
  }

  /** Binding the composition: each withState stage's cell starts at its initial value. */
  function InitialCells(stages: seq<Enhancer>): (cells: seq<Value>)
    ensures |cells| == |stages|
    ensures forall i :: 0 <= i < |stages| && stages[i].WithState? ==> cells[i] == stages[i].initial
  {
    seq(|stages|, i requires 0 <= i < |stages| => if stages[i].WithState? then stages[i].initial else Undefined)
  }

  /** `Object.assign({}, props, {[name]: value})`: a fresh bag that differs from `props` at `name` only. */
  function Candidate(props: Props, name: string, value: Value): (r: Props)
    ensures r.Keys == props.Keys + {name}
    ensures Get(r, name) == value
    ensures forall k :: k != name ==> Get(r, k) == Get(props, k)
  {
    props[name := value]
  }

  class ComposableElement {
    const id: nat                          // tells this instance's state setters apart from others'
    const composition: seq<Enhancer>       // `$composition`, fixed at construction
    const attrDefs: map<string, AttrDef>   // `$attrDefs`
    const declared: set<string>            // the props `defineProp` gave an accessor
    const prenderer: bool                  // `$prenderer`, the hook guard: nothing assigns it, so it stays falsy
    var props: Props                       // `$props`
    var cells: seq<Value>                  // the withState cells, one slot per stage
    ghost var trace: seq<Event>            // transformer calls and renders, in order

    ghost predicate Valid()
      reads this
    {
      |cells| == |composition| && !prenderer && NoHookRan(trace)
    }

    /** The transformers as bound to this instance right now. */
    function Bound(): seq<Transformer>
      requires |cells| == |composition|
      reads this
    {
      Bind(id, composition, cells)
    }

    /** The accessor's getter, which exists for declared props only: a prop with no key reads as `undefined`. */
    function GetProp(name: string): (v: Value)
      requires name in declared
      reads this
      ensures name in props ==> v == props[name]
      ensures name !in props ==> v == Undefined
    {
      Get(props, name)
    }

    constructor (id: nat, ty: ElementType, init: InitState)
      ensures Valid()
      ensures this.id == id && composition == ty.composition && cells == InitialCells(ty.composition)
      ensures props == init.props && attrDefs == init.attrDefs
      ensures declared == set i | 0 <= i < |ty.properties| :: ty.properties[i].0
      ensures !prenderer
      ensures trace == []
    {
      this.id := id;
      declared := set i | 0 <= i < |ty.properties| :: ty.properties[i].0;
      prenderer := false;
      composition := ty.composition;
      cells := InitialCells(ty.composition);
      attrDefs := init.attrDefs;
      props := init.props;
      trace := [];
    }

    /**
     * Constructing an element of type `ty` whose attributes are `attrs`:
     * `null` when an attribute fails to parse (the constructor throws),
     * otherwise a fresh element holding the initial props, with nothing rendered yet.
     */
    static method Create(id: nat, ty: ElementType, attrs: map<string, string>, parsers: Parsers)
      returns (e: ComposableElement?)
      ensures e == null <==> InitPrefix(ty.properties, attrs, parsers, |ty.properties|).None?
      ensures e != null ==>
        && fresh(e) && e.Valid() && e.trace == [] && e.id == id
        && e.composition == ty.composition && e.cells == InitialCells(ty.composition)
        && InitPrefix(ty.properties, attrs, parsers, |ty.properties|) == Some(InitState(e.props, e.attrDefs))
        && e.declared == e.props.Keys
    {
      var init := InitialProps(ty.properties, attrs, parsers);
      if init.None? {
        return null;
      }
      InitialPropsKeys(ty.properties, attrs, parsers, |ty.properties|);
      e := new ComposableElement(id, ty, init.value);
    }

    /**
     * `$updateProps(next, force)`: run the pipeline over `next`, then take
     * the result as the new props and render it; a skip in a non-forced pass
     * returns early with the props untouched and nothing rendered.
     */
    method UpdateProps(next: Props, force: bool)
      requires Valid()
      modifies this
      ensures Valid() && cells == old(cells)
      ensures var o := UpdateOutcome(old(Bound()), next, old(props), force, prenderer);
        props == o.props && trace == old(trace) + o.events
    {
      var ts := Bound();
      var result;
      ghost var calls;
      result, calls := RunPipeline(ts, next, props, force);
      ghost var o := UpdateOutcome(ts, next, props, force, prenderer);
      UpdateRunsNoHook(ts, next, props, force);
      NoHookRanAppend(trace, o.events);
      trace := trace + calls;
      if result.Some? {
        props := result.value;
        // The hook guard: a truthy `$prenderer` would call the undefined
        // `$prender`, which throws before the renderer runs.
        trace := trace + [if prenderer then PrerenderCalled(props) else Rendered(props)];
      }
      assert trace == old(trace) + o.events;
    }

    /** `connectedCallback`: a forced pass over the current props, which always renders exactly once. */
    method Connected()
      requires Valid()
      modifies this
      ensures Valid() && cells == old(cells)
      ensures var o := UpdateOutcome(old(Bound()), old(props), old(props), true, prenderer);
        props == o.props && trace == old(trace) + o.events
      ensures |trace| == |old(trace)| + |composition| + 1 && trace[|trace| - 1] == Rendered(props)
    {
      ForcedUpdateRendersOnce(Bound(), props, props);
      UpdateProps(props, true);
    }

    /** `updateProp(name, value)`: a non-forced update with the current props changed at `name`. */
    method UpdateProp(name: string, value: Value)
      requires Valid()
      modifies this
      ensures Valid() && cells == old(cells)
      ensures var o := UpdateOutcome(old(Bound()), Candidate(old(props), name, value), old(props), false, prenderer);
        props == o.props && trace == old(trace) + o.events
    {
      UpdateProps(Candidate(props, name, value), false);
    }

    /**
     * Assigning `el[name] = value`. Only declared props have the accessor's
     * setter; any other name becomes a plain field of the element, outside the
     * props bag. The setter ignores a value `===` to the current one and sends
     * any other to `updateProp`.
     */
    method SetProp(name: string, value: Value)
      requires Valid()
      modifies this
      ensures Valid() && cells == old(cells)
      ensures name !in declared || Get(old(props), name) == value ==> props == old(props) && trace == old(trace)
      ensures name in declared && Get(old(props), name) != value ==>
        var o := UpdateOutcome(old(Bound()), Candidate(old(props), name, value), old(props), false, prenderer);
        props == o.props && trace == old(trace) + o.events
    {
      if name in declared && Get(props, name) != value {
        UpdateProp(name, value);
      }
    }

    /**
     * `attributeChangedCallback`: an observed attribute's new text is parsed
     * by its prop's type and fed to `updateProp` (with no same-value check);
     * `threw` when the JSON parser throws, in which case nothing changes.
     */
    method AttributeChanged(name: string, raw: string, parsers: Parsers) returns (threw: bool)
      requires Valid()
      modifies this
      ensures Valid() && cells == old(cells)
      ensures threw <==> name in attrDefs && AttrValue(raw, attrDefs[name].propDef.kind, parsers).None?
      ensures name !in attrDefs || threw ==> props == old(props) && trace == old(trace)
      ensures name in attrDefs && !threw ==>
        var o := UpdateOutcome(old(Bound()),
          Candidate(old(props), attrDefs[name].key, AttrValue(raw, attrDefs[name].propDef.kind, parsers).value),
          old(props), false, prenderer);
        props == o.props && trace == old(trace) + o.events
    {
      threw := false;
      if name in attrDefs {
        var def := attrDefs[name];
        var v := AttrValue(raw, def.propDef.kind, parsers);
        if v.None? {
          threw := true;
        } else {
          UpdateProp(def.key, v.value);
        }
      }
    }

    /**
     * The setter a withState stage exposes: store the new value in that
     * stage's cell first, then run a non-forced update over the current props.
     * When that stage is the last one and the pass completes, the prop it
     * names now reads the new value.
     */
    method SetState(stage: nat, v: Value)
      requires Valid() && stage < |composition| && composition[stage].WithState?
      modifies this
      ensures Valid() && cells == old(cells)[stage := v]
      ensures var o := UpdateOutcome(Bound(), old(props), old(props), false, prenderer);
        props == o.props && trace == old(trace) + o.events
      ensures stage == |composition| - 1 && composition[stage].name != composition[stage].functionName
        && Run(Bound(), old(props), old(props), false, |composition|).result.Some?
        ==> props[composition[stage].name] == v
    {
      cells := cells[stage := v];
      if Run(Bound(), props, props, false, |composition|).result.Some? && stage == |composition| - 1 {
        StateStageExposesCell(id, composition, cells, props, props, false);
      }
      UpdateProps(props, false);
    }
  }

  /**
   * An element with one string prop `label` (default "hi", observed as
   * attribute `label`) and no enhancers: it starts at "hi", setting the
   * prop to "bye" renders "bye", and assigning an undeclared name does nothing.
   */
  method LabelScenario(parsers: Parsers)
  {
    var def := PropDef(Str("hi"), Some("label"), OtherType);
    var ty := ElementType([("label", def)], []);
    assert InitPrefix(ty.properties, map[], parsers, 1) == Some(InitState(map["label" := Str("hi")], map["label" := AttrDef(def, "label")]));
    var e := ComposableElement.Create(0, ty, map[], parsers);
    assert e != null;
    assert e.GetProp("label") == Str("hi");
    e.Connected();
    e.SetProp("label", Str("bye"));
    assert e.GetProp("label") == Str("bye");
    assert e.trace[|e.trace| - 1] == Rendered(map["label" := Str("bye")]);
    ghost var before := e.trace;
    e.SetProp("extra", Str("x"));
    assert e.trace == before && e.GetProp("label") == Str("bye");
  }
}
