/**
 * The enhancer library: factories of prop transformers.
 *
 * An element type declares an ordered list of enhancers; binding one to an
 * element instance gives a transformer `(next, current) -> next' | false`.
 * `None` stands for the `false` that asks to skip the update.
 */
module Enhancers {
  import opened Values
  import opened ShallowEquality

  datatype Enhancer =
    | WithProps(props: Props -> Props)
      // withProps(props): merge props(next) over next
    | WithHandlers(handlers: map<string, Props -> Value>)
      // withHandlers(handlers): merge { k: handlers[k](next) } over next
    | Pure
      // pure(...): skip when current and next are shallow-equal (its argument is unused)
    | WithState(name: string, functionName: string, initial: Value)
      // withState(name, functionName, value): expose a per-instance cell and its setter
    | Custom(transform: (Props, Props) -> Option<Props>)
      // any other transformer, as a fixed function of (next, current)

  /** `withProps`: `next` overlaid with `props(next)`; the overlay wins on shared keys. */
  function WithPropsStep(props: Props -> Props, next: Props): (r: Props)
    ensures r.Keys == next.Keys + props(next).Keys
    ensures forall k :: k in props(next) ==> r[k] == props(next)[k]
    ensures forall k :: k in next && k !in props(next) ==> r[k] == next[k]
  {
    next + props(next)
  }

  /** `withHandlers`: every handler name maps to its factory applied to `next`, over `next`. */
  function WithHandlersStep(handlers: map<string, Props -> Value>, next: Props): (r: Props)
    ensures r.Keys == next.Keys + handlers.Keys
    ensures forall k :: k in handlers ==> r[k] == handlers[k](next)
    ensures forall k :: k in next && k !in handlers ==> r[k] == next[k]
  {
    next + map k | k in handlers :: handlers[k](next)
  }

  /** `pure`: skip exactly when `current` shallow-equals `next`, else pass `next` through untouched. */
  function PureStep(next: Props, current: Props): (r: Option<Props>)
    ensures r.None? <==> ShallowEquals(current, next)
    ensures r.Some? ==> r.value == next
  {
    if ShallowEquals(current, next) then None else Some(next)
  }

  /**
   * `withState`: `next` with `name` bound to the cell's current value and
   * `functionName` bound to the setter; when the two names coincide the setter wins.
   */
  function WithStateStep(name: string, functionName: string, cell: Value, setter: Value, next: Props): (r: Props)
    ensures r.Keys == next.Keys + {name, functionName}
    ensures r[functionName] == setter
    ensures name != functionName ==> r[name] == cell
    ensures forall k :: k in next && k != name && k != functionName ==> r[k] == next[k]
  {
    next[name := cell][functionName := setter]
  }

  /**
   * The transformer an enhancer gives once bound to element `owner` at
   * position `stage`, with `cell` the value of that stage's state cell.
   * Only `pure` and custom transformers can ask to skip.
   */
  function Transform(e: Enhancer, owner: nat, stage: nat, cell: Value, next: Props, current: Props): (r: Option<Props>)
    ensures r.None? ==> e.Pure? || e.Custom?
  {
    match e
    case WithProps(props) => Some(WithPropsStep(props, next))
    case WithHandlers(handlers) => Some(WithHandlersStep(handlers, next))
    case Pure => PureStep(next, current)
    case WithState(name, functionName, _) =>
      Some(WithStateStep(name, functionName, cell, StateSetter(owner, stage), next))
    case Custom(transform) => transform(next, current)
  }
}
