# webcompose in Dafny

A model of the props-update machinery of webcompose, a small
functional-composition layer over browser Custom Elements. An element type
declares its properties (default value, observed attribute, type) and an
ordered list of enhancers. Each element instance keeps a props bag. Every
change runs the bag through the enhancers' transformers, left to right. The
result becomes the new props and is handed to the renderer. A transformer can
answer `false` to skip the update, unless the update is forced.

Files, one module each:

- `values.dfy` (`Values`): values as `===` tells them apart, props bags, and reading a missing key as `undefined`.
- `shallow_equals.dfy` (`ShallowEquality`): `shallowEquals` and its properties.
- `enhancers.dfy` (`Enhancers`): `withProps`, `withHandlers`, `pure` and `withState` as transformers. `Custom` stands for any other transformer, as a fixed function of `next` and `current`.
- `pipeline.dfy` (`Pipeline`): binding enhancers to an instance (`Bind`), one update pass as a fold (`Run`), the loop that computes it (`RunPipeline`), and a whole update (`UpdateOutcome`). The lemmas here cover ordering, abort, force, and the `pure` and `withState` stages.
- `element.dfy` (`Element`): property definitions, attribute parsing, the constructor's initialisation loop, and the class `ComposableElement`.

The class has `props`, a fixed `composition`, the withState cells and a ghost
`trace`. The trace records every transformer call and every call to the
renderer, in order. Each state-changing method is specified against
`UpdateOutcome`, whose properties are proved as lemmas in `Pipeline`.

Behaviour of the code that is easy to misread:

- `shallowEquals` does not check that the key sets are identical. It compares
  key counts, then reads each key of the first bag in the second. An
  `undefined` entry in the first bag therefore matches a key the second bag
  lacks. Bags with different key sets can compare equal, and the comparison is
  not symmetric (`UndefinedEntryMatchesMissingKey`). When the first bag holds no
  `undefined`, it is exact equality (`ShallowEqualsIsEqualityWithoutUndefined`).
- The pre/postrender hooks are guarded by `$prenderer` (webcompose.js:119,
  124), but the constructor stores the hooks as `$prerender` and `$postrender`
  (webcompose.js:60-62) and nothing assigns `$prenderer`. The element keeps
  that guard as the field `prenderer`, which stays false, and `UpdateOutcome`
  takes it as a parameter. With the guard false, an update renders and calls
  no hook. Were it true, the update would call `$prender`, which is not
  defined either, so it would throw after storing the props and before
  rendering (`UpdateRunsNoHook` proves both sides). Since no code path calls
  the stored hooks, the model does not keep `$prerender` or `$postrender`.
- Only declared props get an accessor (webcompose.js:54, 86-96). Assigning
  any other name sets a plain field and starts no update (`SetProp`).
- `withHandlers` calls each handler factory with the running props on every
  pass and merges the results. It does not bind the handlers once per instance.
- The property setter skips writes of a value `===` to the current one. The
  attribute callback, by contrast, always goes through `updateProp`.
- webcompose.js defines no `lifecycle` enhancer, so the model has none.

## Model

| member | source | states |
|---|---|---|
| `ShallowEquality.ShallowEquals` | webcompose.js:11-28 | The same bag is always equal to itself. Bags with different key counts are never equal. A true verdict means every key of the first bag reads the same value in the second. |
| `ShallowEquality.ShallowEqualsKeywise` | webcompose.js:15-27 | With equal key counts, the verdict is true exactly when every key of the first bag maps to an `===`-equal value in the second, a missing key reading as `undefined`. |
| `ShallowEquality.ShallowEqualsDetectsChangedValue` | webcompose.js:21-25 | A key that holds different values in the two bags makes them unequal. |
| `ShallowEquality.ShallowEqualsIgnoresKeysOnlyInSecond` | webcompose.js:21-25 | Changing the value of a key that only the second bag holds never changes the verdict. |
| `ShallowEquality.ShallowEqualsIsEqualityWithoutUndefined` | webcompose.js:11-28 | If the first bag holds no `undefined`, shallow equality holds exactly when the two bags are equal: same keys, same values. |
| `ShallowEquality.UndefinedEntryMatchesMissingKey` | webcompose.js:17-25 | `{x: undefined}` is shallow-equal to `{y: 1}` although their keys differ, and the reverse comparison is false. |
| `Enhancers.WithPropsStep` | webcompose.js:130-134 | The result holds the keys of `next` and of `props(next)`. The overlay's value wins on a shared key, and every other key keeps `next`'s value. |
| `Enhancers.WithHandlersStep` | webcompose.js:136-143 | Every handler name maps to its factory applied to `next`. Every other key of `next` is kept, and no other key appears. |
| `Enhancers.PureStep` | webcompose.js:145-152 | `pure` skips exactly when `current` shallow-equals `next` (current first), and otherwise passes `next` through unchanged. |
| `Enhancers.WithStateStep` | webcompose.js:161-166 | `next` gains `name` bound to the cell's value and `functionName` bound to the setter, the setter winning if the names coincide. Every other key is kept. |
| `Enhancers.Transform` | webcompose.js:130-168 | Only `pure` and custom transformers ever skip; `withProps`, `withHandlers` and `withState` always return props. |
| `Pipeline.Bind` | webcompose.js:34-36 | Binding the composition to an instance gives one transformer per enhancer, in declaration order. |
| `Pipeline.BoundStageIgnoresInstance` | webcompose.js:130-152 | A `withProps`, `withHandlers` or `pure` stage ignores the instance it is bound to: bound to any two instances, with any cells, it gives the same result on every input. |
| `Pipeline.BoundStateStageTellsInstancesApart` | webcompose.js:154-166 | A `withState` stage depends on its instance. Bound to two different instances it gives different results, because each exposes its own setter. Bound to different cell values, it exposes different values under `name`, unless `name` is also the setter's name. |
| `Pipeline.RunPipeline` | webcompose.js:104-116 | The loop of `$updateProps` returns exactly the fold `Run` over all stages: the running value, or the abort, and the transformer calls made. |
| `Pipeline.RunCallsInOrder` | webcompose.js:104-116 | The i-th transformer call is to stage i. Its `next` is the running value after stages 0..i-1 (the caller's candidate for stage 0), and its `current` is the pre-update props. A pass that did not abort called every stage. |
| `Pipeline.AbortIsFinal` | webcompose.js:107-113 | Once a non-forced pass aborts, no later stage is called and the pass's outcome stays fixed. |
| `Pipeline.UnforcedAbortsIffSomeStageSkips` | webcompose.js:105-114 | A non-forced pass aborts exactly when some stage it reaches returns `false`. |
| `Pipeline.ForcedRunCompletes` | webcompose.js:107-110 | A forced pass never aborts: it calls every stage once and always yields props. |
| `Pipeline.ForcedSkipCarriesOver` | webcompose.js:107-110 | In a forced pass, a stage returning `false` leaves the running value unchanged. |
| `Pipeline.UnforcedAgreesWithForced` | webcompose.js:105-116 | A non-forced pass that completes makes the same calls and gives the same props as the forced pass. |
| `Pipeline.UpdateEventsShape` | webcompose.js:103-127 | An update emits only calls to stages 0, 1, … with the pre-update props as `current`, then at most one render, which comes last and carries the new props. It renders exactly when the pass completes, and no hook ever runs. |
| `Pipeline.UpdateRunsNoHook` | webcompose.js:118-126 | With the `$prenderer` guard false, no update attempts a hook call. With it true, every update whose pass completes would call `$prender` and render nothing. |
| `Pipeline.UnforcedAbortKeepsProps` | webcompose.js:111-113 | An aborted non-forced update leaves the props as they were and renders nothing. |
| `Pipeline.ForcedUpdateRendersOnce` | webcompose.js:107-123 | A forced update calls every stage once, then renders exactly once. The props it renders are the fold's result, which become the new props. |
| `Pipeline.PureStageAborts` | webcompose.js:145-152 | A `pure` stage whose running value shallow-equals the current props ends a non-forced pass there, with nothing rendered. |
| `Pipeline.PureFirstSuppressesUnchangedUpdate` | webcompose.js:145-152 | With `pure` first, a non-forced update to props shallow-equal to the current ones calls only `pure`. The props stay and nothing renders. |
| `Pipeline.ForcedUpdateIgnoresPure` | webcompose.js:82-84 | With `pure` first, a forced update over the current props still renders, and `pure`'s skip carries the props over. |
| `Pipeline.StateStageExposesCell` | webcompose.js:161-166 | When the last stage is `withState` and the pass completes, the result holds that stage's cell under `name` and the instance's setter under `functionName`. |
| `Element.AttrValue` | webcompose.js:72-80 | Number-typed text goes through the host float parser. Array- and object-typed text gives the host JSON parser's result. Any other text passes through as a string. Only the JSON parse can fail. |
| `Element.InitialProps` | webcompose.js:41-56 | The constructor's loop yields exactly the fold `InitPrefix` over the property definitions, in key order, or the failure when an attribute fails to parse. |
| `Element.InitFailureIsFinal` | webcompose.js:49-52 | Once an attribute fails to parse, construction fails whatever definitions follow. |
| `Element.InitialPropsKeys` | webcompose.js:42-48 | The initial bag has exactly the declared property names as keys. The attribute table has exactly the non-empty observed attribute names. |
| `Element.InitialPropsValues` | webcompose.js:46-52 | Each prop starts at the parsed attribute when its attribute is observed and present, and at its default otherwise. |
| `Element.InitialPropsFailsIff` | webcompose.js:47-52 | Construction fails exactly when some observed, present attribute fails to parse. |
| `Element.InitialAttrDefsMatch` | webcompose.js:47-48 | Every attribute-table entry is a definition observing that attribute, paired with its own prop key. |
| `Element.InitialCells` | webcompose.js:154-156 | Binding the composition starts each `withState` stage's cell at that stage's initial value. |
| `Element.Candidate` | webcompose.js:99-101 | The candidate bag reads `value` at `name` and agrees with the current props at every other key. |
| `Element.ComposableElement.GetProp` | webcompose.js:88 | The getter, defined for declared props only, reads the prop's current value, or `undefined` when the bag has no such key. |
| `Element.ComposableElement.constructor` | webcompose.js:31-63 | A new element holds the given props and attribute table, its type's composition, fresh state cells, and an empty trace. Its declared names are the keys of `properties`, and the hook guard is false. |
| `Element.ComposableElement.Create` | webcompose.js:31-63 | Construction fails (the constructor throws) exactly when the initialisation fold fails. Otherwise the new element holds the fold's props and attribute table, its declared names are exactly its prop keys, and nothing has been rendered. |
| `Element.ComposableElement.UpdateProps` | webcompose.js:103-127 | Runs the loop, then (unless aborted) takes its result as the new props and renders it. The new props and the new trace are those of `UpdateOutcome` for the pre-update props, and the state cells do not change. |
| `Element.ComposableElement.Connected` | webcompose.js:82-84 | A forced update over the current props: every stage is called, and then exactly one render with the new props. |
| `Element.ComposableElement.UpdateProp` | webcompose.js:99-101 | A non-forced update starting from the current props changed at `name` only. |
| `Element.ComposableElement.SetProp` | webcompose.js:86-97 | Assigning a name that is not a declared prop changes neither props nor trace. Assigning a declared prop a value `===` to the current one changes nothing. Any other value makes a non-forced update with the props changed at that key only. |
| `Element.ComposableElement.AttributeChanged` | webcompose.js:65-70 | An unobserved attribute changes nothing. An observed one whose text fails to parse throws and changes nothing. Otherwise its parsed value goes to `updateProp`, with no same-value check. |
| `Element.ComposableElement.SetState` | webcompose.js:157-160 | The setter stores the new value in its cell before running a non-forced update over the current props. When its stage is last and the pass completes, the prop it names reads the new value. |

## Left out

- lit-html's `html` and `render` (webcompose.js:9, 122-123) are foreign code. A render is modelled as a `Rendered(props)` entry in the ghost trace.
- `parseFloat` and `JSON.parse` are host parsers. They are parameters (`Parsers`); only the dispatch on `type` is modelled.
- `connect` (webcompose.js:170-187) is not modelled. It needs DOM ancestor lookup and an external store subscription, and it mutates the running bag in place with `Object.assign` (webcompose.js:177-182). `connectedCallback`, the withState setter and `connect`'s own subscription pass `$props` itself as `nextProps` (webcompose.js:83, 159, 174). When the value reaching `connect` is still that object, because `connect` comes first or every earlier stage returned `next` itself, the stage rewrites the current props that every later stage reads as `current`. A later `pure` then skips, and the rewrite survives an aborted pass. `updateProp` passes a fresh copy (webcompose.js:100), so its updates are not affected. A `Custom` stage cannot change `current` or the element's props, so it cannot express `connect`.
- `attachShadow`, the `Object.defineProperty` accessor mechanics and the `observedAttributes` prototype mutation (webcompose.js:40, 57-59, 87-96) are host-environment mechanics. The browser's dispatch of `attributeChangedCallback` is also left out; only the callback's own body is modelled.
- `Element.ComposableElement.AttributeChanged` does not model a removed attribute, whose new value is `null`. The callback's text is always a string.
- Re-entrant updates are not modelled. An example is a withState setter called from inside a transformer during a pass; every update is treated as atomic.
- Object identity is not modelled. Two bags are the same when they are equal, which is sound because `===` on values is modelled as reflexive. `NaN`, which is not `===` to itself, is not modelled.
- `Enhancers.WithHandlersStep` treats each handler factory as a function of `next`. A factory that allocates a new closure on each call gives a value that is never `===` to an earlier one. The model does not capture this, so it cannot show that such a stage defeats a later `pure`.
- `Enhancers.Custom` models a user-written enhancer's transformer as a fixed function of `next` and `current`. In the source an enhancer is a function of the instance (webcompose.js:35), so its transformer can read the element or keep closure state that changes between passes. The model captures neither, so it assumes a custom stage answers the same way on every pass.
- `Element.ComposableElement.Create` takes the instance `id` from its caller, and the model assumes the ids of live elements are distinct. In the source each instance gets its own setter closure (webcompose.js:155-157); two elements given the same `id` would share setters in the model.
- `Enhancers.WithPropsStep` treats `props(next)` the same way, and so does a `Custom` transformer. A `props` function or transformer that builds new objects or arrays on every call gives values never `===` to earlier ones. The model does not capture that freshness either.
- `Values.Get` reads a missing key as `undefined`, but in JavaScript a name inherited from `Object.prototype` (`toString`, `constructor`, `hasOwnProperty`, …) reads the inherited member. Prop and attribute names that collide with those members are not modelled. For example, `shallowEquals({toString: undefined}, {y: 1})` is false in the source and true in the model. The same lookup happens in the getter, the setter's guard and the attribute table (webcompose.js:22, 66, 88, 90).
- `Element.ComposableElement.GetProp` is defined for declared props only. An undeclared name reads a plain field of the element, which is outside the model.
- A transformer that returns a falsy value other than `false` is not modelled. The source only treats `false` as a skip; every stage here returns props or a skip.
- A missing `composition` or `properties` on the element type is modelled as an empty list. The source skips the loop in that case, so the behaviour is the same.
