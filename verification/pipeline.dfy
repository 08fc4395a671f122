/**
 * One pass of the composition pipeline, as a left-to-right fold.
 *
 * Every transformer receives the running value as `next` and the props the
 * element held before the update as `current`. A skip (`None`) ends a
 * non-forced pass with no new props and no render; in a forced pass it is
 * ignored and the running value carries over.
 */
module Pipeline {
  import opened Values
  import opened ShallowEquality
  import opened Enhancers

  /** What the outside world can observe of an element, in order. */
  datatype Event =
    | Transformed(stage: nat, next: Props, current: Props) // transformer `stage` was called
    | Rendered(props: Props)                             // the renderer was handed these props
    | PrerenderCalled(props: Props)                      // `$prender` was called with these props

  /** A bound prop transformer: `(next, current) -> next' | false`, with `None` for `false`. */
  type Transformer = (Props, Props) -> Option<Props>

  /**
   * Binding the enhancers to element `owner` (`composition.map(f => f(this))`),
   * with `cells` the current values of the per-stage state cells.
   */
  function Bind(owner: nat, stages: seq<Enhancer>, cells: seq<Value>): (ts: seq<Transformer>)
    requires |stages| == |cells|
    ensures |ts| == |stages|
  {
    seq(|stages|, i requires 0 <= i < |stages| =>
      (next: Props, current: Props) => Transform(stages[i], owner, i, cells[i], next, current))
  }

  /** Bound transformer `i` is enhancer `i`'s transformer for this instance and that stage's cell. */
  lemma BindAt(owner: nat, stages: seq<Enhancer>, cells: seq<Value>, i: nat, next: Props, current: Props)
    requires |stages| == |cells| && i < |stages|
    ensures Bind(owner, stages, cells)[i](next, current) == Transform(stages[i], owner, i, cells[i], next, current)
  {
  }

  /**
   * Of the library's enhancers only `withState` depends on the instance it
   * is bound to: `withProps`, `withHandlers` and `pure` ignore `this`, so two
   * instances, whatever their cells, get transformers that agree on every input.
   */
  lemma BoundStageIgnoresInstance(owner1: nat, owner2: nat, stages: seq<Enhancer>, cells1: seq<Value>, cells2: seq<Value>,
                                  i: nat, next: Props, current: Props)
    requires |stages| == |cells1| == |cells2| && i < |stages| && !stages[i].WithState? && !stages[i].Custom?
    ensures Bind(owner1, stages, cells1)[i](next, current) == Bind(owner2, stages, cells2)[i](next, current)
  {
    BindAt(owner1, stages, cells1, i, next, current);
    BindAt(owner2, stages, cells2, i, next, current);
  }

  /**
   * A `withState` stage does depend on it: bound to another instance it
   * exposes another setter, and bound to another cell value it exposes that
   * value (unless the setter's name hides it).
   */
  lemma BoundStateStageTellsInstancesApart(owner1: nat, owner2: nat, stages: seq<Enhancer>, cells1: seq<Value>, cells2: seq<Value>,
                                           i: nat, next: Props, current: Props)
    requires |stages| == |cells1| == |cells2| && i < |stages| && stages[i].WithState?
    requires owner1 != owner2 || (cells1[i] != cells2[i] && stages[i].name != stages[i].functionName)
    ensures Bind(owner1, stages, cells1)[i](next, current) != Bind(owner2, stages, cells2)[i](next, current)
  {
    BindAt(owner1, stages, cells1, i, next, current);
    BindAt(owner2, stages, cells2, i, next, current);
    var s := stages[i];
    var r1 := Bind(owner1, stages, cells1)[i](next, current).value;
    var r2 := Bind(owner2, stages, cells2)[i](next, current).value;
    if owner1 != owner2 {
      assert r1[s.functionName] != r2[s.functionName];
    } else {
      assert r1[s.name] != r2[s.name];
    }
  }

  /** The running value after a number of stages (`None` once aborted) and the calls made so far. */
  datatype Pass = Pass(result: Option<Props>, calls: seq<Event>)

  /** The first `k` stages of a pass that starts from `next`. */
  function Run(ts: seq<Transformer>, next: Props, current: Props, force: bool, k: nat): Pass
    requires k <= |ts|
    decreases k
  {
    if k == 0 then Pass(Some(next), [])
    else
      var prev := Run(ts, next, current, force, k - 1);
      match prev.result
      case None => prev
      case Some(running) =>
        var calls := prev.calls + [Transformed(k - 1, running, current)];
        match ts[k - 1](running, current)
        case Some(r) => Pass(Some(r), calls)
        case None => if force then Pass(Some(running), calls) else Pass(None, calls)
  }

  /** One more stage of a pass that has not aborted. */
  lemma RunStep(ts: seq<Transformer>, next: Props, current: Props, force: bool, i: nat, running: Props)
    requires i < |ts| && Run(ts, next, current, force, i).result == Some(running)
    ensures var calls := Run(ts, next, current, force, i).calls + [Transformed(i, running, current)];
      Run(ts, next, current, force, i + 1) ==
        match ts[i](running, current)
        case Some(r) => Pass(Some(r), calls)
        case None => Pass(if force then Some(running) else None, calls)
  {
  }

  /**
   * The loop of `$updateProps`: call each transformer on the running value
   * in turn and stop at the first skip, unless the pass is forced.
   */
  method RunPipeline(ts: seq<Transformer>, next: Props, current: Props, force: bool)
    returns (result: Option<Props>, ghost calls: seq<Event>)
    ensures result == Run(ts, next, current, force, |ts|).result
    ensures calls == Run(ts, next, current, force, |ts|).calls
  {
    var running := next;
    calls := [];
    var i := 0;
    while i < |ts|
      invariant 0 <= i <= |ts|
      invariant Run(ts, next, current, force, i) == Pass(Some(running), calls)
    {
      RunStep(ts, next, current, force, i, running);
      calls := calls + [Transformed(i, running, current)];
      var r := ts[i](running, current);
      if r.None? {
        if !force {
          AbortIsFinal(ts, next, current, i + 1, |ts|);
          return None, calls;
        }
      } else {
        running := r.value;
      }
      i := i + 1;
    }
    result := Some(running);
  }

  /** The props the element holds after an update, and the events the update produced. */
  datatype Outcome = Outcome(props: Props, events: seq<Event>)

  /**
   * A whole update: the pass over every stage, then (unless aborted) the new
   * props are stored and rendered. `prenderer` is whether the element's
   * `$prenderer` field is truthy. When it is, the update first calls
   * `$prender`, a field nothing assigns either, so that call throws after the
   * props are stored and before the renderer (or the postrender hook behind
   * the same guard) is reached.
   */
  function UpdateOutcome(ts: seq<Transformer>, next: Props, current: Props, force: bool, prenderer: bool): Outcome
  {
    var p := Run(ts, next, current, force, |ts|);
    match p.result
    case None => Outcome(current, p.calls)
    case Some(r) =>
      if prenderer then Outcome(r, p.calls + [PrerenderCalled(r)])
      else Outcome(r, p.calls + [Rendered(r)])
  }

  /** No hook call was attempted. */
  ghost predicate NoHookRan(t: seq<Event>)
  {
    forall i :: 0 <= i < |t| ==> !t[i].PrerenderCalled?
  }

  // ---------------------------------------------------------------- the fold

  /**
   * Stages run in order: the i-th call is to stage i, with the running value
   * after stages 0..i-1 as `next` (the caller's candidate for i = 0) and the
   * pre-update props as `current`. A pass that has not aborted called every stage.
   */
  lemma {:induction false} RunCallsInOrder(ts: seq<Transformer>, next: Props, current: Props, force: bool, k: nat)
    requires k <= |ts|
    ensures |Run(ts, next, current, force, k).calls| <= k
    ensures Run(ts, next, current, force, k).result.Some? ==> |Run(ts, next, current, force, k).calls| == k
    ensures forall i :: 0 <= i < |Run(ts, next, current, force, k).calls| ==>
      && Run(ts, next, current, force, i).result.Some?
      && Run(ts, next, current, force, k).calls[i] == Transformed(i, Run(ts, next, current, force, i).result.value, current)
  {
    if k > 0 {
      RunCallsInOrder(ts, next, current, force, k - 1);
      var prev := Run(ts, next, current, force, k - 1);
      if prev.result.Some? {
        var calls := Run(ts, next, current, force, k).calls;
        assert calls == prev.calls + [Transformed(k - 1, prev.result.value, current)];
        forall i | 0 <= i < |calls|
          ensures calls[i] == Transformed(i, Run(ts, next, current, force, i).result.value, current)
        {
          if i < k - 1 {
            assert calls[i] == prev.calls[i];
          }
        }
      }
    }
  }

  /** Once a non-forced pass aborts nothing more happens: no later stage runs. */
  lemma {:induction false} AbortIsFinal(ts: seq<Transformer>, next: Props, current: Props, j: nat, k: nat)
    requires j <= k <= |ts|
    requires Run(ts, next, current, false, j).result.None?
    ensures Run(ts, next, current, false, k) == Run(ts, next, current, false, j)
  {
    if k > j {
      AbortIsFinal(ts, next, current, j, k - 1);
    }
  }

  /** Stage `i` skips on the running value it receives. */
  ghost predicate Rejects(ts: seq<Transformer>, next: Props, current: Props, force: bool, i: nat)
    requires i < |ts|
  {
    var p := Run(ts, next, current, force, i);
    p.result.Some? && ts[i](p.result.value, current).None?
  }

  /** A non-forced pass aborts exactly when some stage it reaches skips. */
  lemma {:induction false} UnforcedAbortsIffSomeStageSkips(ts: seq<Transformer>, next: Props, current: Props, k: nat)
    requires k <= |ts|
    ensures Run(ts, next, current, false, k).result.None? <==>
      exists i :: 0 <= i < k && Rejects(ts, next, current, false, i)
  {
    if k > 0 {
      UnforcedAbortsIffSomeStageSkips(ts, next, current, k - 1);
      if Run(ts, next, current, false, k - 1).result.None? {
        var i :| 0 <= i < k - 1 && Rejects(ts, next, current, false, i);
        assert 0 <= i < k && Rejects(ts, next, current, false, i);
      } else if Run(ts, next, current, false, k).result.None? {
        assert Rejects(ts, next, current, false, k - 1);
      }
    }
  }

  /** A forced pass never aborts: it calls every stage and always yields props. */
  lemma {:induction false} ForcedRunCompletes(ts: seq<Transformer>, next: Props, current: Props, k: nat)
    requires k <= |ts|
    ensures Run(ts, next, current, true, k).result.Some?
    ensures |Run(ts, next, current, true, k).calls| == k
  {
    if k > 0 {
      ForcedRunCompletes(ts, next, current, k - 1);
      RunCallsInOrder(ts, next, current, true, k);
    }
  }

  /** In a forced pass a skip leaves the running value as it was. */
  lemma ForcedSkipCarriesOver(ts: seq<Transformer>, next: Props, current: Props, i: nat)
    requires i < |ts|
    requires Rejects(ts, next, current, true, i)
    ensures Run(ts, next, current, true, i + 1).result == Run(ts, next, current, true, i).result
  {
  }

  /** A non-forced pass that completes did exactly what the forced pass does. */
  lemma {:induction false} UnforcedAgreesWithForced(ts: seq<Transformer>, next: Props, current: Props, k: nat)
    requires k <= |ts|
    requires Run(ts, next, current, false, k).result.Some?
    ensures Run(ts, next, current, false, k) == Run(ts, next, current, true, k)
  {
    if k > 0 {
      UnforcedAgreesWithForced(ts, next, current, k - 1);
    }
  }

  // ---------------------------------------------------------------- updates

  /**
   * Every event of an update is a call to stage i at position i, except
   * that a render, when it happens, comes last and carries the new props.
   * The renderer is called at most once, and only when the pass completed.
   */
  lemma UpdateEventsShape(ts: seq<Transformer>, next: Props, current: Props, force: bool)
    ensures var o := UpdateOutcome(ts, next, current, force, false);
      && NoHookRan(o.events)
      && (forall i :: 0 <= i < |o.events| ==>
            (o.events[i].Transformed? && o.events[i].stage == i && o.events[i].current == current)
            || (i == |o.events| - 1 && o.events[i] == Rendered(o.props)))
      && (Rendered(o.props) in o.events <==> Run(ts, next, current, force, |ts|).result.Some?)
  {
    RunCallsInOrder(ts, next, current, force, |ts|);
  }

  /**
   * The hook guard decides: with `$prenderer` unset no update attempts a hook
   * call, and were it set, every update whose pass completes would attempt one
   * and render nothing.
   */
  lemma UpdateRunsNoHook(ts: seq<Transformer>, next: Props, current: Props, force: bool)
    ensures NoHookRan(UpdateOutcome(ts, next, current, force, false).events)
    ensures Run(ts, next, current, force, |ts|).result.Some? ==>
      var o := UpdateOutcome(ts, next, current, force, true);
      !NoHookRan(o.events) && Rendered(o.props) !in o.events
  {
    RunCallsInOrder(ts, next, current, force, |ts|);
    var p := Run(ts, next, current, force, |ts|);
    if p.result.Some? {
      var o := UpdateOutcome(ts, next, current, force, true);
      assert o.events[|o.events| - 1].PrerenderCalled?;
      forall i | 0 <= i < |o.events| ensures o.events[i] != Rendered(o.props) {
        if i < |p.calls| {
          assert o.events[i] == p.calls[i];
        }
      }
    }
  }

  /** Appending hook-free events to a hook-free trace keeps it hook-free. */
  lemma NoHookRanAppend(t: seq<Event>, u: seq<Event>)
    requires NoHookRan(t) && NoHookRan(u)
    ensures NoHookRan(t + u)
  {
    forall i | 0 <= i < |t + u| ensures !(t + u)[i].PrerenderCalled? {
      if i >= |t| {
        assert (t + u)[i] == u[i - |t|];
      }
    }
  }

  /** A non-forced update whose pass aborts leaves the props alone and renders nothing. */
  lemma UnforcedAbortKeepsProps(ts: seq<Transformer>, next: Props, current: Props, prenderer: bool)
    requires Run(ts, next, current, false, |ts|).result.None?
    ensures var o := UpdateOutcome(ts, next, current, false, prenderer);
      && o.props == current
      && forall i :: 0 <= i < |o.events| ==> !o.events[i].Rendered?
  {
    RunCallsInOrder(ts, next, current, false, |ts|);
  }

  /**
   * A forced update calls every stage once, then renders exactly once with
   * the fold's result, which becomes the new props.
   */
  lemma ForcedUpdateRendersOnce(ts: seq<Transformer>, next: Props, current: Props)
    ensures var o := UpdateOutcome(ts, next, current, true, false);
      && |o.events| == |ts| + 1
      && o.events[|ts|] == Rendered(o.props)
      && Some(o.props) == Run(ts, next, current, true, |ts|).result
      && forall i :: 0 <= i < |ts| ==> o.events[i].Transformed? && o.events[i].stage == i
  {
    ForcedRunCompletes(ts, next, current, |ts|);
    RunCallsInOrder(ts, next, current, true, |ts|);
  }

  // ---------------------------------------------------------------- enhancers in a chain

  /** In a non-forced pass, a stage that skips on the value it receives ends the pass there. */
  lemma SkipEndsUnforcedPass(ts: seq<Transformer>, next: Props, current: Props, j: nat)
    requires j < |ts| && Rejects(ts, next, current, false, j)
    ensures Run(ts, next, current, false, |ts|) == Run(ts, next, current, false, j + 1)
    ensures Run(ts, next, current, false, |ts|).result.None?
  {
    AbortIsFinal(ts, next, current, j + 1, |ts|);
  }

  /**
   * A `pure` stage that receives a running value shallow-equal to the current
   * props ends a non-forced pass: nothing after it runs and nothing renders.
   */
  lemma PureStageAborts(owner: nat, stages: seq<Enhancer>, cells: seq<Value>, next: Props, current: Props, j: nat)
    requires |stages| == |cells| && j < |stages| && stages[j].Pure?
    requires Run(Bind(owner, stages, cells), next, current, false, j).result.Some?
    requires ShallowEquals(current, Run(Bind(owner, stages, cells), next, current, false, j).result.value)
    ensures var ts := Bind(owner, stages, cells);
      && Run(ts, next, current, false, |ts|) == Run(ts, next, current, false, j + 1)
      && Run(ts, next, current, false, |ts|).result.None?
  {
    var ts := Bind(owner, stages, cells);
    var running := Run(ts, next, current, false, j).result.value;
    BindAt(owner, stages, cells, j, running, current);
    SkipEndsUnforcedPass(ts, next, current, j);
  }

  /**
   * With `pure` first, a non-forced update to props shallow-equal to the
   * current ones only calls `pure`: props stay, nothing renders. This covers
   * the withState setter and every other caller that passes the current
   * props back in unchanged.
   */
  lemma PureFirstSuppressesUnchangedUpdate(owner: nat, stages: seq<Enhancer>, cells: seq<Value>, next: Props, current: Props, prenderer: bool)
    requires |stages| == |cells| && |stages| > 0 && stages[0].Pure?
    requires ShallowEquals(current, next)
    ensures UpdateOutcome(Bind(owner, stages, cells), next, current, false, prenderer) == Outcome(current, [Transformed(0, next, current)])
  {
    PureStageAborts(owner, stages, cells, next, current, 0);
  }

  /** A forced update over the current props renders even when a leading `pure` skips. */
  lemma ForcedUpdateIgnoresPure(owner: nat, stages: seq<Enhancer>, cells: seq<Value>, current: Props)
    requires |stages| == |cells| && |stages| > 0 && stages[0].Pure?
    ensures var o := UpdateOutcome(Bind(owner, stages, cells), current, current, true, false);
      Rendered(o.props) in o.events
    ensures Run(Bind(owner, stages, cells), current, current, true, 1).result == Some(current)
  {
    var ts := Bind(owner, stages, cells);
    BindAt(owner, stages, cells, 0, current, current);
    ForcedUpdateRendersOnce(ts, current, current);
  }

  /**
   * When the last stage is `withState`, a completed pass exposes that stage's
   * cell under `name` and the instance's setter under `functionName`.
   */
  lemma StateStageExposesCell(owner: nat, stages: seq<Enhancer>, cells: seq<Value>, next: Props, current: Props, force: bool)
    requires |stages| == |cells| && |stages| > 0 && stages[|stages| - 1].WithState?
    requires Run(Bind(owner, stages, cells), next, current, force, |stages|).result.Some?
    ensures var last := |stages| - 1;
      var s := stages[last];
      var p := Run(Bind(owner, stages, cells), next, current, force, |stages|).result.value;
      && p[s.functionName] == StateSetter(owner, last)
      && (s.name != s.functionName ==> p[s.name] == cells[last])
  {
    var ts := Bind(owner, stages, cells);
    var last := |stages| - 1;
    var running := Run(ts, next, current, force, last).result.value;
    BindAt(owner, stages, cells, last, running, current);
  }
}
