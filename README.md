# Spotlight focus engine and key-repeat dispatcher, in Dafny

This project models the core of Spotlight, the 5-way (remote-control D-pad) focus
navigation library for the enyo UI framework, and proves what it does.

- **Tree navigation** (`tree.dfy`, module `Tree`) covers `isSpottable`, `getChildren`,
  `getParent`, `getSiblings` and `getFirstChild`.
  - The host's element tree is a sequence of nodes. Each node has its `spotlight`
    attribute as a JavaScript value, a kind tag, a parent index, an ordered child list
    and its absolute bounds.
  - A well-formed tree numbers every element after its parent.
  - The queries are functions. The loops of kind.Spotlight.js are methods proved equal to them.
  - `getChildren` and `getParent` are also characterised against an independent,
    upward-walking definition (`HiddenUnder`).
- **Adjacency selection** (`adjacency.dfy`, module `Adjacency`) covers `_isInHalfPlane`
  and the arg-max loop of `_getAdjacentControl`. The precedence score is a given,
  non-negative function.
- **Decorator resolution** (`decorators.dfy`, module `Decorators`) covers the
  `_getDecorator` scan and its per-kind cache.
  - Kinds are numbered with single inheritance, and `instanceof` is `IsA`.
  - We prove that the scan picks the most specific applicable decorator, ties going to
    the first entry.
- **The focus state machine** (`focus.dfy`, module `Focus`) has every handler as a
  transition function on the engine's state:
  - `spot`, `_setCurrent`, `onSpotlightEvent`, `onMoveTo`, `onSelect`, `onFocus`,
    `onBlur`, `onPoint`;
  - the key table of `onKeyEvent`, `onEvent`, `initialize` and `deregister`;
  - delegation to decorators.

  A dispatched semantic event returns synchronously into `onSpotlightEvent` while an
  owner is attached. That round trip is a direct call, so the handlers are mutually
  recursive functions. The state records which controls carry the `spotlight` marker and
  the events handed to the host, in order.
- **The engine class** (`engine.dfy`, class `Engine.Spotlight`) keeps the static fields
  and runs each handler in place. Each handler method is proved to produce exactly the
  state its `Focus` function gives (the same name, except that `OnKeyEvent` runs
  `Focus.KeyEvent`). `GetDecorator` is proved against `Decorators.Resolve`, `GetTarget`
  against `Focus.Target`, and the accessors read or set single fields.
- **The key-repeat dispatcher** (`keyrepeat.dfy`, module `KeyRepeat`) covers
  `processKey`, `start`, `stop` and `_continue`.
  - The state is a value `Repeat` and a class `Dispatcher` with the four fields.
  - The host clock enters as `now` (milliseconds) on every call.
  - The timer that kind.Spotlight.Dispatcher.js arms becomes the delay each step reports.

Inputs from outside the engine are parameters:
- the tree, kinds, decorator namespace and score (`Focus.World`);
- raw browser events (`Input.RawEvent`, whose target is the control the id lookup found,
  if any);
- the clock value `now`.

## Model

| member | source | states |
|---|---|---|
| Tree.IsSpottable | kind.Spotlight.js:364-367 | a control is spottable exactly when its `spotlight` value is `true`, a non-empty string or a non-zero number (so `'container'` is spottable, and undefined, null, false, the empty string and 0 are not) |
| Tree.Children | kind.Spotlight.js:388-403 | getChildren returns only spottable elements strictly below the control |
| Tree.ChildrenExactly | kind.Spotlight.js:388-403 | an element is in getChildren(c) if and only if it is spottable and every element between it and `c` is non-spottable (both directions) |
| Tree.HiddenChildrenIncluded | kind.Spotlight.js:397-400 | what getChildren finds below a non-spottable element hidden under `c` is also in getChildren(c) |
| Tree.NoSpottableBelow | kind.Spotlight.js:388-403 | with no spottable element hidden under `c`, getChildren(c) is empty |
| Tree.GetChildren | kind.Spotlight.js:388-403 | the loop with its recursive concatenation computes getChildren |
| Tree.Parent | kind.Spotlight.js:406-418 | getParent always yields an element of the tree |
| Tree.ParentIsNearestSpottable | kind.Spotlight.js:406-418 | getParent of a parentless element is itself; otherwise every element strictly between them is non-spottable, and the result is spottable (the nearest spottable ancestor) or the root |
| Tree.GetParent | kind.Spotlight.js:406-418 | the while loop up the parent links computes getParent |
| Tree.Siblings | kind.Spotlight.js:370-385 | the siblings are spottable elements of the tree |
| Tree.GetSiblings | kind.Spotlight.js:370-385 | the siblings are the spottable children of getParent; selfPosition is absent exactly when the control is not among them, else the last position holding it |
| Tree.FirstChild | kind.Spotlight.js:439-442 | absent exactly when getChildren is empty; otherwise the first element of getChildren (tree order), which is spottable |
| Tree.GetFirstChild | kind.Spotlight.js:439-442 | computes getFirstChild |
| Adjacency.InHalfPlane | kind.Spotlight.js:111-123 | the strict comparison of tops (UP, DOWN) or lefts (LEFT, RIGHT) of the two boxes |
| Adjacency.HalfPlaneMirror | kind.Spotlight.js:111-123 | each direction is the opposite one with the boxes swapped; no box is on both sides; a box is on one side or the other exactly when the compared coordinate differs, so a tie on it excludes the candidate |
| Adjacency.Scan | kind.Spotlight.js:163-174 | the best score stays non-negative; there is a match exactly when it is positive, and the match is an eligible candidate holding that score |
| Adjacency.ScanIsFirstMaximum | kind.Spotlight.js:163-174 | after the loop, no eligible candidate beats the best score; no match leaves the score 0; a match is eligible, scores positive and equals the best, and every eligible candidate before it scores strictly less |
| Adjacency.Adjacent | kind.Spotlight.js:152-176 | absent only if every eligible sibling scores 0; otherwise a sibling other than the control, strictly in the requested half-plane, with positive maximal score, first in sibling order among ties |
| Adjacency.GetAdjacentControl | kind.Spotlight.js:152-176 | getSiblings then the loop computes the adjacent control |
| Adjacency.BestMatch | kind.Spotlight.js:163-174 | the loop keeping the best match and score computes the scan |
| Decorators.Pick | kind.Spotlight.js:77-88 | a decorator the scan picks applies to the kind (its target is the kind or an ancestor) |
| Decorators.PickIsMostSpecific | kind.Spotlight.js:77-88 | the scan picks nothing exactly when nothing applies; otherwise its target inherits from every applicable target, and every applicable entry before it targets a strict ancestor |
| Decorators.PickDecorator | kind.Spotlight.js:77-88 | the `for in` loop computes the scan |
| Decorators.Lookup | kind.Spotlight.js:74-75 | the named entry if the namespace has one, absent exactly when no entry has that name |
| Decorators.Resolve | kind.Spotlight.js:66-93 | a cached kind returns its cached value with the cache unchanged; otherwise containers get the `Container` entry and other controls the scan's pick; the answer is stored under the kind, except a missing `Container` entry (undefined, which the cache test reads as not cached) |
| Decorators.ContainerMissIsNotCached | kind.Spotlight.js:66-93 | a container resolved with no `Container` entry leaves its kind unresolved, so a later plain element of that kind still gets the scan's pick; a plain element's null is cached and returned for later containers of that kind |
| Decorators.IsATransitive | kind.Spotlight.js:79-83 | the instanceof relation over the lineage is transitive |
| Decorators.IsA | kind.Spotlight.js:79 | `instanceof` over the lineage; an ancestor kind is numbered no later than its descendant |
| Decorators.StrictSub | kind.Spotlight.js:83 | `a.prototype instanceof b`: `b` is a strict ancestor, numbered before `a` |
| Decorators.Applies | kind.Spotlight.js:79 | a decorator applies when its target kind is the kind or one of its ancestors |
| Decorators.LineageIsAChain | kind.Spotlight.js:79-83 | two kinds a kind is an instance of are related by lineage |
| Decorators.StrictSubIsProperIsA | kind.Spotlight.js:83 | `a.prototype instanceof b` holds exactly when `a` inherits from `b` and differs from it |
| Focus.KeyCommand | kind.Spotlight.js:238-266 | 13/53 Select, 37/52 Left, 38/50 Up, 39/54 Right, 40/56 Down, each if and only if; every other code maps to nothing |
| Focus.SpotTarget | kind.Spotlight.js:425-428 | spot resolves to the control itself when it is spottable, otherwise to the first element of its getChildren; the result is always spottable, and it fails exactly when the control is non-spottable and has no spottable children |
| Focus.Target | kind.Spotlight.js:178-187 | _getTarget gives a spottable control itself; otherwise the control or an ancestor reached through non-spottable elements that is spottable or the root |
| Focus.MoveTarget | kind.Spotlight.js:313-320 | the destination of a move is an element of the tree |
| Focus.Delegate | kind.Spotlight.js:97-109 | events not named `onSpotlight...` pass with the cache untouched; the cache only grows and only with registered decorators; a veto means some registered decorator's handler for that name returns false |
| Focus.DelegateAllows | kind.Spotlight.js:97-109 | when no registered decorator vetoes a name, delegation lets it through |
| Focus.ContainerMissThenKindDecoratorVetoes | kind.Spotlight.js:66-109 | a container of kind 0 delegated first without a `Container` entry does not hide the kind-0 decorator: a later plain kind-0 element's focus is vetoed by it |
| Focus.DelegateFollowsResolvedHandler | kind.Spotlight.js:97-109 | for an `onSpotlight...` event, whatever the cache: the event passes exactly when the decorator resolved for the originator's kind is null, has no handler for the name, or its handler returns true; the cache becomes the one resolution leaves |
| Focus.DelegateUsesCachedDecorator | kind.Spotlight.js:97-109 | with a decorator cached for the kind, its handler's verdict decides (true without a handler) and the cache stays |
| Focus.Dispatch | kind.Spotlight.js:55-64 | a dispatched event is logged; while attached it runs onSpotlightEvent, otherwise nothing else changes; mode, owner, the log so far and cached decorators are kept |
| Focus.OnSpotlightEvent | kind.Spotlight.js:269-309 | the last five-way event changes only for Left/Right/Up/Down; events without a default (focused, tap, others) record themselves as the last event and change neither focus nor the log |
| Focus.VetoStopsDefault | kind.Spotlight.js:269-275 | a vetoed event only becomes the last event (and may fill the decorator cache) |
| Focus.Last5WayExactly | kind.Spotlight.js:269-309 | the last five-way event becomes `e` exactly when `e` is Left/Right/Up/Down and not vetoed; otherwise it is unchanged |
| Focus.OnFocus | kind.Spotlight.js:336-338 | focus keeps markers and the last five-way event |
| Focus.SetCurrent | kind.Spotlight.js:39-47 | the control becomes current and exactly one focused event is sent |
| Focus.OnBlur | kind.Spotlight.js:343-347 | while something is current the blurred control loses its marker; current, pointer mode, owner, last events, cache and sent events are unchanged |
| Focus.OnMoveTo | kind.Spotlight.js:313-320 | a move keeps mode, owner, issued events and the last five-way event |
| Focus.MoveFocusesAdjacentOrParent | kind.Spotlight.js:313-320 | an unvetoed move records itself as the last five-way event and focuses what the adjacent control, or failing that the current control's getParent, resolves to |
| Focus.OnSelect | kind.Spotlight.js:327-334 | select keeps mode, owner, issued events and the last five-way event |
| Focus.SelectTapsLeafOrDescends | kind.Spotlight.js:327-334 | select on a control without spottable children sends exactly one `ontap` and keeps the focus; otherwise its first spottable child becomes current |
| Focus.OnPoint | kind.Spotlight.js:349-353 | point keeps mode, owner, issued events and the last five-way event |
| Focus.PointSpotsUnlessContainer | kind.Spotlight.js:349-353 | pointing at a container changes neither focus nor the log; pointing at another control focuses what it resolves to |
| Focus.Spot | kind.Spotlight.js:421-437 | spot returns true exactly when the target resolves; on false the current control is unchanged |
| Focus.SpotFocusesResolvedTarget | kind.Spotlight.js:421-437 | a current control other than the target gets one blur and loses its marker; a resolved target is marked, becomes current, and a focus then a focused event are sent; an unresolved one leaves the focus |
| Focus.KeyEvent | kind.Spotlight.js:238-266 | pointer mode is always left off; an unmapped code (or no current control) changes nothing else; a mapped code sends its command against the current control first |
| Focus.KeyEventDispatchesCommand | kind.Spotlight.js:238-266 | Enter on a control moves focus to its first spottable child, or sends select then tap and keeps the focus |
| Focus.KeyMoveFocusesAdjacentOrParent | kind.Spotlight.js:238-266 | an arrow key (or its legacy remote code) records its command as the last five-way event and moves focus to what the adjacent control, or failing that the current control's getParent, resolves to |
| Focus.Initialize | kind.Spotlight.js:191-206 | after initialize the new owner is attached |
| Focus.InitializeSpotsDefault | kind.Spotlight.js:191-206 | initialize focuses what the default control (else the owner) resolves to, and marks it; nothing is current if it resolves to nothing |
| Focus.Deregister | kind.Spotlight.js:208-211 | deregistering detaches the owner and changes nothing else |
| Focus.OnEvent | kind.Spotlight.js:214-235 | raw events are ignored with no owner; a pointer move sets pointer mode and leaves the repeater alone; key edges step the repeater; while attached, a key-down of a code not already held reaches onKeyEvent, a repeated key-down of the held code changes nothing, and a key-up leaves the engine as it was and the repeater idle |
| Focus.PointerMoveFocusesTarget | kind.Spotlight.js:214-235 | a pointer move over a control points at its _getTarget, and a non-container target gets the focus it resolves to |
| Focus.OnRepeatTimer | kind.Spotlight.Dispatcher.js:15-24 | a timer step advances the repeater as _continue does; while repeating the held key event reaches onKeyEvent, and when not repeating the engine is unchanged |
| KeyRepeat.RateFor | kind.Spotlight.Dispatcher.js:18-21 | the rate due for an elapsed time is in 1..4 Hz |
| KeyRepeat.Escalate | kind.Spotlight.Dispatcher.js:18-21 | the three sequential checks reach the larger of the current rate and the rate the elapsed time calls for, so one step may climb several levels |
| KeyRepeat.ContinueStep | kind.Spotlight.Dispatcher.js:15-24 | _continue does nothing when not repeating; otherwise it re-dispatches the held event once, schedules the next step after 1000/hz ms at the rate before escalation, never lowers the rate, and reaches the rate due; the held key and start time stay |
| KeyRepeat.StartStep | kind.Spotlight.Dispatcher.js:40-44 | start restarts the clock at `now` and turns repeating on without touching the rate, and its immediate step fires the held event with the next step due after 1000/hz ms |
| KeyRepeat.KeyStep | kind.Spotlight.Dispatcher.js:26-38 | a key-down of the held code changes nothing; a new key-down latches it, keeps the rate, restarts the clock and fires at once; a key-up resets to idle; other events are ignored |
| KeyRepeat.TicksNeverSlowDown | kind.Spotlight.Dispatcher.js:15-24 | over any run of steps the rate stays in 1..4 and never drops, and it is 4 once a step comes 9 s after the key went down |
| KeyRepeat.StopIsIdempotent | kind.Spotlight.Dispatcher.js:46-51 | a second key-up gives the same state as one |
| KeyRepeat.RightArrowScenario | kind.Spotlight.Dispatcher.js:15-44 | holding right arrow: at once and at 1 s and 2 s at 1 Hz; at 3 s it waits 1000 ms but moves to 2 Hz, so the step due at 4 s waits 500 ms; key-up stops, and the step due at 4.5 s does nothing |
| KeyRepeat.Dispatcher.constructor | kind.Spotlight.Dispatcher.js:10-13 | the initial fields are the idle state |
| KeyRepeat.Dispatcher.Continue | kind.Spotlight.Dispatcher.js:15-24 | updates the fields as ContinueStep does and keeps them consistent |
| KeyRepeat.Dispatcher.ProcessKey | kind.Spotlight.Dispatcher.js:26-38 | updates the fields as KeyStep does |
| KeyRepeat.Dispatcher.Start | kind.Spotlight.Dispatcher.js:40-44 | restarts the clock, turns repeating on and runs the first step at once, keeping the rate |
| KeyRepeat.Dispatcher.Stop | kind.Spotlight.Dispatcher.js:46-51 | clears the held key, repeating, start time, and resets the rate to 1 |
| Engine.Spotlight.constructor | kind.Spotlight.js:28-34 | the statics start with nothing current, no owner, no events and an empty cache |
| Engine.Spotlight.GetPointerMode | kind.Spotlight.js:358 | reads the pointer mode |
| Engine.Spotlight.SetPointerMode | kind.Spotlight.js:357 | sets the pointer mode and nothing else |
| Engine.Spotlight.GetCurrent | kind.Spotlight.js:359 | reads the current control |
| Engine.Spotlight.GetLastEvent | kind.Spotlight.js:361 | reads the last event |
| Engine.Spotlight.GetLast5WayEvent | kind.Spotlight.js:362 | reads the last five-way event |
| Engine.Spotlight.GetDecorator | kind.Spotlight.js:66-93 | resolves the decorator as Decorators.Resolve does on the cache field (no entry for a missing `Container` behaviour), and changes nothing else |
| Engine.Spotlight.Delegate | kind.Spotlight.js:97-109 | delegates as Focus.Delegate does, and changes nothing but the cache |
| Engine.Spotlight.Dispatch | kind.Spotlight.js:50-53 | the fields afterwards are those Focus.Dispatch gives |
| Engine.Spotlight.OnSpotlightEvent | kind.Spotlight.js:269-309 | the fields afterwards are those Focus.OnSpotlightEvent gives |
| Engine.Spotlight.OnFocus | kind.Spotlight.js:336-338 | the fields afterwards are those Focus.OnFocus gives |
| Engine.Spotlight.SetCurrent | kind.Spotlight.js:39-47 | the fields afterwards are those Focus.SetCurrent gives |
| Engine.Spotlight.OnBlur | kind.Spotlight.js:343-347 | the fields afterwards are those Focus.OnBlur gives |
| Engine.Spotlight.OnMoveTo | kind.Spotlight.js:313-320 | using the adjacency loop and the getParent loop, the fields afterwards are those Focus.OnMoveTo gives |
| Engine.Spotlight.OnSelect | kind.Spotlight.js:327-334 | using the getChildren loop, the fields afterwards are those Focus.OnSelect gives |
| Engine.Spotlight.OnPoint | kind.Spotlight.js:349-353 | the fields afterwards are those Focus.OnPoint gives |
| Engine.Spotlight.Spot | kind.Spotlight.js:421-437 | the result and the fields afterwards are those Focus.Spot gives |
| Engine.Spotlight.OnKeyEvent | kind.Spotlight.js:238-266 | the fields afterwards are those Focus.KeyEvent gives |
| Engine.Spotlight.GetTarget | kind.Spotlight.js:178-187 | computes _getTarget with the getParent loop |
| Engine.Spotlight.Initialize | kind.Spotlight.js:191-206 | the fields afterwards are those Focus.Initialize gives |
| Engine.Spotlight.Deregister | kind.Spotlight.js:208-211 | detaches the owner and nothing else |
| Engine.Spotlight.OnEvent | kind.Spotlight.js:214-235 | the engine's and the dispatcher's fields afterwards are those Focus.OnEvent gives |
| Engine.Spotlight.OnRepeatTimer | kind.Spotlight.Dispatcher.js:15-24 | the engine's and the dispatcher's fields afterwards are those Focus.OnRepeatTimer gives |

## Left out

- `_getAdjacentControlPrecedence`: the floating-point score (arctangent, powers and epsilon floors, kind.Spotlight.js:125-150) is an uninterpreted non-negative function of direction and bounds. Only the selection loop around it is verified.
- Geometry and id lookup: `enyo.Spotlight.Util.getAbsoluteBounds` and `getControlById` are host helpers. Bounds are data on each node, and a raw event carries the control the id lookup found (absent when there is none).
- Event bubbling through `enyo.Spotlight.Util.dispatchEvent` is host code.
  - While an owner is attached, every dispatched event is taken to reach the owner's hooked dispatch, which calls `onSpotlightEvent`. No intermediate handler stops it.
  - The replaced and restored `dispatchEvent` of `_interceptEvents`/`deregister` is the owner being present or absent.
  - Handlers of other components are not part of this model. The `sent` log records what is handed to the host.
- Decorator handlers are reduced to the verdict each returns per event name. Any other effect of a handler is not modelled.
- `addClass`/`removeClass` are modelled as the set of marked controls. The `_spotlight` state bag, `_error`, the unused `_nLastKey` field and `enyo.warn` are left out.
- The `enyo.kind` boilerplate is left out: `rendered`/`destroy`, the `published` defaults and the `enyo.dispatcher.features` hook (kind.Spotlight.js:447-449). `rendered`/`destroy` only call `initialize`/`deregister`, which are modelled.
- `initialize`'s lookup of the default control by name in the owner's `$` hash is host data. The model takes the default as an already resolved control, absent when the name is missing or undefined.
- The `oControl || this.getCurrent()` fallbacks are not separate code paths here: every query takes its control explicitly.
  - `onMoveTo` calls `_getAdjacentControl(sDirection)` and `getParent()` without a control (kind.Spotlight.js:314, :318) and relies on these fallbacks to reach the current control. The model passes the current control to both (`Focus.MoveTarget`).
  - `_dispatchEvent`'s fallback to the current control is modelled the same way. It is used by `_setCurrent` and `onKeyEvent`.
- `onKeyEvent` with no current control: kind.Spotlight.js hands a null control to the host's dispatch. In the model nothing is sent.
- `onMoveTo` with no current control: kind.Spotlight.js fails for certain when `getSiblings` calls `getParent` and that reads `parent` of the missing control (kind.Spotlight.js:375, :409). The earlier `getAbsoluteBounds` call on that control is host code whose effect is not shown. In the model nothing happens.
- `instanceof` and prototype chains are modelled as a given single-inheritance lineage over numbered kinds (`IsA`).
- `processKey` is reached through `enyo.Spotlight.Accelerator` in kind.Spotlight.js:231, while kind.Spotlight.Dispatcher.js defines `enyo.Spotlight.Dispatcher`. Both names are taken to mean the one dispatcher modelled here.
- The real-time side of the dispatcher is left out.
  - `setTimeout` and `new Date()` become the `now` parameter and the reported delay.
  - `start` and its immediate `_continue` read the same `now`.
  - A `start` while already repeating arms a second timer chain in kind.Spotlight.Dispatcher.js. The model reports one pending delay per step and does not model concurrent chains.
- JavaScript numbers are modelled as follows:
  - Times in ms are unbounded integers.
  - The timer delay `1000/hz` is the exact rational quotient, where JavaScript rounds it to a double (1000/3 is 333.333… rounded).
  - Box coordinates are integers. The half-plane tests only compare them and the score is taken as given, so fractional coordinates would change nothing observable here.
  - A `spotlight` attribute holding a number is an integer. NaN, which is falsy, is not representable.
- Tree.ChildrenExactly: only membership in getChildren is characterised independently. The order of the result ("tree order") is fixed by `Tree.Children`, which follows the loop of kind.Spotlight.js. No separate ordering statement is proved.
- Focus.SpotFocusesResolvedTarget: stated while an owner is attached, for decorators that veto neither blur nor focus events. With a veto the outcome is still exactly `Focus.Spot`, but no closed form is stated.
- Focus.MoveFocusesAdjacentOrParent: stated while attached and without blur or focus vetoes, for the same reason.
- Focus.SelectTapsLeafOrDescends: stated while attached and without blur or focus vetoes, for the same reason.
- Focus.PointSpotsUnlessContainer: stated while attached and without blur or focus vetoes, for the same reason.
- Focus.InitializeSpotsDefault: stated without blur or focus vetoes, for the same reason.
- Focus.PointerMoveFocusesTarget: stated while attached and without point, blur or focus vetoes, for the same reason.
- Focus.KeyEventDispatchesCommand: stated while attached, with a current control, for the Select command without select, blur or focus vetoes.
- Focus.KeyMoveFocusesAdjacentOrParent: stated while attached, with a current control, without vetoes of the directional command, blur or focus.
