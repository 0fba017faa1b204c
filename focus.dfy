/** The focus state machine of the Spotlight engine, as functions of the engine's state.

    Every semantic event the engine sends goes out through the host's dispatch and
    bubbles to the owner, whose hooked dispatch hands it straight back to
    onSpotlightEvent. That round trip is a direct call here (Dispatch), so each entry
    point is a deterministic state transition; the engine class in module Engine runs the
    same transitions in place and is proved against these functions. */
module Focus {
  import opened Options
  import opened Tree
  import opened Adjacency
  import opened Decorators
  import opened Input
  import opened KeyRepeat

  // Semantic event names.
  const FOCUS := "onSpotlightFocus"
  const FOCUSED := "onSpotlightFocused"
  const BLUR := "onSpotlightBlur"
  const LEFT := "onSpotlightLeft"
  const RIGHT := "onSpotlightRight"
  const UP := "onSpotlightUp"
  const DOWN := "onSpotlightDown"
  const SELECT := "onSpotlightSelect"
  const POINT := "onSpotlightPoint"
  const TAP := "ontap"
  const SPOTLIGHT_PREFIX := "onSpotlight"

  /** A dispatched event: its name, the control it is dispatched against, and the
      direction that led to it (for a focus caused by a move). */
  datatype Event = Event(name: string, originator: nat, dir: Option<Direction>)

  /** What the engine reads but does not own: the element tree, the kind lineage, the
      decorator namespace and the precedence score. */
  datatype World = World(nodes: seq<Node>, supers: seq<Option<nat>>, registry: seq<Entry>, score: Scorer)

  ghost predicate WorldWF(w: World) {
    && WF(w.nodes)
    && KindsWF(w.supers)
    && RegistryWF(w.supers, w.registry)
    && forall i :: 0 <= i < |w.nodes| ==> w.nodes[i].kind < |w.supers|
  }

  /** The engine's fields, plus the set of controls carrying the 'spotlight' class and the
      events handed to the host's dispatch, in order. */
  datatype State = State(
    current: Option<nat>,
    pointerMode: bool,
    owner: Option<nat>,
    lastEvent: Option<Event>,
    last5WayEvent: Option<Event>,
    decorators: map<nat, Option<Decorator>>,
    spotlit: set<nat>,
    sent: seq<Event>)

  /** The statics' initial values. */
  const Initial := State(None, false, None, None, None, map[], {}, [])

  ghost predicate CacheFrom(w: World, cache: map<nat, Option<Decorator>>) {
    forall k :: k in cache && cache[k].Some? ==> cache[k].value in Registered(w.registry)
  }

  /** The state only refers to elements of the tree and to registered decorators. */
  ghost predicate Fits(w: World, s: State) {
    && (s.current.Some? ==> s.current.value < |w.nodes|)
    && (s.owner.Some? ==> s.owner.value < |w.nodes|)
    && CacheFrom(w, s.decorators)
  }

  /** What no dispatched event changes: the input mode, the owner, the events already
      sent, and the decorators already cached. */
  ghost predicate Keeps(s: State, r: State) {
    && r.pointerMode == s.pointerMode
    && r.owner == s.owner
    && s.sent <= r.sent
    && forall k :: k in s.decorators ==> k in r.decorators && r.decorators[k] == s.decorators[k]
  }

  predicate IsFiveWay(name: string) {
    name == LEFT || name == RIGHT || name == UP || name == DOWN
  }

  function DirectionOf(name: string): Direction
    requires IsFiveWay(name)
  {
    if name == LEFT then Left else if name == RIGHT then Right else if name == UP then Up else Down
  }

  /** How deep an event's handling can nest: a move, select or point spots, a spot sends a
      blur and a focus, and a focus sends a focused notification. */
  function Rank(name: string): nat {
    if name == FOCUS then 2
    else if IsFiveWay(name) || name == SELECT || name == POINT then 4
    else 0
  }

  /** The onKeyEvent table (the second code of each pair is the legacy remote's). */
  function KeyCommand(code: int): (r: Option<string>)
    ensures r == Some(SELECT) <==> code == 13 || code == 53
    ensures r == Some(LEFT) <==> code == 37 || code == 52
    ensures r == Some(UP) <==> code == 38 || code == 50
    ensures r == Some(RIGHT) <==> code == 39 || code == 54
    ensures r == Some(DOWN) <==> code == 40 || code == 56
    ensures r.None? <==> code !in {13, 53, 37, 52, 38, 50, 39, 54, 40, 56}
  {
    if code == 13 || code == 53 then Some(SELECT)
    else if code == 37 || code == 52 then Some(LEFT)
    else if code == 38 || code == 50 then Some(UP)
    else if code == 39 || code == 54 then Some(RIGHT)
    else if code == 40 || code == 56 then Some(DOWN)
    else None
  }

  /** What spot actually focuses: the control itself if spottable, else its first
      spottable child. */
  function SpotTarget(t: seq<Node>, x: nat): (r: Option<nat>)
    requires WF(t) && x < |t|
    ensures r.Some? ==> r.value < |t| && IsSpottable(t[r.value])
    ensures r.Some? && r.value != x ==> r.value in Children(t, x)
    ensures r.None? <==> !IsSpottable(t[x]) && Children(t, x) == []
    ensures IsSpottable(t[x]) ==> r == Some(x)
    ensures !IsSpottable(t[x]) && Children(t, x) != [] ==> r == Some(Children(t, x)[0])
  {
    if IsSpottable(t[x]) then Some(x) else FirstChild(t, x)
  }

  /** _getTarget for a control the pointer is over: itself if spottable, else getParent. */
  function Target(t: seq<Node>, x: nat): (r: nat)
    requires WF(t) && x < |t|
    ensures r < |t|
    ensures IsSpottable(t[r]) || t[r].parent.None?
    ensures r == x || HiddenUnder(t, r, x)
    ensures IsSpottable(t[x]) ==> r == x
  {
    ParentIsNearestSpottable(t, x);
    if IsSpottable(t[x]) then x else Parent(t, x)
  }

  /** Where onMoveTo goes from `c`: the adjacent control, or failing that getParent(c). */
  function MoveTarget(w: World, c: nat, d: Direction): (r: nat)
    requires WorldWF(w) && c < |w.nodes|
    ensures r < |w.nodes|
  {
    match Adjacent(w.nodes, w.score, d, c)
    case Some(a) =>
      assert a in Siblings(w.nodes, c) by {
        var sibs := Siblings(w.nodes, c);
        var i :| 0 <= i < |sibs| && sibs[i] == a;
      }
      a
    case None => Parent(w.nodes, c)
  }

  /** _delegateSpotlightEvent: events whose name does not start with 'onSpotlight' pass;
      otherwise the originator's decorator (resolved and cached by kind) decides through
      its handler for that name, and without such a handler the event passes. */
  function Delegate(w: World, cache: map<nat, Option<Decorator>>, e: Event): (r: (bool, map<nat, Option<Decorator>>))
    requires WorldWF(w) && CacheFrom(w, cache) && e.originator < |w.nodes|
    ensures CacheFrom(w, r.1)
    ensures forall k :: k in cache ==> k in r.1 && r.1[k] == cache[k]
    ensures !(SPOTLIGHT_PREFIX <= e.name) ==> r == (true, cache)
    ensures !r.0 ==> exists d :: d in Registered(w.registry) && e.name in d.handlers && !d.handlers[e.name]
  {
    if !(SPOTLIGHT_PREFIX <= e.name) then (true, cache)
    else
      var n := w.nodes[e.originator];
      var res := Resolve(w.supers, w.registry, cache, n.kind, n.spotlight == CONTAINER);
      var d := res.0;
      if d.Some? && e.name in d.value.handlers then (d.value.handlers[e.name], res.1)
      else (true, res.1)
  }

  /** A container of kind 0 delegated first, with no container behaviour registered,
      does not hide the behaviour registered for kind 0 from a later plain element of
      that kind: that element's focus is vetoed. */
  lemma ContainerMissThenKindDecoratorVetoes(w: World, b: Bounds)
    requires w.supers == [None]
    requires w.registry == [Entry("Button", Decorator(Some(0), map[FOCUS := false]))]
    requires w.nodes == [Node(CONTAINER, 0, None, [1], b), Node(Bool(true), 0, Some(0), [], b)]
    ensures WorldWF(w)
    ensures var first := Delegate(w, map[], Event(FOCUS, 0, None));
      && first == (true, map[])
      && !Delegate(w, first.1, Event(FOCUS, 1, None)).0
  {
    assert NodeWF(w.nodes, 0) && NodeWF(w.nodes, 1);
    assert w.registry[0].name != CONTAINER_DECORATOR;
    assert Lookup(w.registry, CONTAINER_DECORATOR).None?;
    assert Applies(w.supers, 0, w.registry[0].decorator);
  }

  /** No registered decorator vetoes events of this name. */
  ghost predicate NeverVetoes(w: World, name: string) {
    forall d :: d in Registered(w.registry) && name in d.handlers ==> d.handlers[name]
  }

  lemma DelegateAllows(w: World, cache: map<nat, Option<Decorator>>, e: Event)
    requires WorldWF(w) && CacheFrom(w, cache) && e.originator < |w.nodes|
    requires NeverVetoes(w, e.name)
    ensures Delegate(w, cache, e).0
  {
  }

  // ---------------------------------------------------------------------------------
  // The transitions. They call each other as the handlers of kind.Spotlight.js do; the measure is
  // the event's Rank, then the position of the handler in the chain.

  /** _dispatchEvent: hand `e` to the host. While an owner is attached its hooked dispatch
      feeds the event back to onSpotlightEvent; otherwise nothing observes it. */
  function Dispatch(w: World, s: State, e: Event): (r: State)
    requires WorldWF(w) && Fits(w, s) && e.originator < |w.nodes|
    ensures Fits(w, r) && Keeps(s, r) && s.sent + [e] <= r.sent
    ensures s.owner.None? ==> r == s.(sent := s.sent + [e])
    ensures !IsFiveWay(e.name) ==> r.last5WayEvent == s.last5WayEvent
    ensures Rank(e.name) == 0 ==> r.current == s.current && r.sent == s.sent + [e]
    ensures Rank(e.name) == 0 && s.owner.Some? ==> r.lastEvent == Some(e)
    ensures Rank(e.name) <= 2 && e.name != BLUR ==> r.spotlit == s.spotlit
    decreases Rank(e.name), 2
  {
    var s1 := s.(sent := s.sent + [e]);
    if s.owner.None? then s1 else OnSpotlightEvent(w, s1, e)
  }

  /** onSpotlightEvent: record the event, let the decorator veto it, then run the default
      handler for its name. */
  function OnSpotlightEvent(w: World, s: State, e: Event): (r: State)
    requires WorldWF(w) && Fits(w, s) && e.originator < |w.nodes|
    ensures Fits(w, r) && Keeps(s, r)
    ensures !IsFiveWay(e.name) ==> r.last5WayEvent == s.last5WayEvent
    ensures Rank(e.name) == 0 ==> r.current == s.current && r.sent == s.sent && r.lastEvent == Some(e)
    ensures Rank(e.name) <= 2 && e.name != BLUR ==> r.spotlit == s.spotlit
    decreases Rank(e.name), 1
  {
    var s1 := s.(lastEvent := Some(e));
    var del := Delegate(w, s1.decorators, e);
    var s2 := s1.(decorators := del.1);
    if !del.0 then s2
    else if e.name == FOCUS then OnFocus(w, s2, e)
    else if e.name == BLUR then OnBlur(s2, e)
    else if IsFiveWay(e.name) then OnMoveTo(w, s2.(last5WayEvent := Some(e)), DirectionOf(e.name))
    else if e.name == SELECT then OnSelect(w, s2, e)
    else if e.name == POINT then OnPoint(w, s2, e)
    else s2  // onSpotlightFocused is an empty hook; other names have no default
  }

  /** onFocus: the originator becomes current. */
  function OnFocus(w: World, s: State, e: Event): (r: State)
    requires WorldWF(w) && Fits(w, s) && e.originator < |w.nodes|
    ensures Fits(w, r) && Keeps(s, r)
    ensures r.last5WayEvent == s.last5WayEvent && r.spotlit == s.spotlit
    decreases 2, 0
  {
    SetCurrent(w, s, e.originator)
  }

  /** _setCurrent: make `x` current and notify with 'onSpotlightFocused'. */
  function SetCurrent(w: World, s: State, x: nat): (r: State)
    requires WorldWF(w) && Fits(w, s) && x < |w.nodes|
    ensures Fits(w, r) && Keeps(s, r)
    ensures r.current == Some(x) && r.last5WayEvent == s.last5WayEvent && r.spotlit == s.spotlit
    ensures r.sent == s.sent + [Event(FOCUSED, x, None)]
    decreases 1, 0
  {
    Dispatch(w, s.(current := Some(x)), Event(FOCUSED, x, None))
  }

  /** onBlur: while something is current, the blurred control loses its focus marker. */
  function OnBlur(s: State, e: Event): (r: State)
    ensures r.current == s.current && r.sent == s.sent && r.last5WayEvent == s.last5WayEvent
    ensures r.pointerMode == s.pointerMode && r.owner == s.owner
    ensures r.lastEvent == s.lastEvent && r.decorators == s.decorators
    ensures r.spotlit == if s.current.Some? then s.spotlit - {e.originator} else s.spotlit
  {
    if s.current.Some? then s.(spotlit := s.spotlit - {e.originator}) else s
  }

  /** onMoveTo: spot the adjacent control in direction `d`, or failing that the current
      control's spottable parent. With nothing current kind.Spotlight.js fails at this point
      (it dereferences the missing control), so nothing further happens. */
  function OnMoveTo(w: World, s: State, d: Direction): (r: State)
    requires WorldWF(w) && Fits(w, s)
    ensures Fits(w, r) && Keeps(s, r)
    ensures r.last5WayEvent == s.last5WayEvent
    decreases 4, 0
  {
    if s.current.None? then s
    else Spot(w, s, MoveTarget(w, s.current.value, d), Some(d)).1
  }

  /** onSelect: a control without spottable children is activated with 'ontap'; otherwise
      its first spottable child is spotted. */
  function OnSelect(w: World, s: State, e: Event): (r: State)
    requires WorldWF(w) && Fits(w, s) && e.originator < |w.nodes|
    ensures Fits(w, r) && Keeps(s, r)
    ensures r.last5WayEvent == s.last5WayEvent
    decreases 4, 0
  {
    var kids := Children(w.nodes, e.originator);
    if |kids| == 0 then Dispatch(w, s, Event(TAP, e.originator, None))
    else
      assert kids[0] in kids;
      Spot(w, s, kids[0], None).1
  }

  /** onPoint: spot the control under the pointer unless it is a container. */
  function OnPoint(w: World, s: State, e: Event): (r: State)
    requires WorldWF(w) && Fits(w, s) && e.originator < |w.nodes|
    ensures Fits(w, r) && Keeps(s, r)
    ensures r.last5WayEvent == s.last5WayEvent
    decreases 4, 0
  {
    if w.nodes[e.originator].spotlight != CONTAINER then Spot(w, s, e.originator, None).1 else s
  }

  /** spot: blur the current control if the target differs from it, then focus the target
      or its first spottable child; report whether there was anything to focus. */
  function Spot(w: World, s: State, x: nat, dir: Option<Direction>): (r: (bool, State))
    requires WorldWF(w) && Fits(w, s) && x < |w.nodes|
    ensures Fits(w, r.1) && Keeps(s, r.1)
    ensures r.0 <==> SpotTarget(w.nodes, x).Some?
    ensures r.1.last5WayEvent == s.last5WayEvent
    ensures !r.0 ==> r.1.current == s.current
    decreases 3, 0
  {
    var s1 := if s.current.Some? && s.current.value != x
      then Dispatch(w, s, Event(BLUR, s.current.value, None)) else s;
    match SpotTarget(w.nodes, x)
    case None => (false, s1)
    case Some(y) => (true, Dispatch(w, s1.(spotlit := s1.spotlit + {y}), Event(FOCUS, y, dir)))
  }

  /** onKeyEvent: leave pointer mode, then send the command the key code maps to against
      the current control (a dispatch against no control reaches nobody). */
  function KeyEvent(w: World, s: State, ev: RawEvent): (r: State)
    requires WorldWF(w) && Fits(w, s)
    ensures Fits(w, r) && !r.pointerMode
    ensures r.owner == s.owner && s.sent <= r.sent
    ensures KeyCommand(ev.keyCode).None? || s.current.None? ==> r == s.(pointerMode := false)
    ensures KeyCommand(ev.keyCode).Some? && s.current.Some? ==>
      s.sent + [Event(KeyCommand(ev.keyCode).value, s.current.value, None)] <= r.sent
  {
    var s1 := s.(pointerMode := false);
    match KeyCommand(ev.keyCode)
    case None => s1
    case Some(name) =>
      if s1.current.None? then s1 else Dispatch(w, s1, Event(name, s1.current.value, None))
  }

  /** initialize: drop a previous owner, attach to `owner`, forget the current control and
      spot the default control (when the owner names one) or the owner itself. */
  function Initialize(w: World, s: State, owner: nat, default: Option<nat>): (r: State)
    requires WorldWF(w) && Fits(w, s) && owner < |w.nodes|
    requires default.Some? ==> default.value < |w.nodes|
    ensures Fits(w, r) && r.owner == Some(owner)
  {
    var s1 := if s.owner.Some? then Deregister(s) else s;
    var s2 := s1.(current := None, owner := Some(owner));
    Spot(w, s2, if default.Some? then default.value else owner, None).1
  }

  /** deregister: the owner's own dispatch is restored, so events are no longer observed. */
  function Deregister(s: State): (r: State)
    ensures r.owner.None?
    ensures r == s.(owner := None)
  {
    s.(owner := None)
  }

  /** onEvent: raw events are only looked at while attached. A pointer move enters pointer
      mode and points at the control under the pointer (resolved by _getTarget); key
      edges go to the key-repeat dispatcher, whose re-dispatch reaches onKeyEvent. */
  function OnEvent(w: World, s: State, acc: Repeat, raw: RawEvent, now: int): (r: (State, Repeat))
    requires WorldWF(w) && Fits(w, s)
    requires raw.target.Some? ==> raw.target.value < |w.nodes|
    ensures Fits(w, r.0)
    ensures s.owner.None? ==> r == (s, acc)
    ensures s.owner.Some? && raw.name == MOUSEMOVE ==> r.0.pointerMode && r.1 == acc
    ensures raw.name == KEYDOWN || raw.name == KEYUP ==> r.1 == KeyStep(acc, raw, now).0 || s.owner.None?
    ensures s.owner.Some? && Consistent(acc) && raw.name == KEYDOWN && (acc.held.None? || raw.keyCode != acc.held.value.keyCode) ==>
      r.0 == KeyEvent(w, s, raw)
    ensures s.owner.Some? && raw.name == KEYDOWN && acc.held.Some? && raw.keyCode == acc.held.value.keyCode ==>
      r == (s, acc)
    ensures s.owner.Some? && raw.name == KEYUP ==> r == (s, Idle)
  {
    if s.owner.None? then (s, acc)
    else if raw.name == MOUSEMOVE then
      var s1 := s.(pointerMode := true);
      match raw.target
      case None => (s1, acc)
      case Some(x) => (Dispatch(w, s1, Event(POINT, Target(w.nodes, x), None)), acc)
    else if raw.name == KEYDOWN || raw.name == KEYUP then
      var step := KeyStep(acc, raw, now);
      (if step.1.fired.Some? then KeyEvent(w, s, step.1.fired.value) else s, step.0)
    else (s, acc)
  }

  /** A step of the repeat timer: the dispatcher's _continue, whose re-dispatch reaches
      onKeyEvent. */
  function OnRepeatTimer(w: World, s: State, acc: Repeat, now: int): (r: (State, Repeat))
    requires WorldWF(w) && Fits(w, s)
    ensures Fits(w, r.0) && r.1 == ContinueStep(acc, now).0
    ensures !acc.repeating ==> r.0 == s
    ensures Consistent(acc) && acc.repeating ==> r.0 == KeyEvent(w, s, acc.held.value)
  {
    var step := ContinueStep(acc, now);
    (if step.1.fired.Some? then KeyEvent(w, s, step.1.fired.value) else s, step.0)
  }

  // ---------------------------------------------------------------------------------
  // What the transitions achieve.

  /** A decorator already cached for the originator's kind decides by its own handler,
      and the cache stays as it was. */
  lemma DelegateUsesCachedDecorator(w: World, cache: map<nat, Option<Decorator>>, e: Event, d: Decorator)
    requires WorldWF(w) && CacheFrom(w, cache) && e.originator < |w.nodes|
    requires SPOTLIGHT_PREFIX <= e.name
    requires w.nodes[e.originator].kind in cache && cache[w.nodes[e.originator].kind] == Some(d)
    ensures Delegate(w, cache, e) == (if e.name in d.handlers then d.handlers[e.name] else true, cache)
  {
  }

  /** For an 'onSpotlight' event the decorator resolved for the originator's kind (from
      the cache or by the scan) decides, in both directions: the event passes exactly
      when there is no decorator, it has no handler for the name, or that handler says
      true; the cache becomes the one resolution leaves. */
  lemma DelegateFollowsResolvedHandler(w: World, cache: map<nat, Option<Decorator>>, e: Event)
    requires WorldWF(w) && CacheFrom(w, cache) && e.originator < |w.nodes|
    requires SPOTLIGHT_PREFIX <= e.name
    ensures var n := w.nodes[e.originator];
      var res := Resolve(w.supers, w.registry, cache, n.kind, n.spotlight == CONTAINER);
      var d := res.0;
      && (Delegate(w, cache, e).0 <==> d.None? || e.name !in d.value.handlers || d.value.handlers[e.name])
      && Delegate(w, cache, e).1 == res.1
  {
  }

  /** A vetoed event is recorded as the last event (and may fill the decorator cache) and
      has no other effect. */
  lemma VetoStopsDefault(w: World, s: State, e: Event)
    requires WorldWF(w) && Fits(w, s) && e.originator < |w.nodes|
    requires !Delegate(w, s.decorators, e).0
    ensures OnSpotlightEvent(w, s, e) == s.(lastEvent := Some(e), decorators := Delegate(w, s.decorators, e).1)
  {
  }

  /** The last five-way event changes exactly when a Left/Right/Up/Down event is let
      through by its decorator, and then it is that event. */
  lemma Last5WayExactly(w: World, s: State, e: Event)
    requires WorldWF(w) && Fits(w, s) && e.originator < |w.nodes|
    ensures OnSpotlightEvent(w, s, e).last5WayEvent ==
      if IsFiveWay(e.name) && Delegate(w, s.decorators, e).0 then Some(e) else s.last5WayEvent
  {
  }

  /** spot, while attached and with neither blur nor focus vetoed: a current control other
      than the target is blurred (loses its marker, one blur event); then, if the target
      resolves to a spottable control, that control is marked, becomes current, and a
      focus followed by a focused event is sent; otherwise spot reports false and the
      current control stays. */
  lemma SpotFocusesResolvedTarget(w: World, s: State, x: nat, dir: Option<Direction>)
    requires WorldWF(w) && Fits(w, s) && x < |w.nodes|
    requires s.owner.Some? && NeverVetoes(w, BLUR) && NeverVetoes(w, FOCUS)
    ensures var r := Spot(w, s, x, dir);
      var blurs := s.current.Some? && s.current.value != x;
      var blurred := if blurs then [Event(BLUR, s.current.value, None)] else [];
      var unmarked := if blurs then s.spotlit - {s.current.value} else s.spotlit;
      match SpotTarget(w.nodes, x)
      case None =>
        && !r.0 && r.1.current == s.current
        && r.1.sent == s.sent + blurred && r.1.spotlit == unmarked
      case Some(y) =>
        && r.0 && r.1.current == Some(y)
        && r.1.sent == s.sent + blurred + [Event(FOCUS, y, dir), Event(FOCUSED, y, None)]
        && r.1.spotlit == unmarked + {y}
  {
    var blurs := s.current.Some? && s.current.value != x;
    var s1 := if blurs then Dispatch(w, s, Event(BLUR, s.current.value, None)) else s;
    if blurs {
      var b := Event(BLUR, s.current.value, None);
      var sb := s.(sent := s.sent + [b]);
      DelegateAllows(w, sb.decorators, b);
      assert s1 == OnSpotlightEvent(w, sb, b);
      assert s1 == OnBlur(sb.(lastEvent := Some(b), decorators := Delegate(w, sb.decorators, b).1), b);
    }
    match SpotTarget(w.nodes, x)
    case None =>
    case Some(y) =>
      var f := Event(FOCUS, y, dir);
      var s2 := s1.(spotlit := s1.spotlit + {y});
      var s3 := s2.(sent := s2.sent + [f]);
      DelegateAllows(w, s3.decorators, f);
      assert Dispatch(w, s2, f) == OnFocus(w, s3.(lastEvent := Some(f), decorators := Delegate(w, s3.decorators, f).1), f);
  }

  /** A Left/Right/Up/Down event let through while attached, with focus and blur not
      vetoed: it becomes the last five-way event, and when a control is current the focus
      moves to what the adjacent control (or, if there is none, the current control's
      spottable parent) resolves to, if it resolves to anything. */
  lemma MoveFocusesAdjacentOrParent(w: World, s: State, e: Event)
    requires WorldWF(w) && Fits(w, s) && e.originator < |w.nodes|
    requires IsFiveWay(e.name) && Delegate(w, s.decorators, e).0
    requires s.owner.Some? && NeverVetoes(w, BLUR) && NeverVetoes(w, FOCUS)
    ensures var r := OnSpotlightEvent(w, s, e);
      && r.last5WayEvent == Some(e)
      && (s.current.None? ==> r.current == None)
      && (s.current.Some? ==>
            var c := s.current.value;
            var target := match Adjacent(w.nodes, w.score, DirectionOf(e.name), c)
              case Some(a) => a
              case None => Parent(w.nodes, c);
            target < |w.nodes| &&
            (SpotTarget(w.nodes, target).Some? ==> r.current == SpotTarget(w.nodes, target)) &&
            (SpotTarget(w.nodes, target).None? ==> r.current == s.current))
  {
    var del := Delegate(w, s.decorators, e);
    var s2 := s.(lastEvent := Some(e), decorators := del.1).(last5WayEvent := Some(e));
    if s.current.Some? {
      var c := s.current.value;
      var target := MoveTarget(w, c, DirectionOf(e.name));
      SpotFocusesResolvedTarget(w, s2, target, Some(DirectionOf(e.name)));
    }
  }

  /** Select while attached, with focus and blur not vetoed: a control without spottable
      children is sent 'ontap' and the focus stays; otherwise its first spottable child
      becomes current. */
  lemma SelectTapsLeafOrDescends(w: World, s: State, e: Event)
    requires WorldWF(w) && Fits(w, s) && e.originator < |w.nodes|
    requires e.name == SELECT && Delegate(w, s.decorators, e).0
    requires s.owner.Some? && NeverVetoes(w, BLUR) && NeverVetoes(w, FOCUS)
    ensures var r := OnSpotlightEvent(w, s, e);
      var kids := Children(w.nodes, e.originator);
      && (kids == [] ==> r.current == s.current && r.sent == s.sent + [Event(TAP, e.originator, None)])
      && (kids != [] ==> r.current == Some(kids[0]))
  {
    var del := Delegate(w, s.decorators, e);
    var s2 := s.(lastEvent := Some(e), decorators := del.1);
    var kids := Children(w.nodes, e.originator);
    if kids != [] {
      assert kids[0] in kids;
      SpotFocusesResolvedTarget(w, s2, kids[0], None);
    }
  }

  /** Point while attached, with focus and blur not vetoed: a container under the pointer
      keeps the focus where it was; any other control is spotted. */
  lemma PointSpotsUnlessContainer(w: World, s: State, e: Event)
    requires WorldWF(w) && Fits(w, s) && e.originator < |w.nodes|
    requires e.name == POINT && Delegate(w, s.decorators, e).0
    requires s.owner.Some? && NeverVetoes(w, BLUR) && NeverVetoes(w, FOCUS)
    ensures var r := OnSpotlightEvent(w, s, e);
      var target := SpotTarget(w.nodes, e.originator);
      && (w.nodes[e.originator].spotlight == CONTAINER ==> r.current == s.current && r.sent == s.sent)
      && (w.nodes[e.originator].spotlight != CONTAINER && target.Some? ==> r.current == target)
  {
    var del := Delegate(w, s.decorators, e);
    var s2 := s.(lastEvent := Some(e), decorators := del.1);
    if w.nodes[e.originator].spotlight != CONTAINER {
      SpotFocusesResolvedTarget(w, s2, e.originator, None);
    }
  }

  /** initialize, with focus not vetoed: attached to the new owner, the default control
      (or else the owner) is spotted from a state with nothing current, so the focus is
      what that control resolves to, or nothing. */
  lemma InitializeSpotsDefault(w: World, s: State, owner: nat, default: Option<nat>)
    requires WorldWF(w) && Fits(w, s) && owner < |w.nodes|
    requires default.Some? ==> default.value < |w.nodes|
    requires NeverVetoes(w, BLUR) && NeverVetoes(w, FOCUS)
    ensures var r := Initialize(w, s, owner, default);
      var first := if default.Some? then default.value else owner;
      && r.owner == Some(owner)
      && r.current == SpotTarget(w.nodes, first)
      && (SpotTarget(w.nodes, first).Some? ==> SpotTarget(w.nodes, first).value in r.spotlit)
  {
    var s1 := if s.owner.Some? then Deregister(s) else s;
    var s2 := s1.(current := None, owner := Some(owner));
    var first := if default.Some? then default.value else owner;
    SpotFocusesResolvedTarget(w, s2, first, None);
  }

  /** A pointer move over a control while attached points at the control _getTarget
      gives (the control itself when spottable, else its spottable parent) in pointer
      mode; with focus and blur not vetoed, a non-container target then holds the focus
      its resolution gives. */
  lemma PointerMoveFocusesTarget(w: World, s: State, acc: Repeat, raw: RawEvent, now: int)
    requires WorldWF(w) && Fits(w, s) && raw.name == MOUSEMOVE && raw.target.Some?
    requires raw.target.value < |w.nodes|
    requires s.owner.Some? && NeverVetoes(w, POINT) && NeverVetoes(w, BLUR) && NeverVetoes(w, FOCUS)
    ensures var r := OnEvent(w, s, acc, raw, now);
      var x := Target(w.nodes, raw.target.value);
      && r.0.pointerMode && r.1 == acc
      && (w.nodes[x].spotlight != CONTAINER && SpotTarget(w.nodes, x).Some? ==>
            r.0.current == SpotTarget(w.nodes, x))
  {
    var x := Target(w.nodes, raw.target.value);
    var p := Event(POINT, x, None);
    var s1 := s.(pointerMode := true);
    var s2 := s1.(sent := s1.sent + [p]);
    DelegateAllows(w, s2.decorators, p);
    PointSpotsUnlessContainer(w, s2, p);
  }

  /** A key event leaves pointer mode; a code outside the table sends nothing, and a code
      in it sends its command against the current control, which a following move or
      select then handles. */
  lemma KeyEventDispatchesCommand(w: World, s: State, ev: RawEvent)
    requires WorldWF(w) && Fits(w, s) && s.current.Some? && s.owner.Some?
    requires KeyCommand(ev.keyCode) == Some(SELECT)
    requires NeverVetoes(w, SELECT) && NeverVetoes(w, BLUR) && NeverVetoes(w, FOCUS)
    ensures var r := KeyEvent(w, s, ev);
      var kids := Children(w.nodes, s.current.value);
      && !r.pointerMode
      && (kids != [] ==> r.current == Some(kids[0]))
      && (kids == [] ==>
            && r.current == s.current
            && r.sent == s.sent + [Event(SELECT, s.current.value, None), Event(TAP, s.current.value, None)])
  {
    var e := Event(SELECT, s.current.value, None);
    var s1 := s.(pointerMode := false);
    var s2 := s1.(sent := s1.sent + [e]);
    DelegateAllows(w, s2.decorators, e);
    SelectTapsLeafOrDescends(w, s2, e);
  }
  /** A directional key while attached and with something current, with the command,
      blur and focus not vetoed: the command becomes the last five-way event and the
      focus moves to what the adjacent control (or, if there is none, the current
      control's spottable parent) resolves to, if it resolves to anything. */
  lemma KeyMoveFocusesAdjacentOrParent(w: World, s: State, ev: RawEvent)
    requires WorldWF(w) && Fits(w, s) && s.current.Some? && s.owner.Some?
    requires KeyCommand(ev.keyCode).Some? && IsFiveWay(KeyCommand(ev.keyCode).value)
    requires NeverVetoes(w, KeyCommand(ev.keyCode).value) && NeverVetoes(w, BLUR) && NeverVetoes(w, FOCUS)
    ensures var r := KeyEvent(w, s, ev);
      var name := KeyCommand(ev.keyCode).value;
      var c := s.current.value;
      var target := match Adjacent(w.nodes, w.score, DirectionOf(name), c)
        case Some(a) => a
        case None => Parent(w.nodes, c);
      && !r.pointerMode
      && r.last5WayEvent == Some(Event(name, c, None))
      && target < |w.nodes|
      && (SpotTarget(w.nodes, target).Some? ==> r.current == SpotTarget(w.nodes, target))
      && (SpotTarget(w.nodes, target).None? ==> r.current == s.current)
  {
    var e := Event(KeyCommand(ev.keyCode).value, s.current.value, None);
    var s1 := s.(pointerMode := false);
    var s2 := s1.(sent := s1.sent + [e]);
    DelegateAllows(w, s2.decorators, e);
    MoveFocusesAdjacentOrParent(w, s2, e);
  }
}
