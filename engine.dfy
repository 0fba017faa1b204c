/** The Spotlight engine as kind.Spotlight.js keeps it: static fields updated in place by
    handlers that call each other. Each handler method performs the transition of the
    same-named function of module Focus on the fields, except that OnKeyEvent performs
    Focus.KeyEvent; GetDecorator is proved against Decorators.Resolve, GetTarget against
    Focus.Target, and the accessors read or set single fields. The tree queries and the
    decorator scan run as the loops of modules Tree, Adjacency and Decorators. */
module Engine {
  import opened Options
  import opened Tree
  import opened Adjacency
  import opened Decorators
  import opened Input
  import opened KeyRepeat
  import opened Focus

  class Spotlight {
    /** The element tree, kinds, decorator namespace and score; read, never written. */
    const world: World

    var current: Option<nat>
    var pointerMode: bool
    var owner: Option<nat>
    var lastEvent: Option<Event>
    var last5WayEvent: Option<Event>
    var decorators: map<nat, Option<Decorator>>
    /** Controls carrying the 'spotlight' class. */
    var spotlit: set<nat>
    /** Events handed to the host's dispatch, in order. */
    var sent: seq<Event>

    /** The fields as a Focus.State. */
    function Model(): Focus.State
      reads this
    {
      Focus.State(current, pointerMode, owner, lastEvent, last5WayEvent, decorators, spotlit, sent)
    }

    ghost predicate Valid()
      reads this
    {
      WorldWF(world) && Fits(world, Model())
    }

    constructor (w: World)
      requires WorldWF(w)
      ensures Valid() && world == w && Model() == Initial
    {
      world := w;
      current, pointerMode, owner := None, false, None;
      lastEvent, last5WayEvent := None, None;
      decorators, spotlit, sent := map[], {}, [];
    }

    // ---------------------------------------------------------------------------------
    // Accessors.

    method GetPointerMode() returns (r: bool)
      ensures r == Model().pointerMode
    {
      r := pointerMode;
    }

    method SetPointerMode(b: bool)
      requires Valid()
      modifies this
      ensures Valid() && Model() == old(Model()).(pointerMode := b)
    {
      pointerMode := b;
    }

    method GetCurrent() returns (r: Option<nat>)
      ensures r == Model().current
    {
      r := current;
    }

    method GetLastEvent() returns (r: Option<Event>)
      ensures r == Model().lastEvent
    {
      r := lastEvent;
    }

    method GetLast5WayEvent() returns (r: Option<Event>)
      ensures r == Model().last5WayEvent
    {
      r := last5WayEvent;
    }

    // ---------------------------------------------------------------------------------
    // Decorators.

    /** _getDecorator. */
    method GetDecorator(x: nat) returns (d: Option<Decorator>)
      requires Valid() && x < |world.nodes|
      modifies this
      ensures Valid()
      ensures (d, decorators) == Resolve(world.supers, world.registry, old(decorators),
                                         world.nodes[x].kind, world.nodes[x].spotlight == CONTAINER)
      ensures Model() == old(Model()).(decorators := decorators)
    {
      var n := world.nodes[x];
      if n.kind in decorators {
        return decorators[n.kind];
      }
      if n.spotlight == CONTAINER {
        d := Lookup(world.registry, CONTAINER_DECORATOR);
        if d.None? {
          // stored as undefined, which the cache test treats as absent
          return;
        }
      } else {
        d := PickDecorator(world.supers, world.registry, n.kind);
      }
      assert d == Resolve(world.supers, world.registry, decorators, n.kind, n.spotlight == CONTAINER).0;
      decorators := decorators[n.kind := d];
    }

    /** _delegateSpotlightEvent. */
    method Delegate(e: Event) returns (ok: bool)
      requires Valid() && e.originator < |world.nodes|
      modifies this
      ensures Valid()
      ensures (ok, decorators) == Focus.Delegate(world, old(decorators), e)
      ensures Model() == old(Model()).(decorators := decorators)
    {
      if !(SPOTLIGHT_PREFIX <= e.name) {
        return true;
      }
      var d := GetDecorator(e.originator);
      ok := if d.Some? && e.name in d.value.handlers then d.value.handlers[e.name] else true;
    }

    // ---------------------------------------------------------------------------------
    // The handlers.

    /** _dispatchEvent, with the owner's hook feeding the event back. */
    method Dispatch(e: Event)
      requires Valid() && e.originator < |world.nodes|
      modifies this
      ensures Valid() && Model() == Focus.Dispatch(world, old(Model()), e)
      decreases Rank(e.name), 2
    {
      sent := sent + [e];
      if owner.Some? {
        OnSpotlightEvent(e);
      }
    }

    /** onSpotlightEvent. */
    method OnSpotlightEvent(e: Event)
      requires Valid() && e.originator < |world.nodes|
      modifies this
      ensures Valid() && Model() == Focus.OnSpotlightEvent(world, old(Model()), e)
      decreases Rank(e.name), 1
    {
      lastEvent := Some(e);
      var ok := Delegate(e);
      if !ok {
        return;
      }
      if e.name == FOCUS {
        OnFocus(e);
      } else if e.name == BLUR {
        OnBlur(e);
      } else if IsFiveWay(e.name) {
        last5WayEvent := Some(e);
        OnMoveTo(DirectionOf(e.name));
      } else if e.name == SELECT {
        OnSelect(e);
      } else if e.name == POINT {
        OnPoint(e);
      }
    }

    /** onFocus. */
    method OnFocus(e: Event)
      requires Valid() && e.originator < |world.nodes|
      modifies this
      ensures Valid() && Model() == Focus.OnFocus(world, old(Model()), e)
      decreases 2, 0
    {
      SetCurrent(e.originator);
    }

    /** _setCurrent (and the public setCurrent). */
    method SetCurrent(x: nat)
      requires Valid() && x < |world.nodes|
      modifies this
      ensures Valid() && Model() == Focus.SetCurrent(world, old(Model()), x)
      decreases 1, 0
    {
      current := Some(x);
      Dispatch(Event(FOCUSED, x, None));
    }

    /** onBlur. */
    method OnBlur(e: Event)
      requires Valid()
      modifies this
      ensures Valid() && Model() == Focus.OnBlur(old(Model()), e)
    {
      if current.Some? {
        spotlit := spotlit - {e.originator};
      }
    }

    /** onMoveTo. */
    method OnMoveTo(d: Direction)
      requires Valid()
      modifies this
      ensures Valid() && Model() == Focus.OnMoveTo(world, old(Model()), d)
      decreases 4, 0
    {
      if current.None? {
        return;
      }
      var c := current.value;
      var adjacent := GetAdjacentControl(world.nodes, world.score, d, c);
      var target: nat;
      if adjacent.Some? {
        target := adjacent.value;
      } else {
        target := GetParent(world.nodes, c);
      }
      assert target == MoveTarget(world, c, d);
      var _ := Spot(target, Some(d));
    }

    /** onSelect. */
    method OnSelect(e: Event)
      requires Valid() && e.originator < |world.nodes|
      modifies this
      ensures Valid() && Model() == Focus.OnSelect(world, old(Model()), e)
      decreases 4, 0
    {
      var children := GetChildren(world.nodes, e.originator);
      if |children| == 0 {
        Dispatch(Event(TAP, e.originator, None));
      } else {
        assert children[0] in children;
        var _ := Spot(children[0], None);
      }
    }

    /** onPoint. */
    method OnPoint(e: Event)
      requires Valid() && e.originator < |world.nodes|
      modifies this
      ensures Valid() && Model() == Focus.OnPoint(world, old(Model()), e)
      decreases 4, 0
    {
      if world.nodes[e.originator].spotlight != CONTAINER {
        var _ := Spot(e.originator, None);
      }
    }

    /** spot. */
    method Spot(x: nat, dir: Option<Direction>) returns (ok: bool)
      requires Valid() && x < |world.nodes|
      modifies this
      ensures Valid() && (ok, Model()) == Focus.Spot(world, old(Model()), x, dir)
      decreases 3, 0
    {
      if current.Some? && current.value != x {
        Dispatch(Event(BLUR, current.value, None));
      }
      var target: Option<nat>;
      if IsSpottable(world.nodes[x]) {
        target := Some(x);
      } else {
        target := GetFirstChild(world.nodes, x);
      }
      if target.Some? {
        spotlit := spotlit + {target.value};
        Dispatch(Event(FOCUS, target.value, dir));
        ok := true;
      } else {
        ok := false;
      }
    }

    /** onKeyEvent. */
    method OnKeyEvent(ev: RawEvent)
      requires Valid()
      modifies this
      ensures Valid() && Model() == KeyEvent(world, old(Model()), ev)
    {
      pointerMode := false;
      var command := KeyCommand(ev.keyCode);
      if command.Some? && current.Some? {
        Dispatch(Event(command.value, current.value, None));
      }
    }

    // ---------------------------------------------------------------------------------
    // Public entry points.

    /** _getTarget, for a control the id lookup found. */
    method GetTarget(x: nat) returns (r: nat)
      requires WF(world.nodes) && x < |world.nodes|
      ensures r == Target(world.nodes, x)
    {
      if IsSpottable(world.nodes[x]) {
        r := x;
      } else {
        r := GetParent(world.nodes, x);
      }
    }

    /** initialize; `default` is the owner's control named as default, when it has one. */
    method Initialize(o: nat, default: Option<nat>)
      requires Valid() && o < |world.nodes|
      requires default.Some? ==> default.value < |world.nodes|
      modifies this
      ensures Valid() && Model() == Focus.Initialize(world, old(Model()), o, default)
    {
      if owner.Some? {
        Deregister();
      }
      current := None;
      owner := Some(o);
      var _ := Spot(if default.Some? then default.value else o, None);
    }

    /** deregister. */
    method Deregister()
      requires Valid()
      modifies this
      ensures Valid() && Model() == Focus.Deregister(old(Model()))
    {
      owner := None;
    }

    /** onEvent, with the key-repeat dispatcher `acc` and the host clock `now`. */
    method OnEvent(acc: Dispatcher, raw: RawEvent, now: int)
      requires Valid() && acc.Valid()
      requires raw.target.Some? ==> raw.target.value < |world.nodes|
      modifies this, acc
      ensures Valid() && acc.Valid()
      ensures (Model(), acc.State()) == Focus.OnEvent(world, old(Model()), old(acc.State()), raw, now)
    {
      if owner.None? {
        return;
      }
      if raw.name == MOUSEMOVE {
        pointerMode := true;
        if raw.target.Some? {
          var x := GetTarget(raw.target.value);
          Dispatch(Event(POINT, x, None));
        }
      } else if raw.name == KEYDOWN || raw.name == KEYUP {
        var fire := acc.ProcessKey(raw, now);
        if fire.fired.Some? {
          OnKeyEvent(fire.fired.value);
        }
      }
    }

    /** The dispatcher's timer step, whose re-dispatch reaches onKeyEvent. */
    method OnRepeatTimer(acc: Dispatcher, now: int)
      requires Valid() && acc.Valid()
      modifies this, acc
      ensures Valid() && acc.Valid()
      ensures (Model(), acc.State()) == Focus.OnRepeatTimer(world, old(Model()), old(acc.State()), now)
    {
      var fire := acc.Continue(now);
      if fire.fired.Some? {
        OnKeyEvent(fire.fired.value);
      }
    }
  }
}
