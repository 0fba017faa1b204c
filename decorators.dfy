/** Decorator resolution (_getDecorator): which registered behaviour handles the
    navigation events of an element, chosen by the element's kind and memoised per kind.

    Kinds are numbered; `supers[k]` is the kind `k` directly inherits from, always
    numbered before `k` (single inheritance, as the host's kinds are built). kind.Spotlight.js
    tests lineage with `instanceof`; here that is IsA over `supers`. */
module Decorators {
  import opened Options

  /** A registered behaviour: the kind it decorates (absent for behaviours that only apply
      by name, like the container one) and, per event name, the verdict its handler
      returns (false: prevent the engine's default handling). */
  datatype Decorator = Decorator(decorates: Option<nat>, handlers: map<string, bool>)

  /** One property of the decorator namespace, in enumeration order. */
  datatype Entry = Entry(name: string, decorator: Decorator)

  const CONTAINER_DECORATOR := "Container"

  ghost predicate KindsWF(supers: seq<Option<nat>>) {
    forall k :: 0 <= k < |supers| && supers[k].Some? ==> supers[k].value < k
  }

  ghost predicate RegistryWF(supers: seq<Option<nat>>, reg: seq<Entry>) {
    forall i :: 0 <= i < |reg| && reg[i].decorator.decorates.Some? ==>
      reg[i].decorator.decorates.value < |supers|
  }

  ghost function Registered(reg: seq<Entry>): set<Decorator> {
    set i | 0 <= i < |reg| :: reg[i].decorator
  }

  /** `instanceof`: kind `k` is `a` or inherits from it. */
  predicate IsA(supers: seq<Option<nat>>, k: nat, a: nat)
    requires KindsWF(supers) && k < |supers|
    ensures IsA(supers, k, a) ==> a <= k
    decreases k
  {
    k == a || (supers[k].Some? && IsA(supers, supers[k].value, a))
  }

  /** `a.prototype instanceof b`: kind `a` inherits from `b` and is not `b`. */
  predicate StrictSub(supers: seq<Option<nat>>, a: nat, b: nat)
    requires KindsWF(supers) && a < |supers|
    ensures StrictSub(supers, a, b) ==> b < a
  {
    supers[a].Some? && IsA(supers, supers[a].value, b)
  }

  /** `o.decorates && oSender instanceof o.decorates`. */
  predicate Applies(supers: seq<Option<nat>>, k: nat, d: Decorator)
    requires KindsWF(supers) && k < |supers|
    ensures Applies(supers, k, d) ==> d.decorates.Some? && d.decorates.value <= k
  {
    d.decorates.Some? && IsA(supers, k, d.decorates.value)
  }

  /** The scan over the first `n` entries of the namespace: the first applicable
      decorator, replaced only by a later one whose target kind strictly inherits from
      the current choice's. */
  function Pick(supers: seq<Option<nat>>, reg: seq<Entry>, k: nat, n: nat): (r: Option<Decorator>)
    requires KindsWF(supers) && RegistryWF(supers, reg) && k < |supers| && n <= |reg|
    ensures r.Some? ==> Applies(supers, k, r.value) && r.value.decorates.value < |supers|
  {
    if n == 0 then None
    else
      var prev := Pick(supers, reg, k, n - 1);
      var o := reg[n - 1].decorator;
      if Applies(supers, k, o) then
        if prev.None? then Some(o)
        else if StrictSub(supers, o.decorates.value, prev.value.decorates.value) then Some(o)
        else prev
      else prev
  }

  /** The namespace entry with the given name (object properties are unique). */
  function Lookup(reg: seq<Entry>, name: string): (r: Option<Decorator>)
    ensures r.None? <==> forall i :: 0 <= i < |reg| ==> reg[i].name != name
    ensures r.Some? ==> exists i :: 0 <= i < |reg| && reg[i].name == name && reg[i].decorator == r.value
  {
    if reg == [] then None
    else if reg[0].name == name then Some(reg[0].decorator)
    else
      var r := Lookup(reg[1..], name);
      assert forall i :: 1 <= i < |reg| ==> reg[i] == reg[1..][i - 1];
      r
  }

  /** _getDecorator: a kind already in the cache gets its cached value (a cached null
      included); otherwise a container gets the registered container behaviour and any
      other element the scan's choice, and the answer is stored under its kind. A missing
      container behaviour is the value `undefined`, which the cache test reads as "not
      cached", so in effect that miss is not stored. */
  function Resolve(supers: seq<Option<nat>>, reg: seq<Entry>, cache: map<nat, Option<Decorator>>,
                   kind: nat, container: bool): (r: (Option<Decorator>, map<nat, Option<Decorator>>))
    requires KindsWF(supers) && RegistryWF(supers, reg) && kind < |supers|
    ensures kind in r.1 ==> r.1[kind] == r.0
    ensures kind in cache ==> r == (cache[kind], cache)
    ensures kind !in cache && container ==> r.0 == Lookup(reg, CONTAINER_DECORATOR)
    ensures kind !in cache && !container ==> r.0 == Pick(supers, reg, kind, |reg|)
    ensures kind !in cache ==> r.1 == if container && r.0.None? then cache else cache[kind := r.0]
    ensures r.0.Some? && kind !in cache ==> r.0.value in Registered(reg)
  {
    if kind in cache then (cache[kind], cache)
    else if container then
      var d := Lookup(reg, CONTAINER_DECORATOR);
      if d.None? then (None, cache) else (d, cache[kind := d])
    else
      var d := Pick(supers, reg, kind, |reg|);
      PickRegistered(supers, reg, kind, |reg|);
      (d, cache[kind := d])
  }

  /** Without a container behaviour, resolving a container leaves its kind unresolved, so
      a later non-container element of the same kind still gets the scan's choice; a
      non-container's null, by contrast, is cached and returned to every later element
      of that kind, containers included. */
  lemma ContainerMissIsNotCached(supers: seq<Option<nat>>, reg: seq<Entry>, cache: map<nat, Option<Decorator>>, kind: nat)
    requires KindsWF(supers) && RegistryWF(supers, reg) && kind < |supers| && kind !in cache
    ensures Lookup(reg, CONTAINER_DECORATOR).None? ==>
      var first := Resolve(supers, reg, cache, kind, true);
      && first == (None, cache)
      && Resolve(supers, reg, first.1, kind, false).0 == Pick(supers, reg, kind, |reg|)
    ensures Pick(supers, reg, kind, |reg|).None? ==>
      var first := Resolve(supers, reg, cache, kind, false);
      && kind in first.1
      && Resolve(supers, reg, first.1, kind, true).0 == None
  {
  }

  /** The `for (var s in ...)` loop of _getDecorator. */
  method PickDecorator(supers: seq<Option<nat>>, reg: seq<Entry>, k: nat) returns (d: Option<Decorator>)
    requires KindsWF(supers) && RegistryWF(supers, reg) && k < |supers|
    ensures d == Pick(supers, reg, k, |reg|)
  {
    d := None;
    for i := 0 to |reg|
      invariant d == Pick(supers, reg, k, i)
    {
      var o := reg[i].decorator;
      if o.decorates.Some? && IsA(supers, k, o.decorates.value) {
        if d.None? {
          d := Some(o);
        } else if StrictSub(supers, o.decorates.value, d.value.decorates.value) {
          d := Some(o);
        }
      }
    }
  }

  // ---------------------------------------------------------------------------------
  // Lineage facts and what the scan picks.

  lemma {:induction false} PickRegistered(supers: seq<Option<nat>>, reg: seq<Entry>, k: nat, n: nat)
    requires KindsWF(supers) && RegistryWF(supers, reg) && k < |supers| && n <= |reg|
    ensures Pick(supers, reg, k, n).Some? ==> Pick(supers, reg, k, n).value in Registered(reg)
  {
    if n > 0 {
      PickRegistered(supers, reg, k, n - 1);
      assert reg[n - 1].decorator in Registered(reg);
    }
  }

  lemma {:induction false} IsATransitive(supers: seq<Option<nat>>, a: nat, b: nat, c: nat)
    requires KindsWF(supers) && a < |supers| && b < |supers|
    requires IsA(supers, a, b) && IsA(supers, b, c)
    ensures IsA(supers, a, c)
    decreases a
  {
    if a != b {
      IsATransitive(supers, supers[a].value, b, c);
    }
  }

  /** Single inheritance: two kinds that `k` is an instance of are related by lineage. */
  lemma {:induction false} LineageIsAChain(supers: seq<Option<nat>>, k: nat, a: nat, b: nat)
    requires KindsWF(supers) && k < |supers| && a < |supers| && b < |supers|
    requires IsA(supers, k, a) && IsA(supers, k, b)
    ensures IsA(supers, a, b) || IsA(supers, b, a)
    decreases k
  {
    if k != a && k != b {
      LineageIsAChain(supers, supers[k].value, a, b);
    }
  }

  /** `a.prototype instanceof b` exactly when `a` inherits from `b` and differs from it. */
  lemma StrictSubIsProperIsA(supers: seq<Option<nat>>, a: nat, b: nat)
    requires KindsWF(supers) && a < |supers| && b < |supers|
    ensures StrictSub(supers, a, b) <==> IsA(supers, a, b) && a != b
  {
  }

  /** The scan picks the most specific applicable decorator: none exactly when none
      applies; otherwise one whose target inherits from (or is) every applicable target,
      found at a position before which every applicable target is a strict ancestor of
      the chosen one (ties go to the first entry). */
  lemma {:induction false} PickIsMostSpecific(supers: seq<Option<nat>>, reg: seq<Entry>, k: nat, n: nat)
    requires KindsWF(supers) && RegistryWF(supers, reg) && k < |supers| && n <= |reg|
    ensures var r := Pick(supers, reg, k, n);
      && (r.None? <==> forall i :: 0 <= i < n ==> !Applies(supers, k, reg[i].decorator))
      && (r.Some? ==> forall i :: 0 <= i < n && Applies(supers, k, reg[i].decorator) ==>
            IsA(supers, r.value.decorates.value, reg[i].decorator.decorates.value))
      && (r.Some? ==> exists i :: (0 <= i < n && reg[i].decorator == r.value
            && forall j :: 0 <= j < i && Applies(supers, k, reg[j].decorator) ==>
                 StrictSub(supers, r.value.decorates.value, reg[j].decorator.decorates.value)))
  {
    if n > 0 {
      PickIsMostSpecific(supers, reg, k, n - 1);
      var prev := Pick(supers, reg, k, n - 1);
      var o := reg[n - 1].decorator;
      var r := Pick(supers, reg, k, n);
      if Applies(supers, k, o) && prev.Some? {
        var a := o.decorates.value;
        var b := prev.value.decorates.value;
        LineageIsAChain(supers, k, a, b);
        StrictSubIsProperIsA(supers, a, b);
        if r == Some(o) && o != prev.value {
          // the new entry replaced the choice: it inherits from every earlier target
          forall i | 0 <= i < n && Applies(supers, k, reg[i].decorator)
            ensures IsA(supers, a, reg[i].decorator.decorates.value)
          {
            if i < n - 1 {
              IsATransitive(supers, a, b, reg[i].decorator.decorates.value);
            }
          }
          forall j | 0 <= j < n - 1 && Applies(supers, k, reg[j].decorator)
            ensures StrictSub(supers, a, reg[j].decorator.decorates.value)
          {
            var c := reg[j].decorator.decorates.value;
            IsATransitive(supers, a, b, c);
            StrictSubIsProperIsA(supers, a, c);
          }
          assert reg[n - 1].decorator == r.value;
        } else if r == prev {
          // kept: the choice is at least as specific as the new entry
          assert IsA(supers, b, a);
        }
      }
    }
  }
}
