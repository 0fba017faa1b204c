/** The element tree the engine navigates, and the stateless tree queries of the engine:
    isSpottable, getChildren, getParent, getSiblings and getFirstChild.

    The tree belongs to the host UI framework; the engine only reads it. Elements are
    identified by their index in `t`. A well-formed tree numbers every element after its
    parent (any finite tree can be numbered that way), which makes walking up towards the
    root and walking down towards the leaves visibly terminate. */
module Tree {
  import opened Options

  /** A JavaScript value, as far as the engine inspects the `spotlight` attribute. */
  datatype JsValue = Undefined | Null | Bool(b: bool) | Str(s: string) | Num(n: int)

  const CONTAINER: JsValue := Str("container")

  /** JavaScript truthiness. */
  predicate Truthy(v: JsValue) {
    match v
    case Undefined => false
    case Null => false
    case Bool(b) => b
    case Str(s) => s != ""
    case Num(n) => n != 0
  }

  /** Absolute bounding box, as the host's geometry query reports it. */
  datatype Bounds = Bounds(top: int, left: int, width: int, height: int)

  /** One element of the host tree: its `spotlight` attribute, its kind tag (used to find
      a decorator), its parent and its ordered children, and its absolute bounds. */
  datatype Node = Node(spotlight: JsValue, kind: nat, parent: Option<nat>, children: seq<nat>, bounds: Bounds)

  /** Element `i` agrees with its neighbours: each child names `i` as its parent and comes
      after it, and `i` comes after its parent and is among the parent's children. */
  ghost predicate NodeWF(t: seq<Node>, i: nat)
    requires i < |t|
  {
    && (forall k :: 0 <= k < |t[i].children| ==>
          i < t[i].children[k] < |t| && t[t[i].children[k]].parent == Some(i))
    && (t[i].parent.Some? ==> t[i].parent.value < i && i in t[t[i].parent.value].children)
  }

  ghost predicate WF(t: seq<Node>) {
    forall i :: 0 <= i < |t| ==> NodeWF(t, i)
  }

  /** isSpottable: the attribute is defined and truthy; the container marker is a truthy string. */
  predicate IsSpottable(n: Node)
    ensures IsSpottable(n) <==>
      || n.spotlight == Bool(true)
      || (n.spotlight.Str? && n.spotlight.s != "")
      || (n.spotlight.Num? && n.spotlight.n != 0)
    ensures n.spotlight == CONTAINER ==> IsSpottable(n)
  {
    n.spotlight != Undefined && Truthy(n.spotlight)
  }

  /** `x` lies strictly below `a`, and every element strictly between them on the way up
      from `x` to `a` is not spottable. Defined by walking the parent links upwards, which
      is independent of how getChildren walks the children lists downwards. */
  ghost predicate HiddenUnder(t: seq<Node>, a: nat, x: nat)
    requires WF(t) && x < |t|
    decreases x
  {
    assert NodeWF(t, x);
    match t[x].parent
    case None => false
    case Some(p) => p == a || (!IsSpottable(t[p]) && HiddenUnder(t, a, p))
  }

  /** The spottable elements contributed by the first `k` children of `c`: a spottable
      child contributes itself, any other child whatever lies spottable beneath it. */
  function Collect(t: seq<Node>, c: nat, k: nat): (r: seq<nat>)
    requires WF(t) && c < |t| && k <= |t[c].children|
    ensures forall x :: x in r ==> c < x < |t| && IsSpottable(t[x])
    decreases |t| - c, k
  {
    if k == 0 then []
    else
      var y := t[c].children[k - 1];
      assert NodeWF(t, c);
      Collect(t, c, k - 1) + (if IsSpottable(t[y]) then [y] else Children(t, y))
  }

  /** getChildren: the spottable elements below `c`, reached through non-spottable
      intermediates only, in tree order. */
  function Children(t: seq<Node>, c: nat): (r: seq<nat>)
    requires WF(t) && c < |t|
    ensures forall x :: x in r ==> c < x < |t| && IsSpottable(t[x])
    decreases |t| - c, |t[c].children| + 1
  {
    Collect(t, c, |t[c].children|)
  }

  /** getParent: the nearest spottable proper ancestor; failing that the root reached,
      or `c` itself when it has no parent. */
  function Parent(t: seq<Node>, c: nat): (r: nat)
    requires WF(t) && c < |t|
    ensures r < |t|
    decreases c
  {
    assert NodeWF(t, c);
    match t[c].parent
    case None => c
    case Some(p) => if IsSpottable(t[p]) then p else Parent(t, p)
  }

  /** getFirstChild: the first element of getChildren, if any. */
  function FirstChild(t: seq<Node>, c: nat): (r: Option<nat>)
    requires WF(t) && c < |t|
    ensures r.None? <==> Children(t, c) == []
    ensures r.Some? ==> r.value < |t| && IsSpottable(t[r.value]) && r.value in Children(t, c)
    ensures r.Some? ==> r.value == Children(t, c)[0]
  {
    var kids := Children(t, c);
    if |kids| == 0 then None else assert kids[0] in kids; Some(kids[0])
  }

  /** The siblings list of getSiblings: the spottable children of getParent(c). */
  function Siblings(t: seq<Node>, c: nat): (r: seq<nat>)
    requires WF(t) && c < |t|
    ensures forall x :: x in r ==> x < |t| && IsSpottable(t[x])
    ensures forall i :: 0 <= i < |r| ==> r[i] < |t|
  {
    var r := Children(t, Parent(t, c));
    assert forall i :: 0 <= i < |r| ==> r[i] in r;
    r
  }

  // ---------------------------------------------------------------------------------
  // What getChildren and getParent compute, stated through HiddenUnder.

  lemma {:induction false} HiddenUnderStep(t: seq<Node>, c: nat, y: nat, x: nat)
    requires WF(t) && c < |t| && y < |t| && x < |t|
    requires t[y].parent == Some(c) && !IsSpottable(t[y]) && HiddenUnder(t, y, x)
    ensures HiddenUnder(t, c, x)
    decreases x
  {
    assert NodeWF(t, x);
    var p := t[x].parent.value;
    if p != y {
      HiddenUnderStep(t, c, y, p);
    } else {
      assert p != c by { assert NodeWF(t, y); }
    }
  }

  /** Everything getChildren returns is spottable and hidden under `c`. */
  lemma {:induction false} CollectSound(t: seq<Node>, c: nat, k: nat, x: nat)
    requires WF(t) && c < |t| && k <= |t[c].children|
    requires x in Collect(t, c, k)
    ensures x < |t| && IsSpottable(t[x]) && HiddenUnder(t, c, x)
    decreases |t| - c, k
  {
    assert NodeWF(t, c);
    var y := t[c].children[k - 1];
    assert NodeWF(t, y);
    if x in Collect(t, c, k - 1) {
      CollectSound(t, c, k - 1, x);
    } else if IsSpottable(t[y]) {
      assert x == y;
    } else {
      assert x in Collect(t, y, |t[y].children|);
      CollectSound(t, y, |t[y].children|, x);
      HiddenUnderStep(t, c, y, x);
    }
  }

  /** The first `k` children's contributions reappear in every longer prefix. */
  lemma {:induction false} CollectGrows(t: seq<Node>, c: nat, k: nat, m: nat, x: nat)
    requires WF(t) && c < |t| && k <= m <= |t[c].children|
    requires x in Collect(t, c, k)
    ensures x in Collect(t, c, m)
    decreases m - k
  {
    if k < m {
      CollectGrows(t, c, k, m - 1, x);
    }
  }

  /** A child listed at position `k` of `c` contributes to getChildren(c). */
  lemma ChildContributes(t: seq<Node>, c: nat, k: nat, x: nat)
    requires WF(t) && c < |t| && k < |t[c].children| && t[c].children[k] < |t|
    requires var y := t[c].children[k];
      (IsSpottable(t[y]) && x == y) || (!IsSpottable(t[y]) && x in Children(t, y))
    ensures x in Children(t, c)
  {
    assert x in Collect(t, c, k + 1);
    CollectGrows(t, c, k + 1, |t[c].children|, x);
  }

  lemma ChildIndex(t: seq<Node>, p: nat, y: nat) returns (k: nat)
    requires WF(t) && y < |t| && t[y].parent == Some(p)
    ensures p < |t| && k < |t[p].children| && t[p].children[k] == y
  {
    assert NodeWF(t, y);
    k :| 0 <= k < |t[p].children| && t[p].children[k] == y;
  }

  /** Below a non-spottable element hidden under `c`, getChildren finds nothing that
      getChildren(c) misses. */
  lemma {:induction false} HiddenChildrenIncluded(t: seq<Node>, c: nat, y: nat, x: nat)
    requires WF(t) && c < |t| && y < |t|
    requires HiddenUnder(t, c, y) && !IsSpottable(t[y]) && x in Children(t, y)
    ensures x in Children(t, c)
    decreases y
  {
    var q := t[y].parent.value;
    var k := ChildIndex(t, q, y);
    if q == c {
      ChildContributes(t, c, k, x);
    } else {
      ChildContributes(t, q, k, x);
      assert NodeWF(t, y);
      HiddenChildrenIncluded(t, c, q, x);
    }
  }

  /** getChildren(c) returns exactly the spottable elements hidden under `c`: it never
      returns a non-spottable element, never looks below a spottable one, and misses none. */
  lemma ChildrenExactly(t: seq<Node>, c: nat, x: nat)
    requires WF(t) && c < |t| && x < |t|
    ensures x in Children(t, c) <==> IsSpottable(t[x]) && HiddenUnder(t, c, x)
  {
    if x in Children(t, c) {
      CollectSound(t, c, |t[c].children|, x);
    }
    if IsSpottable(t[x]) && HiddenUnder(t, c, x) {
      var p := t[x].parent.value;
      var k := ChildIndex(t, p, x);
      ChildContributes(t, p, k, x);
      if p != c {
        HiddenChildrenIncluded(t, c, p, x);
      }
    }
  }

  /** A tree whose elements below `c` are all non-spottable yields no children. */
  lemma NoSpottableBelow(t: seq<Node>, c: nat)
    requires WF(t) && c < |t|
    requires forall x :: 0 <= x < |t| && HiddenUnder(t, c, x) ==> !IsSpottable(t[x])
    ensures Children(t, c) == []
  {
    if Children(t, c) != [] {
      var x := Children(t, c)[0];
      assert x in Children(t, c);
      ChildrenExactly(t, c, x);
    }
  }

  /** getParent(c): when `c` has a parent, the result is reached through non-spottable
      elements only and is either spottable (the nearest spottable ancestor) or the root
      (no ancestor is spottable). Without a parent the result is `c` itself. */
  lemma {:induction false} ParentIsNearestSpottable(t: seq<Node>, c: nat)
    requires WF(t) && c < |t|
    ensures t[c].parent.None? ==> Parent(t, c) == c
    ensures t[c].parent.Some? ==>
      var r := Parent(t, c);
      HiddenUnder(t, r, c) && (IsSpottable(t[r]) || t[r].parent.None?)
    decreases c
  {
    assert NodeWF(t, c);
    if t[c].parent.Some? {
      var p := t[c].parent.value;
      if !IsSpottable(t[p]) && t[p].parent.Some? {
        ParentIsNearestSpottable(t, p);
        assert HiddenUnder(t, Parent(t, p), p);
      }
    }
  }

  // ---------------------------------------------------------------------------------
  // The loops of kind.Spotlight.js, proved against the functions above.

  /** getChildren: loops over the children, pushing spottable ones and splicing in the
      result of a recursive call for the others. */
  method GetChildren(t: seq<Node>, c: nat) returns (r: seq<nat>)
    requires WF(t) && c < |t|
    ensures r == Children(t, c)
    decreases |t| - c
  {
    r := [];
    var n := 0;
    while n < |t[c].children|
      invariant 0 <= n <= |t[c].children|
      invariant r == Collect(t, c, n)
    {
      var next := t[c].children[n];
      assert NodeWF(t, c);
      if IsSpottable(t[next]) {
        r := r + [next];
      } else {
        var below := GetChildren(t, next);
        r := r + below;
      }
      n := n + 1;
    }
  }

  /** getParent: walks up the parent links until a spottable element is found. */
  method GetParent(t: seq<Node>, c: nat) returns (r: nat)
    requires WF(t) && c < |t|
    ensures r == Parent(t, c)
  {
    var x: nat := c;
    var found: Option<nat> := None;
    while t[x].parent.Some?
      invariant x < |t| && found.None?
      invariant Parent(t, x) == Parent(t, c)
      decreases x
    {
      assert NodeWF(t, x);
      x := t[x].parent.value;
      if IsSpottable(t[x]) {
        found := Some(x);
        break;
      }
    }
    r := if found.Some? then found.value else x;
  }

  /** getSiblings: the spottable children of getParent(c), and the position of `c` among
      them (the last position holding `c`, None when `c` is not among them). */
  method GetSiblings(t: seq<Node>, c: nat) returns (siblings: seq<nat>, selfPosition: Option<nat>)
    requires WF(t) && c < |t|
    ensures siblings == Siblings(t, c)
    ensures selfPosition.None? <==> c !in siblings
    ensures selfPosition.Some? ==>
      selfPosition.value < |siblings| && siblings[selfPosition.value] == c
      && forall m :: selfPosition.value < m < |siblings| ==> siblings[m] != c
  {
    var parent := GetParent(t, c);
    siblings := GetChildren(t, parent);
    selfPosition := None;
    var n := 0;
    while n < |siblings|
      invariant 0 <= n <= |siblings|
      invariant selfPosition.None? <==> c !in siblings[..n]
      invariant selfPosition.Some? ==>
        selfPosition.value < n && siblings[selfPosition.value] == c
        && forall m :: selfPosition.value < m < n ==> siblings[m] != c
    {
      if siblings[n] == c {
        selfPosition := Some(n);
      }
      assert siblings[..n + 1] == siblings[..n] + [siblings[n]];
      n := n + 1;
    }
    assert siblings[..n] == siblings;
  }

  /** getFirstChild. */
  method GetFirstChild(t: seq<Node>, c: nat) returns (r: Option<nat>)
    requires WF(t) && c < |t|
    ensures r == FirstChild(t, c)
  {
    var kids := GetChildren(t, c);
    r := if |kids| == 0 then None else Some(kids[0]);
  }
}
