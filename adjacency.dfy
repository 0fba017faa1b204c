/** Adjacency selection: the half-plane test and the arg-max loop of _getAdjacentControl.
    The score of a candidate (the angle-and-distance formula of kind.Spotlight.js) is a given,
    uninterpreted, non-negative function. */
module Adjacency {
  import opened Options
  import opened Tree

  datatype Direction = Up | Down | Left | Right

  /** A precedence score: a non-negative real, 0 meaning "not eligible". */
  type Score = r: real | 0.0 <= r

  /** The precedence function _getAdjacentControlPrecedence, taken as given. */
  type Scorer = (Direction, Bounds, Bounds) -> Score

  /** _isInHalfPlane: the candidate `b2` lies strictly on the requested side of `b1`,
      comparing tops for UP/DOWN and lefts for LEFT/RIGHT. */
  predicate InHalfPlane(d: Direction, b1: Bounds, b2: Bounds)
  {
    match d
    case Up => b1.top > b2.top
    case Down => b1.top < b2.top
    case Left => b1.left > b2.left
    case Right => b1.left < b2.left
  }

  function Opposite(d: Direction): Direction {
    match d
    case Up => Down
    case Down => Up
    case Left => Right
    case Right => Left
  }

  /** The half-plane test in each direction mirrors the opposite one with the boxes
      swapped; no candidate lies on both sides; and a candidate is on one side or the
      other exactly when the compared coordinate differs, so a tie on it excludes the
      candidate in both directions. */
  lemma HalfPlaneMirror(d: Direction, b1: Bounds, b2: Bounds)
    ensures InHalfPlane(d, b1, b2) <==> InHalfPlane(Opposite(d), b2, b1)
    ensures !(InHalfPlane(d, b1, b2) && InHalfPlane(Opposite(d), b1, b2))
    ensures InHalfPlane(Up, b1, b2) || InHalfPlane(Down, b1, b2) <==> b1.top != b2.top
    ensures InHalfPlane(Left, b1, b2) || InHalfPlane(Right, b1, b2) <==> b1.left != b2.left
  {
  }

  /** A sibling `x` may be chosen when moving from `c` in direction `d`. */
  predicate Eligible(t: seq<Node>, d: Direction, c: nat, x: nat)
    requires c < |t|
  {
    x < |t| && x != c && InHalfPlane(d, t[c].bounds, t[x].bounds)
  }

  /** The loop of _getAdjacentControl over the first `n` of `sibs`: the best score so
      far, starting at 0, and the candidate holding it, replaced only on a strictly
      greater score. */
  function Scan(t: seq<Node>, score: Scorer, d: Direction, c: nat, sibs: seq<nat>, n: nat): (res: (real, Option<nat>))
    requires c < |t| && n <= |sibs| && forall i :: 0 <= i < |sibs| ==> sibs[i] < |t|
    ensures res.0 >= 0.0
    ensures res.1.None? <==> res.0 == 0.0
    ensures res.1.Some? ==> Eligible(t, d, c, res.1.value) && score(d, t[c].bounds, t[res.1.value].bounds) == res.0
  {
    if n == 0 then (0.0, None)
    else
      var prev := Scan(t, score, d, c, sibs, n - 1);
      var x := sibs[n - 1];
      var s: real := score(d, t[c].bounds, t[x].bounds);
      if Eligible(t, d, c, x) && s > prev.0 then (s, Some(x)) else prev
  }

  /** What the loop leaves behind: no eligible candidate scores above the best score;
      no match means the best score is still 0; a match is an eligible candidate holding
      the best score, which is positive, and every eligible candidate before it scores
      strictly less. */
  lemma {:induction false} ScanIsFirstMaximum(t: seq<Node>, score: Scorer, d: Direction, c: nat, sibs: seq<nat>, n: nat)
    requires c < |t| && n <= |sibs| && forall i :: 0 <= i < |sibs| ==> sibs[i] < |t|
    ensures var res := Scan(t, score, d, c, sibs, n);
      && res.0 >= 0.0
      && (forall i :: 0 <= i < n && Eligible(t, d, c, sibs[i]) ==>
            score(d, t[c].bounds, t[sibs[i]].bounds) <= res.0)
      && (res.1.None? ==> res.0 == 0.0)
      && (res.1.Some? ==> exists i :: (0 <= i < n && sibs[i] == res.1.value
            && Eligible(t, d, c, sibs[i]) && score(d, t[c].bounds, t[sibs[i]].bounds) == res.0 > 0.0
            && forall j :: 0 <= j < i && Eligible(t, d, c, sibs[j]) ==>
                 score(d, t[c].bounds, t[sibs[j]].bounds) < res.0))
  {
    if n > 0 {
      ScanIsFirstMaximum(t, score, d, c, sibs, n - 1);
      var prev := Scan(t, score, d, c, sibs, n - 1);
      var res := Scan(t, score, d, c, sibs, n);
      if res != prev {
        assert res.1 == Some(sibs[n - 1]);
        var i := n - 1;
        assert forall j :: 0 <= j < i && Eligible(t, d, c, sibs[j]) ==>
                 score(d, t[c].bounds, t[sibs[j]].bounds) < res.0;
      }
    }
  }

  /** _getAdjacentControl: the sibling of `c` (in the getSiblings sense) with the
      greatest positive score among those strictly on the requested side of `c` and
      different from `c`; the first one in sibling order on a tie; None when every
      eligible sibling scores 0 or there is none. */
  function Adjacent(t: seq<Node>, score: Scorer, d: Direction, c: nat): (r: Option<nat>)
    requires WF(t) && c < |t|
    ensures var sibs := Siblings(t, c);
      && (r.None? ==> forall i :: 0 <= i < |sibs| && Eligible(t, d, c, sibs[i]) ==>
            score(d, t[c].bounds, t[sibs[i]].bounds) == 0.0)
      && (r.Some? ==> exists i :: (0 <= i < |sibs| && sibs[i] == r.value
            && Eligible(t, d, c, r.value)
            && score(d, t[c].bounds, t[r.value].bounds) > 0.0
            && (forall j :: 0 <= j < |sibs| && Eligible(t, d, c, sibs[j]) ==>
                  score(d, t[c].bounds, t[sibs[j]].bounds) <= score(d, t[c].bounds, t[r.value].bounds))
            && (forall j :: 0 <= j < i && Eligible(t, d, c, sibs[j]) ==>
                  score(d, t[c].bounds, t[sibs[j]].bounds) < score(d, t[c].bounds, t[r.value].bounds))))
  {
    var sibs := Siblings(t, c);
    ScanIsFirstMaximum(t, score, d, c, sibs, |sibs|);
    Scan(t, score, d, c, sibs, |sibs|).1
  }

  /** _getAdjacentControl as kind.Spotlight.js writes it: the siblings from getSiblings, then a
      loop over them keeping the best match and its score. */
  method GetAdjacentControl(t: seq<Node>, score: Scorer, d: Direction, c: nat) returns (best: Option<nat>)
    requires WF(t) && c < |t|
    ensures best == Adjacent(t, score, d, c)
  {
    var siblings, _ := GetSiblings(t, c);
    best := BestMatch(t, score, d, c, siblings);
  }

  /** The loop of _getAdjacentControl. */
  method BestMatch(t: seq<Node>, score: Scorer, d: Direction, c: nat, siblings: seq<nat>) returns (best: Option<nat>)
    requires c < |t| && forall i :: 0 <= i < |siblings| ==> siblings[i] < |t|
    ensures best == Scan(t, score, d, c, siblings, |siblings|).1
  {
    var bestScore: real := 0.0;
    best := None;
    var bounds1 := t[c].bounds;
    var n := 0;
    while n < |siblings|
      invariant 0 <= n <= |siblings|
      invariant (bestScore, best) == Scan(t, score, d, c, siblings, n)
    {
      var bounds2 := t[siblings[n]].bounds;
      if InHalfPlane(d, bounds1, bounds2) && siblings[n] != c {
        var precedence := score(d, bounds1, bounds2);
        if precedence > bestScore {
          bestScore := precedence;
          best := Some(siblings[n]);
        }
      }
      n := n + 1;
    }
  }
}
