/**
 * Bullet culling: after every bullet has advanced, the ones that have left
 * the arena are dropped from the game's list.
 */
module Culling {
  import opened Geometry
  import opened Entities
  import opened Lists

  /** The bounds test of Game.update: 0 <= x < width and 0 <= y < height. */
  predicate OnScreen(p: Point, width: int, height: int)
  {
    0.0 <= p.x < width as real && 0.0 <= p.y < height as real
  }

  /** The bullets of `bs` that are on screen where they are now, in their order in `bs`. */
  function Survivors(bs: seq<Bullet>, width: int, height: int): seq<Bullet>
    reads bs
  {
    if bs == [] then []
    else
      var b := bs[|bs| - 1];
      var rest := Survivors(bs[..|bs| - 1], width, height);
      if OnScreen(b.pos, width, height) then rest + [b] else rest
  }

  /** A bullet survives exactly when it was in the list and is on screen. */
  lemma {:induction false} SurvivorsMembers(bs: seq<Bullet>, width: int, height: int)
    ensures forall b :: b in Survivors(bs, width, height) <==> b in bs && OnScreen(b.pos, width, height)
  {
    if bs != [] {
      var init := bs[..|bs| - 1];
      SurvivorsMembers(init, width, height);
      assert bs == init + [bs[|bs| - 1]];
    }
  }

  /** Culling never duplicates a bullet. */
  lemma {:induction false} SurvivorsDistinct(bs: seq<Bullet>, width: int, height: int)
    requires Distinct(bs)
    ensures Distinct(Survivors(bs, width, height))
  {
    if bs != [] {
      var init := bs[..|bs| - 1];
      var b := bs[|bs| - 1];
      assert Distinct(init);
      SurvivorsDistinct(init, width, height);
      SurvivorsMembers(init, width, height);
      assert b !in init;
      if OnScreen(b.pos, width, height) {
        AppendDistinct(Survivors(init, width, height), b);
      }
    }
  }

  /** Where the bullet `b` is one frame after being at `p`: moved by its velocity. */
  function Moved(p: Point, b: Bullet): Point
  {
    Point(p.x + b.dx, p.y + b.dy)
  }

  /** The positions of the bullets of `bs`, in order. */
  ghost function BulletPositions(bs: seq<Bullet>): (ps: seq<Point>)
    reads bs
    ensures |ps| == |bs| && forall j :: 0 <= j < |bs| ==> ps[j] == bs[j].pos
  {
    if bs == [] then [] else BulletPositions(bs[..|bs| - 1]) + [bs[|bs| - 1].pos]
  }

  /**
   * The first `i` bullets of `bs` have flown one frame from the positions
   * `ps`, and the others are still at theirs.
   */
  ghost predicate Advanced(bs: seq<Bullet>, ps: seq<Point>, i: nat)
    reads bs
  {
    |ps| == |bs| && forall j :: 0 <= j < |bs| ==> bs[j].pos == if j < i then Moved(ps[j], bs[j]) else ps[j]
  }

  /**
   * The survivors of the first i + 1 bullets are those of the first i, then
   * the bullet at i when it is on screen; it is not already among them.
   */
  lemma SurvivorsStep(bs: seq<Bullet>, i: nat, width: int, height: int)
    requires Distinct(bs) && i < |bs|
    ensures bs[i] !in Survivors(bs[..i], width, height)
    ensures Survivors(bs[..i + 1], width, height) ==
      Survivors(bs[..i], width, height) + (if OnScreen(bs[i].pos, width, height) then [bs[i]] else [])
  {
    assert bs[..i + 1][..i] == bs[..i];
    SurvivorsMembers(bs[..i], width, height);
  }

  /**
   * One turn of the bullet loop, on the bullet at index i of the snapshot
   * `bs`: it advances and, when it is then off screen, is removed from the
   * live list.
   */
  method FlyOrDrop(bs: seq<Bullet>, ghost ps: seq<Point>, i: nat, live: seq<Bullet>, width: int, height: int)
    returns (r: seq<Bullet>)
    requires Distinct(bs) && i < |bs|
    requires live == Survivors(bs[..i], width, height) + bs[i..]
    requires Advanced(bs, ps, i)
    modifies bs[i]
    ensures r == Survivors(bs[..i + 1], width, height) + bs[i + 1..]
    ensures Advanced(bs, ps, i + 1)
  {
    var b := bs[i];
    ghost var kept := Survivors(bs[..i], width, height);
    assert b !in bs[..i];
    b.Update();
    forall j | 0 <= j < |bs|
      ensures bs[j].pos == if j < i + 1 then Moved(ps[j], bs[j]) else ps[j]
    {
      if j != i {
        assert bs[j] != b;
      }
    }
    assert kept == Survivors(bs[..i], width, height);
    SurvivorsStep(bs, i, width, height);
    assert bs[i..] == [b] + bs[i + 1..];
    assert live == kept + [b] + bs[i + 1..];
    RemoveFirst(kept, b, bs[i + 1..]);
    r := live;
    if !OnScreen(b.pos, width, height) {
      r := Remove(live, b);
    }
  }

  /**
   * The bullet loop of a frame on the list `bs`: each bullet of a snapshot
   * of the list advances and, when it is then off the arena, is removed from
   * the list; the result is the list afterwards.
   */
  method Cull(bs: seq<Bullet>, width: int, height: int) returns (live: seq<Bullet>)
    requires Distinct(bs)
    modifies bs
    ensures live == Survivors(bs, width, height)
    ensures forall j :: 0 <= j < |bs| ==> bs[j].pos == Moved(old(bs[j].pos), bs[j])
  {
    ghost var ps := BulletPositions(bs);
    assert bs[..|bs|] == bs;
    live := bs;
    for i := 0 to |bs|
      invariant live == Survivors(bs[..i], width, height) + bs[i..]
      invariant Advanced(bs, ps, i)
    {
      live := FlyOrDrop(bs, ps, i, live, width, height);
    }
  }
}
