/** The camera (scripts/camera.py): it keeps its focus in place on screen by
    moving every sprite and the background against the focus's velocity. */
module CameraView {
  import opened Geometry
  import opened Entities
  import opened Objects

  /** The positions of a group of entities, in order. */
  function Positions(group: seq<Entity>): (ps: seq<Vec>)
    reads set e | e in group
    ensures |ps| == |group|
    ensures forall i :: 0 <= i < |group| ==> ps[i] == group[i].position
  {
    if group == [] then [] else [group[0].position] + Positions(group[1..])
  }

  /** Every position moved back by `v`. */
  function Shifted(ps: seq<Vec>, v: Vec): (qs: seq<Vec>)
    ensures |qs| == |ps|
    ensures forall i :: 0 <= i < |ps| ==> qs[i] == ps[i].Minus(v)
  {
    if ps == [] then [] else [ps[0].Minus(v)] + Shifted(ps[1..], v)
  }

  /** The offset keeps the layout: the difference between any two positions
      is what it was, so sprites keep their distances from one another. */
  lemma ShiftedKeepsDifferences(ps: seq<Vec>, v: Vec, i: int, j: int)
    requires 0 <= i < |ps| && 0 <= j < |ps|
    ensures Shifted(ps, v)[i].Minus(Shifted(ps, v)[j]) == ps[i].Minus(ps[j])
    ensures DistSq(Shifted(ps, v)[i], Shifted(ps, v)[j]) == DistSq(ps[i], ps[j])
  {
    var qs := Shifted(ps, v);
    assert qs[i].Minus(qs[j]) == ps[i].Minus(ps[j]);
  }

  /** An offset by `v` followed by one by `-v` puts everything back. */
  lemma ShiftedBack(ps: seq<Vec>, v: Vec)
    ensures Shifted(Shifted(ps, v), Zero.Minus(v)) == ps
  {
    var qs := Shifted(Shifted(ps, v), Zero.Minus(v));
    assert forall i :: 0 <= i < |ps| ==> qs[i] == ps[i];
  }

  /** The part of `apply_offset` that moves the entity sprites (player and
      enemy) back by `v`; the frame names only their positions. */
  method ShiftEntities(group: seq<Entity>, v: Vec)
    requires forall i, j :: 0 <= i < j < |group| ==> group[i] != group[j]
    modifies (set e | e in group)`position
    ensures forall i :: 0 <= i < |group| ==> group[i].position == old(group[i].position).Minus(v)
  {
    var i := 0;
    while i < |group|
      invariant 0 <= i <= |group|
      invariant forall j :: 0 <= j < i ==> group[j].position == old(group[j].position).Minus(v)
      invariant forall j :: i <= j < |group| ==> group[j].position == old(group[j].position)
    {
      group[i].position := group[i].position.Minus(v);
      i := i + 1;
    }
  }

  /** The part that moves the bullets back by `v`; their rects, velocities
      and speeds are outside the frame, so a bullet's rect lags its position
      until its next update. */
  method ShiftBullets(group: seq<Bullet>, v: Vec)
    requires forall i, j :: 0 <= i < j < |group| ==> group[i] != group[j]
    modifies (set b | b in group)`position
    ensures forall i :: 0 <= i < |group| ==> group[i].position == old(group[i].position).Minus(v)
  {
    var i := 0;
    while i < |group|
      invariant 0 <= i <= |group|
      invariant forall j :: 0 <= j < i ==> group[j].position == old(group[j].position).Minus(v)
      invariant forall j :: i <= j < |group| ==> group[j].position == old(group[j].position)
    {
      group[i].position := group[i].position.Minus(v);
      i := i + 1;
    }
  }

  /** The part that moves the pickups back by `v`; their rects are fixed. */
  method ShiftPickups(group: seq<Pickup>, v: Vec)
    requires forall i, j :: 0 <= i < j < |group| ==> group[i] != group[j]
    modifies (set p | p in group)`position
    ensures forall i :: 0 <= i < |group| ==> group[i].position == old(group[i].position).Minus(v)
  {
    var i := 0;
    while i < |group|
      invariant 0 <= i <= |group|
      invariant forall j :: 0 <= j < i ==> group[j].position == old(group[j].position).Minus(v)
      invariant forall j :: i <= j < |group| ==> group[j].position == old(group[j].position)
    {
      group[i].position := group[i].position.Minus(v);
      i := i + 1;
    }
  }

  /** The part that moves the rifle, the bullets and the pickups back by
      `v`; of the rifle only the position changes. */
  method ShiftObjects(rifle: Gun, bullets: seq<Bullet>, pickups: seq<Pickup>, v: Vec)
    requires forall i, j :: 0 <= i < j < |bullets| ==> bullets[i] != bullets[j]
    requires forall i, j :: 0 <= i < j < |pickups| ==> pickups[i] != pickups[j]
    modifies rifle`position, (set b | b in bullets)`position, (set p | p in pickups)`position
    ensures rifle.position == old(rifle.position).Minus(v)
    ensures forall i :: 0 <= i < |bullets| ==> bullets[i].position == old(bullets[i].position).Minus(v)
    ensures forall i :: 0 <= i < |pickups| ==> pickups[i].position == old(pickups[i].position).Minus(v)
  {
    rifle.position := rifle.position.Minus(v);
    ShiftBullets(bullets, v);
    ShiftPickups(pickups, v);
  }

  class Camera {
    const focus: Entity
    var backgroundPos: Vec

    constructor (focus: Entity, backgroundPos: Vec)
      ensures this.focus == focus && this.backgroundPos == backgroundPos
    {
      this.focus, this.backgroundPos := focus, backgroundPos;
    }

    /** `apply_offset(all_sprites)`. The group holds sprites of four kinds,
        passed here one kind at a time: the entities (the player and the
        enemy, the focus included when it is a member), the rifle, the
        bullets and the pickups. Each of them, and the background, moves by
        minus the focus's velocity as it was on entry. The frame names only
        the positions and the background, so rects, velocities, images and
        animations keep their values. The group itself is returned
        unchanged, with the new background position. */
    method ApplyOffset(group: seq<Entity>, rifle: Gun, bullets: seq<Bullet>, pickups: seq<Pickup>)
      returns (bg: Vec)
      requires forall i, j :: 0 <= i < j < |group| ==> group[i] != group[j]
      requires forall i, j :: 0 <= i < j < |bullets| ==> bullets[i] != bullets[j]
      requires forall i, j :: 0 <= i < j < |pickups| ==> pickups[i] != pickups[j]
      modifies this`backgroundPos, rifle`position, (set e | e in group)`position,
               (set b | b in bullets)`position, (set p | p in pickups)`position
      ensures bg == backgroundPos
      ensures focus.velocity == old(focus.velocity)
      ensures backgroundPos == old(backgroundPos).Minus(old(focus.velocity))
      ensures Positions(group) == Shifted(old(Positions(group)), old(focus.velocity))
      ensures rifle.position == old(rifle.position).Minus(old(focus.velocity))
      ensures forall i :: 0 <= i < |bullets| ==> bullets[i].position == old(bullets[i].position).Minus(old(focus.velocity))
      ensures forall i :: 0 <= i < |pickups| ==> pickups[i].position == old(pickups[i].position).Minus(old(focus.velocity))
    {
      var v := focus.velocity;
      backgroundPos := backgroundPos.Minus(v);
      bg := backgroundPos;
      ShiftObjects(rifle, bullets, pickups, v);
      ShiftEntities(group, v);
    }
  }
}
