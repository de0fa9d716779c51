/** The combat and spawn bookkeeping that both revisions of the game loop
    share (scripts/game.py's `Game` and main.py's `Main` have the same bodies
    for `shoot`, `spawn_ammo`, `spawn_enemy`, `manage_hit` and for the pickup
    and bullet loops of a tick, with different constants): the player, the
    rifle, the enemy, the sprite groups and the timers. A revision supplies
    its constants to the `Arena` constructor. */
module Combat {
  import opened Geometry
  import opened Navigation
  import opened Entities
  import opened Objects

  // ---------------------------------------------------------------------
  // Sequences as sprite groups
  // ---------------------------------------------------------------------

  /** A group never holds a sprite twice: no sprite occurs again after its
      first place. */
  predicate Distinct<T(==)>(s: seq<T>) {
    |s| == 0 || (s[0] !in s[1..] && Distinct(s[1..]))
  }

  /** Holding no sprite twice is having different sprites at different
      places. */
  lemma {:induction false} DistinctIndices<T>(s: seq<T>)
    ensures Distinct(s) <==> forall i, j :: 0 <= i < j < |s| ==> s[i] != s[j]
  {
    if |s| > 0 {
      var tail := s[1..];
      DistinctIndices(tail);
      if Distinct(s) {
        forall i, j | 0 <= i < j < |s| ensures s[i] != s[j] {
          assert s[j] == tail[j - 1];
          if i == 0 {
            assert tail[j - 1] in tail;
          } else {
            assert s[i] == tail[i - 1];
          }
        }
      }
      if forall i, j :: 0 <= i < j < |s| ==> s[i] != s[j] {
        forall i, j | 0 <= i < j < |tail| ensures tail[i] != tail[j] {
          assert tail[i] == s[i + 1] && tail[j] == s[j + 1];
        }
        forall k | 0 <= k < |tail| ensures tail[k] != s[0] {
          assert tail[k] == s[k + 1];
        }
      }
    }
  }

  /** Cutting a group at its `i`-th sprite. */
  lemma SplitAt<T>(s: seq<T>, i: nat)
    requires i < |s|
    ensures s[i..] == [s[i]] + s[i + 1..]
    ensures s[..i + 1] == s[..i] + [s[i]]
  {
  }

  /** The part of `s` from place `i` on, `s[i..]`, built one sprite at a
      time; the bullet loop states the bullets it has not reached this way. */
  function Suffix<T>(s: seq<T>, i: nat): (r: seq<T>)
    requires i <= |s|
    ensures |r| == |s| - i
    decreases |s| - i
  {
    if i == |s| then [] else [s[i]] + Suffix(s, i + 1)
  }

  lemma {:induction false} SuffixIsDrop<T>(s: seq<T>, i: nat)
    requires i <= |s|
    ensures Suffix(s, i) == s[i..]
    decreases |s| - i
  {
    if i < |s| {
      SuffixIsDrop(s, i + 1);
      SplitAt(s, i);
    }
  }

  /** From place 0 on, the whole group. */
  lemma SuffixWhole<T>(s: seq<T>)
    ensures Suffix(s, 0) == s
  {
    SuffixIsDrop(s, 0);
  }

  /** In a group free of duplicates the `i`-th sprite occurs neither before
      nor after its own place. */
  lemma DistinctAt<T>(s: seq<T>, i: nat)
    requires Distinct(s) && i < |s|
    ensures s[i] !in s[..i] && s[i] !in s[i + 1..]
  {
    DistinctIndices(s);
    forall k | 0 <= k < i ensures s[..i][k] != s[i] {
      assert s[..i][k] == s[k];
    }
    forall j | i < j < |s| ensures s[j] != s[i] {
    }
  }

  /** In a group free of duplicates no other place holds the `i`-th sprite. */
  lemma DistinctOthers<T>(s: seq<T>, i: nat)
    requires Distinct(s) && i < |s|
    ensures forall j :: 0 <= j < |s| && j != i ==> s[j] != s[i]
  {
    DistinctIndices(s);
  }

  /** Concatenation regrouped. */
  lemma Regroup<T>(a: seq<T>, b: seq<T>, c: seq<T>)
    ensures a + (b + c) == a + b + c
  {
  }

  /** `group.remove(x)`: the group without `x`, in the same order. */
  function Without<T(==)>(s: seq<T>, x: T): (r: seq<T>)
    ensures |r| <= |s|
  {
    if |s| == 0 then []
    else (if s[0] == x then [] else [s[0]]) + Without(s[1..], x)
  }

  /** Removing a sprite that is not in the group keeps the group. */
  lemma {:induction false} WithoutAbsent<T>(s: seq<T>, x: T)
    requires x !in s
    ensures Without(s, x) == s
  {
    if |s| > 0 {
      WithoutAbsent(s[1..], x);
      assert s == [s[0]] + s[1..];
    }
  }

  /** Removing a sprite that occurs once, between `a` and `b`, joins them,
      and removing it again changes nothing. */
  lemma {:induction false} WithoutAround<T>(a: seq<T>, x: T, b: seq<T>)
    requires x !in a && x !in b
    ensures Without(a + ([x] + b), x) == a + b
    ensures Without(a + b, x) == a + b
  {
    WithoutAbsent(a + b, x);
    var s := a + ([x] + b);
    if |a| == 0 {
      assert s == [x] + b && s[1..] == b && a + b == b;
      WithoutAbsent(b, x);
    } else {
      assert s[0] == a[0] && a[0] != x;
      assert s[1..] == a[1..] + ([x] + b);
      WithoutAround(a[1..], x, b);
      assert Without(s, x) == [a[0]] + (a[1..] + b);
      assert a == [a[0]] + a[1..];
      Regroup([a[0]], a[1..], b);
    }
  }

  /** `Without` removes `x` and nothing else. */
  lemma {:induction false} WithoutMembers<T>(s: seq<T>, x: T, y: T)
    ensures y in Without(s, x) <==> y in s && y != x
  {
    if |s| > 0 {
      WithoutMembers(s[1..], x, y);
      assert s == [s[0]] + s[1..];
    }
  }

  /** The members left by `Without` are the old ones but `x`. */
  lemma MembersWithout<T>(s: seq<T>, x: T)
    ensures (set c | c in Without(s, x)) == (set c | c in s) - {x}
  {
    forall c | c in Without(s, x) ensures c in s && c != x {
      WithoutMembers(s, x, c);
    }
    forall c | c in s && c != x ensures c in Without(s, x) {
      WithoutMembers(s, x, c);
    }
  }

  /** A sprite that is not in a duplicate-free group can join it at the end. */
  lemma DistinctAppend<T>(s: seq<T>, x: T)
    requires Distinct(s) && x !in s
    ensures Distinct(s + [x])
  {
    DistinctIndices(s);
    DistinctIndices(s + [x]);
    forall i, j | 0 <= i < j < |s| + 1 ensures (s + [x])[i] != (s + [x])[j] {
      assert (s + [x])[i] == s[i];
      if j == |s| {
        assert s[i] in s;
      } else {
        assert (s + [x])[j] == s[j];
      }
    }
  }

  /** A duplicate-free group, cut anywhere, gives two duplicate-free parts
      with no sprite in common, and two such parts join into a
      duplicate-free group. */
  lemma DistinctParts<T>(s: seq<T>, n: nat)
    requires Distinct(s) && n <= |s|
    ensures Distinct(s[..n]) && Distinct(s[n..])
    ensures forall x :: x in s[..n] ==> x !in s[n..]
  {
    DistinctIndices(s);
    DistinctIndices(s[..n]);
    DistinctIndices(s[n..]);
    forall i, j | 0 <= i < j < n ensures s[..n][i] != s[..n][j] {
      assert s[..n][i] == s[i] && s[..n][j] == s[j];
    }
    forall x | x in s[..n] ensures x !in s[n..] {
      var i :| 0 <= i < n && s[..n][i] == x;
      forall k | 0 <= k < |s| - n ensures s[n..][k] != x {
        assert s[n..][k] == s[n + k] && x == s[i];
      }
    }
    forall i, j | 0 <= i < j < |s| - n ensures s[n..][i] != s[n..][j] {
      assert s[n..][i] == s[n + i] && s[n..][j] == s[n + j];
    }
  }

  /** Two duplicate-free groups with no sprite in common join into one. */
  lemma DistinctJoin<T>(a: seq<T>, b: seq<T>)
    requires Distinct(a) && Distinct(b)
    requires forall x :: x in a ==> x !in b
    ensures Distinct(a + b)
  {
    DistinctIndices(a);
    DistinctIndices(b);
    DistinctIndices(a + b);
    forall i, j | 0 <= i < j < |a| + |b| ensures (a + b)[i] != (a + b)[j] {
      if j < |a| {
        assert (a + b)[i] == a[i] && (a + b)[j] == a[j];
      } else if i >= |a| {
        assert (a + b)[i] == b[i - |a|] && (a + b)[j] == b[j - |a|];
      } else {
        assert (a + b)[i] == a[i] && a[i] in a;
        assert (a + b)[j] == b[j - |a|] && b[j - |a|] in b;
      }
    }
  }

  // ---------------------------------------------------------------------
  // Pickup collection
  // ---------------------------------------------------------------------

  /** The pickups among the first `n` of `s` that touch `player`, in group
      order. */
  function Collected(s: seq<Pickup>, n: nat, player: Rect): (r: seq<Pickup>)
    requires n <= |s|
    ensures |r| <= n
  {
    if n == 0 then []
    else Collected(s, n - 1, player) + (if s[n - 1].Collision(player) then [s[n - 1]] else [])
  }

  /** The pickups among the first `n` of `s` that do not touch `player`, in
      group order. */
  function Uncollected(s: seq<Pickup>, n: nat, player: Rect): (r: seq<Pickup>)
    requires n <= |s|
    ensures |r| <= n
  {
    if n == 0 then []
    else Uncollected(s, n - 1, player) + (if s[n - 1].Collision(player) then [] else [s[n - 1]])
  }

  /** Handling one more pickup: it joins the touching ones or the others. */
  lemma CollectedStep(s: seq<Pickup>, i: nat, player: Rect)
    requires i < |s|
    ensures Collected(s, i + 1, player) == Collected(s, i, player) + (if s[i].Collision(player) then [s[i]] else [])
    ensures Uncollected(s, i + 1, player) == Uncollected(s, i, player) + (if s[i].Collision(player) then [] else [s[i]])
  {
  }

  /** The collected pickups are exactly the touching ones, and the rest are
      exactly the others. */
  lemma {:induction false} CollectedMembers(s: seq<Pickup>, n: nat, player: Rect)
    requires n <= |s|
    ensures forall p :: p in Collected(s, n, player) <==> p in s[..n] && p.Collision(player)
    ensures forall p :: p in Uncollected(s, n, player) <==> p in s[..n] && !p.Collision(player)
  {
    if n > 0 {
      CollectedMembers(s, n - 1, player);
      assert s[..n] == s[..n - 1] + [s[n - 1]];
    }
  }

  /** The pickups the loop leaves behind are still free of duplicates. */
  lemma {:induction false} UncollectedDistinct(s: seq<Pickup>, n: nat, player: Rect)
    requires Distinct(s) && n <= |s|
    ensures Distinct(Uncollected(s, n, player))
  {
    if n > 0 {
      var before := Uncollected(s, n - 1, player);
      UncollectedDistinct(s, n - 1, player);
      CollectedStep(s, n - 1, player);
      if !s[n - 1].Collision(player) {
        CollectedMembers(s, n - 1, player);
        DistinctAt(s, n - 1);
        assert s[n - 1] !in before;
        DistinctAppend(before, s[n - 1]);
      } else {
        assert before + [] == before;
      }
    }
  }

  /** The pickup loop sorts the group into two parts: each pickup lies in
      exactly one of them, and together they are as long as the group, so
      none is counted twice. */
  lemma {:induction false} CollectedPartition(s: seq<Pickup>, n: nat, player: Rect)
    requires n <= |s|
    ensures |Collected(s, n, player)| + |Uncollected(s, n, player)| == n
  {
    if n > 0 {
      CollectedPartition(s, n - 1, player);
    }
  }

  /** What the pickup loop changes: the pickup group and the player's
      ammunition. */
  datatype Haul = Haul(ammos: seq<Pickup>, ammo: int)

  /** The pickup loop after handling the first `i` pickups of `snapshot`
      with the player on `prect` and `ammo0` rounds at the start: the group
      holds the handled pickups the player does not touch and every pickup
      not yet handled, and each touched one has given its rounds. */
  function AfterPickups(snapshot: seq<Pickup>, i: nat, prect: Rect, ammo0: int): (h: Haul)
    requires i <= |snapshot|
    ensures |h.ammos| <= |snapshot|
    ensures h.ammo >= ammo0
  {
    Haul(Uncollected(snapshot, i, prect) + Suffix(snapshot, i), ammo0 + PickupRounds * |Collected(snapshot, i, prect)|)
  }

  /** Handling the `i`-th pickup: before, the group is the kept pickups, that
      pickup and the rest; after, a touching pickup has left the group and
      given its rounds, and any other pickup stays where it was. */
  lemma AfterPickupsStep(snapshot: seq<Pickup>, i: nat, prect: Rect, ammo0: int)
    requires i < |snapshot|
    ensures var h := AfterPickups(snapshot, i, prect, ammo0);
      var kept, rest := Uncollected(snapshot, i, prect), Suffix(snapshot, i + 1);
      h.ammos == kept + ([snapshot[i]] + rest) &&
      AfterPickups(snapshot, i + 1, prect, ammo0) ==
        if snapshot[i].Collision(prect) then Haul(kept + rest, h.ammo + PickupRounds) else h
  {
    CollectedStep(snapshot, i, prect);
    var kept, rest := Uncollected(snapshot, i, prect), Suffix(snapshot, i + 1);
    if !snapshot[i].Collision(prect) {
      Regroup(kept, [snapshot[i]], rest);
    }
  }

  /** In a group free of duplicates the pickup being handled is neither
      among those kept so far nor among those still to come. */
  lemma PickupApart(snapshot: seq<Pickup>, i: nat, prect: Rect)
    requires Distinct(snapshot) && i < |snapshot|
    ensures snapshot[i] !in Uncollected(snapshot, i, prect) && snapshot[i] !in Suffix(snapshot, i + 1)
  {
    DistinctAt(snapshot, i);
    SuffixIsDrop(snapshot, i + 1);
    CollectedMembers(snapshot, i, prect);
  }

  /** Once the loop has handled every pickup, the group holds exactly the
      pickups the player does not touch, and the player has gained twelve
      rounds for each pickup that left the group. */
  lemma PickupsGiveRounds(snapshot: seq<Pickup>, prect: Rect, ammo0: int)
    ensures var h := AfterPickups(snapshot, |snapshot|, prect, ammo0);
      h.ammo == ammo0 + PickupRounds * (|snapshot| - |h.ammos|) &&
      forall p :: p in h.ammos <==> p in snapshot && !p.Collision(prect)
  {
    var n := |snapshot|;
    assert Suffix(snapshot, n) == [];
    assert AfterPickups(snapshot, n, prect, ammo0).ammos == Uncollected(snapshot, n, prect);
    CollectedPartition(snapshot, n, prect);
    CollectedMembers(snapshot, n, prect);
    assert snapshot[..n] == snapshot;
  }

  // ---------------------------------------------------------------------
  // Bullets
  // ---------------------------------------------------------------------

  /** Where bullet `b` stands. */
  function Where(b: Bullet): Flight
    reads b
  {
    Flight(b.position, b.rect)
  }

  /** Where one update with frame time `dt` takes bullet `b` from where it
      stands now. */
  function FlightOf(b: Bullet, dt: real): Flight
    reads b
  {
    FlightFrom(b.position, b.rect, b.direction, b.baseSpeed, dt)
  }

  /** Where a group of bullets stands now, one `Flight` per bullet. */
  ghost function StartsOf(bs: seq<Bullet>): (ss: seq<Flight>)
    reads set b | b in bs
    ensures |ss| == |bs|
    ensures forall j :: 0 <= j < |bs| ==> ss[j] == Where(bs[j])
  {
    if bs == [] then [] else [Where(bs[0])] + StartsOf(bs[1..])
  }

  /** Where one update takes each bullet of a group standing at `ss`. */
  function FlightsFrom(bs: seq<Bullet>, ss: seq<Flight>, dt: real): (fs: seq<Flight>)
    requires |ss| == |bs|
    ensures |fs| == |bs|
  {
    if |bs| == 0 then []
    else [FlightFrom(ss[0].position, ss[0].rect, bs[0].direction, bs[0].baseSpeed, dt)] + FlightsFrom(bs[1..], ss[1..], dt)
  }

  /** The `j`-th flight is the `j`-th bullet's update from its start. */
  lemma {:induction false} FlightsFromAt(bs: seq<Bullet>, ss: seq<Flight>, dt: real, j: nat)
    requires |ss| == |bs| && j < |bs|
    ensures FlightsFrom(bs, ss, dt)[j] == FlightFrom(ss[j].position, ss[j].rect, bs[j].direction, bs[j].baseSpeed, dt)
  {
    if j > 0 {
      FlightsFromAt(bs[1..], ss[1..], dt, j - 1);
    }
  }

  /** Every flight is its bullet's update from its start. */
  lemma FlightsFromAll(bs: seq<Bullet>, ss: seq<Flight>, dt: real)
    requires |ss| == |bs|
    ensures forall j :: 0 <= j < |bs| ==>
      FlightsFrom(bs, ss, dt)[j] == FlightFrom(ss[j].position, ss[j].rect, bs[j].direction, bs[j].baseSpeed, dt)
  {
    forall j | 0 <= j < |bs|
      ensures FlightsFrom(bs, ss, dt)[j] == FlightFrom(ss[j].position, ss[j].rect, bs[j].direction, bs[j].baseSpeed, dt)
    {
      FlightsFromAt(bs, ss, dt, j);
    }
  }

  /** How many of the first `n` flights end with a rect overlapping
      `target`. */
  function Hits(fs: seq<Flight>, n: nat, target: Rect): (h: nat)
    requires n <= |fs|
    ensures h <= n
  {
    if n == 0 then 0
    else Hits(fs, n - 1, target) + (if fs[n - 1].rect.Colliding(target) then 1 else 0)
  }

  /** The first `n` flights hit as often as they have members that end on
      `target`: never if none does, every time if all do, and at least once
      if one does. */
  lemma {:induction false} HitsBounds(fs: seq<Flight>, n: nat, target: Rect)
    requires n <= |fs|
    ensures (forall j :: 0 <= j < n ==> !fs[j].rect.Colliding(target)) ==> Hits(fs, n, target) == 0
    ensures (forall j :: 0 <= j < n ==> fs[j].rect.Colliding(target)) ==> Hits(fs, n, target) == n
    ensures (exists j :: 0 <= j < n && fs[j].rect.Colliding(target)) ==> Hits(fs, n, target) >= 1
  {
    if n > 0 {
      HitsBounds(fs, n - 1, target);
    }
  }

  /** Counting one more flight. */
  lemma HitsStep(fs: seq<Flight>, i: nat, target: Rect)
    requires i < |fs|
    ensures Hits(fs, i + 1, target) == Hits(fs, i, target) + (if fs[i].rect.Colliding(target) then 1 else 0)
  {
  }

  /** A bullet the loop removes: it left the screen or it hit the enemy. */
  predicate SpentAt(r: Rect, screen: Rect, target: Rect) {
    !screen.Contains(r) || r.Colliding(target)
  }

  /** The bullets among the first `n` of `bs` the loop keeps, in group
      order: those whose flight in `fs` neither left the screen nor hit
      `target`. */
  function Unspent(bs: seq<Bullet>, fs: seq<Flight>, n: nat, screen: Rect, target: Rect): (r: seq<Bullet>)
    requires |fs| == |bs| && n <= |bs|
    ensures |r| <= n
  {
    if n == 0 then []
    else Unspent(bs, fs, n - 1, screen, target) + (if SpentAt(fs[n - 1].rect, screen, target) then [] else [bs[n - 1]])
  }

  /** Handling one more bullet keeps it exactly when it is not spent. */
  lemma UnspentStep(bs: seq<Bullet>, fs: seq<Flight>, i: nat, screen: Rect, target: Rect)
    requires |fs| == |bs| && i < |bs|
    ensures Unspent(bs, fs, i + 1, screen, target) ==
      Unspent(bs, fs, i, screen, target) + (if SpentAt(fs[i].rect, screen, target) then [] else [bs[i]])
  {
  }

  /** The kept bullets are bullets of the handled part of the group. */
  lemma {:induction false} UnspentMembers(bs: seq<Bullet>, fs: seq<Flight>, n: nat, screen: Rect, target: Rect)
    requires |fs| == |bs| && n <= |bs|
    ensures forall c :: c in Unspent(bs, fs, n, screen, target) ==> c in bs[..n]
  {
    if n > 0 {
      UnspentMembers(bs, fs, n - 1, screen, target);
      assert bs[..n] == bs[..n - 1] + [bs[n - 1]];
    }
  }

  /** In a group free of duplicates, a handled bullet is kept exactly when
      its flight neither left the screen nor hit the target. */
  lemma {:induction false} UnspentExactly(bs: seq<Bullet>, fs: seq<Flight>, n: nat, screen: Rect, target: Rect)
    requires |fs| == |bs| && n <= |bs| && Distinct(bs)
    ensures forall j :: 0 <= j < n ==> (bs[j] in Unspent(bs, fs, n, screen, target) <==> !SpentAt(fs[j].rect, screen, target))
  {
    if n > 0 {
      UnspentExactly(bs, fs, n - 1, screen, target);
      UnspentMembers(bs, fs, n - 1, screen, target);
      DistinctAt(bs, n - 1);
      var kept := Unspent(bs, fs, n - 1, screen, target);
      assert bs[n - 1] !in kept;
      forall j | 0 <= j < n
        ensures bs[j] in Unspent(bs, fs, n, screen, target) <==> !SpentAt(fs[j].rect, screen, target)
      {
        if j < n - 1 {
          DistinctIndices(bs);
          assert bs[j] != bs[n - 1];
        }
      }
    }
  }

  /** The bullets the loop keeps, followed by those it did not reach, are
      still free of duplicates. */
  lemma UnspentDistinct(bs: seq<Bullet>, fs: seq<Flight>, n: nat, screen: Rect, target: Rect)
    requires |fs| == |bs| && n <= |bs| && Distinct(bs)
    ensures Distinct(Unspent(bs, fs, n, screen, target) + Suffix(bs, n))
  {
    SuffixIsDrop(bs, n);
    UnspentKeepsDistinct(bs, fs, n, screen, target);
    UnspentMembers(bs, fs, n, screen, target);
    DistinctParts(bs, n);
    DistinctJoin(Unspent(bs, fs, n, screen, target), bs[n..]);
  }

  lemma {:induction false} UnspentKeepsDistinct(bs: seq<Bullet>, fs: seq<Flight>, n: nat, screen: Rect, target: Rect)
    requires |fs| == |bs| && n <= |bs| && Distinct(bs)
    ensures Distinct(Unspent(bs, fs, n, screen, target))
  {
    if n > 0 {
      UnspentKeepsDistinct(bs, fs, n - 1, screen, target);
      if !SpentAt(fs[n - 1].rect, screen, target) {
        assert Unspent(bs, fs, n, screen, target) == Unspent(bs, fs, n - 1, screen, target) + [bs[n - 1]];
        UnspentMembers(bs, fs, n - 1, screen, target);
        DistinctAt(bs, n - 1);
        DistinctAppend(Unspent(bs, fs, n - 1, screen, target), bs[n - 1]);
      } else {
        assert Unspent(bs, fs, n, screen, target) == Unspent(bs, fs, n - 1, screen, target) + [] == Unspent(bs, fs, n - 1, screen, target);
      }
    }
  }

  /** What the bullet loop changes: the bullet group, the enemy slot, the
      health of the enemy it started with, the kill count, the respawn flag
      and the respawn timer. */
  datatype Tally = Tally(bullets: seq<Bullet>, enemy: Enemy?, health: int, kills: int, spawn: bool, delay: int)

  /** The bullet loop after handling the first `i` bullets of `snapshot`,
      the group as the loop found it, whose updates take them along
      `flights`, against enemy `e0` standing on `target` with `health0`
      health: the group holds the unspent handled bullets and every bullet
      not yet handled; the enemy has lost one health point per hit; once
      its health is down to zero it is gone, the kill is counted and the
      respawn timer started at `now`. */
  function AfterBullets(snapshot: seq<Bullet>, flights: seq<Flight>, i: nat, screen: Rect, target: Rect,
                        e0: Enemy, health0: int, kills0: int, delay0: int, now: int): (t: Tally)
    requires |flights| == |snapshot| && i <= |snapshot|
    ensures |t.bullets| <= |snapshot|
    ensures t.health == health0 - Hits(flights, i, target)
    ensures t.spawn <==> t.enemy == null
    ensures t.enemy == null <==> t.health <= 0
  {
    var hits := Hits(flights, i, target);
    var dead := health0 - hits <= 0;
    Tally(Unspent(snapshot, flights, i, screen, target) + Suffix(snapshot, i),
          if dead then null else e0, health0 - hits,
          kills0 + (if dead then 1 else 0), dead, if dead then now else delay0)
  }

  // ---------------------------------------------------------------------
  // The shared state
  // ---------------------------------------------------------------------

  /** The sprites `all_sprites` holds: the player, the rifle, the enemy while
      there is one, every bullet and every pickup. `kill()` takes a sprite out
      of every group it is in, so the drawing group is always this union of
      the other parts; the lemmas at the end of this module show that each
      add and each kill changes it by exactly that sprite. */
  function SpriteSet(player: Player, rifle: Gun, enemy: Enemy?, bullets: seq<Bullet>, ammos: seq<Pickup>): set<object> {
    {player as object, rifle as object} +
    (if enemy == null then {} else {enemy as object}) +
    (set b | b in bullets) + (set p | p in ammos)
  }

  /** What one tick reads from outside the game state: the time
      `get_ticks` reports, whether the left mouse button alone is pressed,
      the unit vector of the rifle's angle a new bullet flies along, where
      `get_random_position` puts a new pickup and a new enemy, and the delay
      `random.randint` draws for a respawn. */
  datatype Tick = Tick(now: int, fire: bool, direction: Vec, ammoPos: Vec, enemyPos: Vec, respawnAfter: int)

  /** How long a shot blocks the next one, in milliseconds. */
  const ShotCooldown := 170
  /** The speed of a bullet per frame at 60 frames per second. */
  const BulletSpeed := 25.0
  /** The cap on pickups lying in the arena. */
  const MaxPickups := 4
  /** Rounds in one pickup. */
  const PickupRounds := 12

  class Arena {
    /** The walkability grid of the player and of the first enemy, and the one
        respawned enemies get. */
    const grid: Grid
    const respawnGrid: Grid
    const bgRect: Rect
    const player: Player
    const rifle: Gun
    /** `player.base_speed` minus the revision's handicap. */
    const enemySpeed: real
    const enemyWidth: nat
    const enemyHeight: nat
    const ammoWidth: nat
    const ammoHeight: nat
    const bulletWidth: nat
    const bulletHeight: nat

    var enemy: Enemy?
    var bullets: seq<Bullet>
    var ammos: seq<Pickup>
    var bulletCooldown: int
    var ammoDelay: int
    var newEnemyDelay: int
    var spawnNewEnemy: bool

    /** `all_sprites`. */
    function AllSprites(): set<object>
      reads this
    {
      SpriteSet(player, rifle, enemy, bullets, ammos)
    }

    /** The parts are wired together: the grids can be used and the enemy,
        when there is one, has its own entity. */
    ghost predicate Wired()
      reads this, player, player.entity, rifle, enemy, if enemy != null then {enemy.entity} else {}
    {
      player.Valid() && rifle.Valid() && respawnGrid.Valid() && player.grid == grid &&
      (enemy != null ==> enemy.Valid() && enemy.entity != player.entity)
    }

    /** The counters agree: a present enemy has health left, a respawn is
        pending exactly when there is no enemy, and ammunition is never
        negative. */
    ghost predicate Counters()
      reads this, player, enemy
    {
      (enemy != null ==> enemy.health >= 1) &&
      (spawnNewEnemy <==> enemy == null) &&
      player.ammo >= 0
    }

    /** The groups hold each sprite once, and at most four pickups lie in
        the arena. */
    predicate Groups()
      reads this
    {
      |ammos| <= MaxPickups && Distinct(ammos) && Distinct(bullets)
    }

    /** The invariant both game loops keep between the steps of a tick. */
    ghost predicate Valid()
      reads this, player, player.entity, rifle, enemy, if enemy != null then {enemy.entity} else {}
    {
      Wired() && Counters() && Groups()
    }

    /** The state the constructors of both revisions set up: the first enemy
        at `enemyPos` on the player's grid, empty bullet and pickup groups,
        and every timer started at `now`. */
    constructor (grid: Grid, respawnGrid: Grid, bgRect: Rect, player: Player, rifle: Gun,
                 enemyPos: Vec, enemySpeed: real, enemyWidth: nat, enemyHeight: nat,
                 ammoWidth: nat, ammoHeight: nat, bulletWidth: nat, bulletHeight: nat, now: int)
      requires player.Valid() && rifle.Valid() && respawnGrid.Valid() && player.grid == grid
      requires player.ammo >= 0
      ensures Valid() && fresh(enemy) && fresh(enemy.entity)
      ensures this.grid == grid && this.respawnGrid == respawnGrid && this.bgRect == bgRect
      ensures this.player == player && this.rifle == rifle && this.enemySpeed == enemySpeed
      ensures this.enemyWidth == enemyWidth && this.enemyHeight == enemyHeight
      ensures this.ammoWidth == ammoWidth && this.ammoHeight == ammoHeight
      ensures this.bulletWidth == bulletWidth && this.bulletHeight == bulletHeight
      ensures enemy.entity.position == enemyPos && enemy.health == 4 && enemy.grid == grid
      ensures enemy.entity.baseSpeed == enemySpeed
      ensures AllSprites() == {player, rifle, enemy} && bullets == [] && ammos == []
      ensures bulletCooldown == now && ammoDelay == now && newEnemyDelay == now && !spawnNewEnemy
    {
      this.grid, this.respawnGrid, this.bgRect := grid, respawnGrid, bgRect;
      this.player, this.rifle, this.enemySpeed := player, rifle, enemySpeed;
      this.enemyWidth, this.enemyHeight := enemyWidth, enemyHeight;
      this.ammoWidth, this.ammoHeight := ammoWidth, ammoHeight;
      this.bulletWidth, this.bulletHeight := bulletWidth, bulletHeight;
      var e := new Enemy(enemyPos, enemyWidth, enemyHeight, enemySpeed, grid);
      enemy := e;
      bullets, ammos := [], [];
      bulletCooldown, ammoDelay, newEnemyDelay := now, now, now;
      spawnNewEnemy := false;
    }

    /** `shoot()` at time `now`; `direction` is the unit vector of the rifle's
        angle. Its only caller shoots with ammunition left. */
    method Shoot(now: int, direction: Vec)
      requires Valid() && player.ammo >= 1
      modifies this, player
      ensures Valid()
      ensures var fires := now - old(bulletCooldown) >= ShotCooldown;
        (fires ==>
           player.ammo == old(player.ammo) - 1 && bulletCooldown == now &&
           |bullets| == |old(bullets)| + 1 && bullets[..|old(bullets)|] == old(bullets) &&
           var b := bullets[|old(bullets)|];
           fresh(b) && b.position == player.entity.position && b.angle == rifle.angle && b.direction == direction &&
           b.baseSpeed == BulletSpeed && b.rect == RectAround(bulletWidth, bulletHeight, player.entity.position)) &&
        (!fires ==>
           player.ammo == old(player.ammo) && bulletCooldown == old(bulletCooldown) &&
           bullets == old(bullets))
      ensures enemy == old(enemy) && ammos == old(ammos) && ammoDelay == old(ammoDelay)
      ensures newEnemyDelay == old(newEnemyDelay) && spawnNewEnemy == old(spawnNewEnemy)
      ensures player.killCount == old(player.killCount) && player.moved == old(player.moved)
      ensures player.flipped == old(player.flipped)
    {
      if now - bulletCooldown >= ShotCooldown {
        var b := new Bullet(player.entity.position, rifle.angle, direction, BulletSpeed, bulletWidth, bulletHeight);
        player.ammo := player.ammo - 1;
        DistinctAppend(bullets, b);
        bullets := bullets + [b];
        bulletCooldown := now;
        assert bullets[..|old(bullets)|] == old(bullets);
      }
    }

    /** `spawn_ammo()` with `pos` the place `get_random_position` picks. */
    method SpawnAmmo(pos: Vec)
      requires Valid()
      modifies this
      ensures Valid()
      ensures |old(ammos)| < MaxPickups ==>
        |ammos| == |old(ammos)| + 1 && ammos[..|old(ammos)|] == old(ammos) &&
        var p := ammos[|old(ammos)|];
        fresh(p) && p.position == pos && p.rect == Rect(ToInt(pos.x), ToInt(pos.y), ammoWidth, ammoHeight)
      ensures |old(ammos)| >= MaxPickups ==> ammos == old(ammos)
      ensures enemy == old(enemy) && bullets == old(bullets) && bulletCooldown == old(bulletCooldown)
      ensures ammoDelay == old(ammoDelay) && newEnemyDelay == old(newEnemyDelay)
      ensures spawnNewEnemy == old(spawnNewEnemy)
    {
      if |ammos| < MaxPickups {
        var p := new Pickup(pos, ammoWidth, ammoHeight);
        DistinctAppend(ammos, p);
        ammos := ammos + [p];
        assert ammos[..|old(ammos)|] == old(ammos);
      }
    }

    /** `spawn_enemy()` with `pos` the place `get_random_position` picks: a
        new enemy at full health joins `all_sprites`. */
    method SpawnEnemy(pos: Vec)
      requires Wired()
      modifies this
      ensures Wired()
      ensures fresh(enemy) && fresh(enemy.entity) && enemy.health == enemy.maxHealth == 4
      ensures enemy.entity.position == pos && enemy.entity.velocity == Zero && enemy.entity.baseSpeed == enemySpeed
      ensures enemy.grid == respawnGrid && enemy.plan == None
      ensures !spawnNewEnemy
      ensures bullets == old(bullets) && ammos == old(ammos) && bulletCooldown == old(bulletCooldown)
      ensures ammoDelay == old(ammoDelay) && newEnemyDelay == old(newEnemyDelay)
    {
      var e := new Enemy(pos, enemyWidth, enemyHeight, enemySpeed, respawnGrid);
      enemy := e;
      spawnNewEnemy := false;
    }

    /** `manage_hit()` at time `now`: the enemy loses one health point, and
        when it has none left the kill is counted, the enemy leaves the game
        and the respawn timer starts. */
    method ManageHit(now: int)
      requires Wired() && Counters() && enemy != null
      modifies this, enemy, player
      ensures Wired() && Counters()
      ensures old(enemy).health == old(enemy.health) - 1 && old(enemy).plan == old(enemy.plan)
      ensures old(enemy.health) <= 1 ==>
        enemy == null && player.killCount == old(player.killCount) + 1 &&
        spawnNewEnemy && newEnemyDelay == now
      ensures old(enemy.health) > 1 ==>
        enemy == old(enemy) && player.killCount == old(player.killCount) &&
        newEnemyDelay == old(newEnemyDelay)
      ensures bullets == old(bullets) && ammos == old(ammos) && player.ammo == old(player.ammo)
      ensures bulletCooldown == old(bulletCooldown) && ammoDelay == old(ammoDelay)
      ensures player.moved == old(player.moved) && player.flipped == old(player.flipped)
    {
      enemy.health := enemy.health - 1;
      if enemy.health <= 0 {
        player.killCount := player.killCount + 1;
        newEnemyDelay := now;
        spawnNewEnemy := true;
        enemy := null;
      }
    }

    /** `bullet.kill()` for a bullet that stands (or stood) between `kept`
        and `rest` in the group: it leaves both groups, and the others stay
        in order. */
    method Kill(b: Bullet, ghost kept: seq<Bullet>, ghost rest: seq<Bullet>)
      requires Wired() && Counters() && b !in kept && b !in rest
      requires bullets == kept + ([b] + rest) || bullets == kept + rest
      modifies this
      ensures Wired() && Counters()
      ensures bullets == kept + rest
      ensures enemy == old(enemy) && ammos == old(ammos) && bulletCooldown == old(bulletCooldown)
      ensures ammoDelay == old(ammoDelay) && newEnemyDelay == old(newEnemyDelay)
      ensures spawnNewEnemy == old(spawnNewEnemy)
    {
      assert Without(bullets, b) == kept + rest by {
        WithoutAround(kept, b, rest);
      }
      bullets := Without(bullets, b);
    }

    /** `ammo.kill()` and `player.ammo += 12` for a pickup the player
        touches, standing between `kept` and `rest` in the group: it leaves
        both groups, the others stay in order, and its rounds are added. */
    method Pick(p: Pickup, ghost kept: seq<Pickup>, ghost rest: seq<Pickup>)
      requires Wired() && Counters() && p !in kept && p !in rest
      requires ammos == kept + ([p] + rest)
      modifies this, player
      ensures Wired() && Counters()
      ensures ammos == kept + rest
      ensures player.ammo == old(player.ammo) + PickupRounds
      ensures enemy == old(enemy) && bullets == old(bullets) && bulletCooldown == old(bulletCooldown)
      ensures ammoDelay == old(ammoDelay) && newEnemyDelay == old(newEnemyDelay)
      ensures spawnNewEnemy == old(spawnNewEnemy)
      ensures player.killCount == old(player.killCount) && player.moved == old(player.moved)
      ensures player.flipped == old(player.flipped)
    {
      assert Without(ammos, p) == kept + rest by {
        WithoutAround(kept, p, rest);
      }
      ammos := Without(ammos, p);
      player.ammo := player.ammo + PickupRounds;
    }

    /** The part of the state the pickup loop changes. */
    ghost function Carried(): (h: Haul)
      reads this, player
      ensures h.ammos == ammos && h.ammo == player.ammo
    {
      Haul(ammos, player.ammo)
    }

    /** One pass of the pickup loop for the `i`-th pickup of `snapshot`: if
        it touches `prect` it is picked up, otherwise it stays; the state
        moves from what `AfterPickups` says of `i` pickups to what it says of
        `i + 1`. */
    method Sort(snapshot: seq<Pickup>, prect: Rect, ghost ammo0: int, i: nat)
      requires Wired() && Counters() && Distinct(snapshot) && i < |snapshot| && player.entity.rect == prect
      requires Carried() == AfterPickups(snapshot, i, prect, ammo0)
      modifies this, player
      ensures Wired() && Counters() && player.entity.rect == prect
      ensures Carried() == AfterPickups(snapshot, i + 1, prect, ammo0)
      ensures enemy == old(enemy) && bullets == old(bullets) && bulletCooldown == old(bulletCooldown)
      ensures ammoDelay == old(ammoDelay) && newEnemyDelay == old(newEnemyDelay)
      ensures spawnNewEnemy == old(spawnNewEnemy)
      ensures player.killCount == old(player.killCount) && player.moved == old(player.moved)
      ensures player.flipped == old(player.flipped)
    {
      var p := snapshot[i];
      ghost var kept := Uncollected(snapshot, i, prect);
      ghost var rest := Suffix(snapshot, i + 1);
      AfterPickupsStep(snapshot, i, prect, ammo0);
      if p.Collision(prect) {
        PickupApart(snapshot, i, prect);
        Pick(p, kept, rest);
      }
    }

    /** The pickup loop over `snapshot`, the pickups present when the tick
        reached it, with the player on `prect`: every pickup is handled in
        group order, and the state ends as `AfterPickups` says of all of
        them. */
    method Gather(snapshot: seq<Pickup>, prect: Rect, ghost ammo0: int)
      requires Wired() && Counters() && Distinct(snapshot) && player.entity.rect == prect
      requires Carried() == AfterPickups(snapshot, 0, prect, ammo0)
      modifies this, player
      ensures Wired() && Counters() && player.entity.rect == prect
      ensures Carried() == AfterPickups(snapshot, |snapshot|, prect, ammo0)
      ensures enemy == old(enemy) && bullets == old(bullets) && bulletCooldown == old(bulletCooldown)
      ensures ammoDelay == old(ammoDelay) && newEnemyDelay == old(newEnemyDelay)
      ensures spawnNewEnemy == old(spawnNewEnemy)
      ensures player.killCount == old(player.killCount) && player.moved == old(player.moved)
      ensures player.flipped == old(player.flipped)
    {
      var i := 0;
      while i < |snapshot|
        invariant i <= |snapshot| && Wired() && Counters() && player.entity.rect == prect
        invariant Carried() == AfterPickups(snapshot, i, prect, ammo0)
        invariant enemy == old(enemy) && bullets == old(bullets) && bulletCooldown == old(bulletCooldown)
        invariant ammoDelay == old(ammoDelay) && newEnemyDelay == old(newEnemyDelay)
        invariant spawnNewEnemy == old(spawnNewEnemy)
        invariant player.killCount == old(player.killCount) && player.moved == old(player.moved)
        invariant player.flipped == old(player.flipped)
      {
        Sort(snapshot, prect, ammo0, i);
        i := i + 1;
      }
    }

    /** The pickup loop of a tick: every pickup touching the player leaves
        both groups and gives 12 rounds; the others stay, in order. */
    method CollectPickups()
      requires Valid()
      modifies this, player
      ensures Valid()
      ensures var prect := player.entity.rect;
        ammos == Uncollected(old(ammos), |old(ammos)|, prect) &&
        player.ammo == old(player.ammo) + PickupRounds * |Collected(old(ammos), |old(ammos)|, prect)|
      ensures enemy == old(enemy) && bullets == old(bullets) && bulletCooldown == old(bulletCooldown)
      ensures ammoDelay == old(ammoDelay) && newEnemyDelay == old(newEnemyDelay)
      ensures spawnNewEnemy == old(spawnNewEnemy)
      ensures player.killCount == old(player.killCount) && player.moved == old(player.moved)
      ensures player.flipped == old(player.flipped)
    {
      var snapshot := ammos;
      var prect := player.entity.rect;
      SuffixWhole(snapshot);
      Gather(snapshot, prect, player.ammo);
      assert ammos == Uncollected(snapshot, |snapshot|, prect) + [] == Uncollected(snapshot, |snapshot|, prect);
      UncollectedDistinct(snapshot, |snapshot|, prect);
    }

    /** One pass of the bullet loop for bullet `b`: it moves, leaves both
        groups if it left the screen, and, if its rect overlaps the enemy's,
        the hit is managed and it leaves both groups. */
    method Strike(b: Bullet, now: int, dt: real, ghost kept: seq<Bullet>, ghost rest: seq<Bullet>, ghost target: Rect)
      requires Wired() && Counters() && enemy != null && enemy.entity.rect == target
      requires bullets == kept + ([b] + rest) && b !in kept && b !in rest
      modifies this, b, enemy, player
      ensures Wired() && Counters()
      ensures Flight(b.position, b.rect) == FlightFrom(old(b.position), old(b.rect), b.direction, b.baseSpeed, dt)
      ensures bullets == kept + (if SpentAt(b.rect, bgRect, target) then [] else [b]) + rest
      ensures old(enemy).health == old(enemy.health) - (if b.Hit(target) then 1 else 0)
      ensures old(enemy).plan == old(enemy.plan)
      ensures enemy == null <==> b.Hit(target) && old(enemy.health) <= 1
      ensures enemy != null ==> enemy == old(enemy) && newEnemyDelay == old(newEnemyDelay)
      ensures player.killCount == old(player.killCount) + (if enemy == null then 1 else 0)
      ensures enemy == null ==> spawnNewEnemy && newEnemyDelay == now
      ensures ammos == old(ammos) && bulletCooldown == old(bulletCooldown) && ammoDelay == old(ammoDelay)
      ensures player.ammo == old(player.ammo) && player.moved == old(player.moved)
      ensures player.flipped == old(player.flipped)
    {
      var offScreen := b.Update(bgRect, dt);
      if offScreen {
        Kill(b, kept, rest);
      }
      if b.Hit(enemy.entity.rect) {
        ManageHit(now);
        Kill(b, kept, rest);
      }
      Regroup(kept, [b], rest);
      assert kept + [] == kept;
    }

    /** The part of the state the bullet loop changes, with the health of
        enemy `e0`. */
    ghost function Observed(e0: Enemy): (t: Tally)
      reads this, player, e0
      ensures t.bullets == bullets && t.enemy == enemy && t.health == e0.health
      ensures t.kills == player.killCount && t.spawn == spawnNewEnemy && t.delay == newEnemyDelay
    {
      Tally(bullets, enemy, e0.health, player.killCount, spawnNewEnemy, newEnemyDelay)
    }

    /** The part of the state the bullet loop leaves alone: the pickups, the
        shot and pickup timers, and the player's ammunition, `moved` flag and
        flip. */
    ghost function Aside(): (a: (seq<Pickup>, int, int, int, bool, bool))
      reads this, player
      ensures a == (ammos, bulletCooldown, ammoDelay, player.ammo, player.moved, player.flipped)
    {
      (ammos, bulletCooldown, ammoDelay, player.ammo, player.moved, player.flipped)
    }

    /** The bullet loop over `snapshot` has handled its first `i` bullets,
        whose updates take them along `flights` (the others still stand at
        `starts`), against enemy `e0` standing on `target` with `health0`
        health: the state is what `AfterBullets` says of them, the health
        left is never negative, and it reached zero only on the last bullet
        handled, which hit the enemy. */
    ghost predicate Swept(snapshot: seq<Bullet>, starts: seq<Flight>, flights: seq<Flight>, e0: Enemy, target: Rect,
                          health0: int, kills0: int, delay0: int, now: int, i: nat)
      reads this, player, e0, e0.entity, set b | b in snapshot
    {
      i <= |snapshot| && |starts| == |snapshot| && |flights| == |snapshot| && e0.entity.rect == target &&
      Hits(flights, i, target) <= health0 &&
      (Hits(flights, i, target) == health0 ==> 1 <= i && flights[i - 1].rect.Colliding(target)) &&
      Observed(e0) == AfterBullets(snapshot, flights, i, bgRect, target, e0, health0, kills0, delay0, now) &&
      (forall j :: 0 <= j < i ==> Where(snapshot[j]) == flights[j]) &&
      (forall j :: i <= j < |snapshot| ==> Where(snapshot[j]) == starts[j])
    }

    /** One pass of the bullet loop: the `i`-th bullet of `snapshot`, still
        standing at its start, is handled by `Strike`, and the state moves
        from what `AfterBullets` says of `i` bullets to what it says of
        `i + 1`. */
    method Advance(now: int, dt: real, snapshot: seq<Bullet>, ghost starts: seq<Flight>, ghost flights: seq<Flight>,
                   ghost e0: Enemy, ghost target: Rect, ghost health0: int, ghost kills0: int, ghost delay0: int, i: nat)
      requires Wired() && Counters() && enemy == e0 && i < |snapshot| && Distinct(snapshot)
      requires |starts| == |snapshot| && flights == FlightsFrom(snapshot, starts, dt)
      requires Swept(snapshot, starts, flights, e0, target, health0, kills0, delay0, now, i)
      modifies this, snapshot[i], enemy, player
      ensures Wired() && Counters() && (enemy == null || enemy == e0)
      ensures Swept(snapshot, starts, flights, e0, target, health0, kills0, delay0, now, i + 1)
      ensures Aside() == old(Aside()) && e0.plan == old(e0.plan)
    {
      var b := snapshot[i];
      ghost var kept := Unspent(snapshot, flights, i, bgRect, target);
      DistinctAt(snapshot, i);
      DistinctOthers(snapshot, i);
      UnspentMembers(snapshot, flights, i, bgRect, target);
      UnspentStep(snapshot, flights, i, bgRect, target);
      HitsStep(flights, i, target);
      FlightsFromAt(snapshot, starts, dt, i);
      SuffixIsDrop(snapshot, i + 1);
      Strike(b, now, dt, kept, Suffix(snapshot, i + 1), target);
      assert Where(b) == flights[i];
    }

    /** The bullet loop over `snapshot`, the bullets present when the tick
        reached it, standing at `starts`, against enemy `e0` on `target`:
        the bullets are handled in group order until the enemy dies.
        `processed` is how many were handled; the state is what
        `AfterBullets` says of them, the handled bullets lie where their
        `flights` end and the others have not moved. */
    method Volley(now: int, dt: real, snapshot: seq<Bullet>, ghost starts: seq<Flight>, ghost flights: seq<Flight>,
                  ghost e0: Enemy, ghost target: Rect, ghost health0: int, ghost kills0: int, ghost delay0: int)
        returns (processed: nat)
      requires Wired() && Counters() && Distinct(snapshot) && enemy == e0
      requires |starts| == |snapshot| && flights == FlightsFrom(snapshot, starts, dt)
      requires Swept(snapshot, starts, flights, e0, target, health0, kills0, delay0, now, 0)
      modifies this, player, e0, set b | b in snapshot
      ensures Wired() && Counters()
      ensures processed < |snapshot| ==> enemy == null
      ensures Swept(snapshot, starts, flights, e0, target, health0, kills0, delay0, now, processed)
      ensures Aside() == old(Aside()) && e0.plan == old(e0.plan)
    {
      var i := 0;
      while i < |snapshot| && enemy != null
        invariant Wired() && Counters() && (enemy == null || enemy == e0)
        invariant Swept(snapshot, starts, flights, e0, target, health0, kills0, delay0, now, i)
        invariant Aside() == old(Aside()) && e0.plan == old(e0.plan)
      {
        Advance(now, dt, snapshot, starts, flights, e0, target, health0, kills0, delay0, i);
        i := i + 1;
      }
      processed := i;
    }

    /** The bullet loop of a tick at time `now`: with no enemy it stops at
        once, otherwise the bullets present are handled by `Volley`.
        `processed` is how many bullets were handled, `starts` where the
        bullets stood and `flights` where one update takes each of them. */
    method ResolveBullets(now: int, dt: real)
        returns (ghost processed: nat, ghost starts: seq<Flight>, ghost flights: seq<Flight>)
      requires Valid()
      modifies this, player, enemy, set b | b in bullets
      ensures Valid()
      ensures |starts| == |old(bullets)|
      ensures forall j :: 0 <= j < |old(bullets)| ==>
        starts[j] == old(Where(bullets[j]))
      ensures flights == FlightsFrom(old(bullets), starts, dt)
      ensures processed <= |old(bullets)|
      ensures processed < |old(bullets)| ==> enemy == null
      ensures forall j :: 0 <= j < processed ==>
        Where(old(bullets)[j]) == flights[j]
      ensures forall j :: processed <= j < |old(bullets)| ==>
        Where(old(bullets)[j]) == starts[j]
      ensures old(enemy) == null ==>
        processed == 0 && enemy == null && bullets == old(bullets) &&
        player.killCount == old(player.killCount) && newEnemyDelay == old(newEnemyDelay)
      ensures old(enemy) != null ==>
        old(enemy).health >= 0 &&
        (Hits(flights, processed, old(enemy.entity.rect)) == old(enemy.health) ==>
           1 <= processed && flights[processed - 1].rect.Colliding(old(enemy.entity.rect))) &&
        Observed(old(enemy)) == AfterBullets(old(bullets), flights, processed, bgRect, old(enemy.entity.rect),
                                             old(enemy), old(enemy.health), old(player.killCount), old(newEnemyDelay), now)
      ensures old(enemy) != null ==> old(enemy).plan == old(enemy.plan)
      ensures ammos == old(ammos) && bulletCooldown == old(bulletCooldown) && ammoDelay == old(ammoDelay)
      ensures player.ammo == old(player.ammo) && player.moved == old(player.moved)
      ensures player.flipped == old(player.flipped)
    {
      // The postconditions follow from the calls' contracts alone.
      hide Valid;
      hide AfterBullets;
      hide Hits;
      hide Unspent;
      hide FlightsFrom;
      if enemy == null {
        var snapshot := bullets;
        starts := StartsOf(snapshot);
        flights := FlightsFrom(snapshot, starts, dt);
        return 0, starts, flights;
      }
      processed, starts, flights := Engage(now, dt);
    }

    /** The bullet loop of a tick with an enemy present: the bullets present
        are handled by `Volley`; the enemy's health never drops below zero. */
    method Engage(now: int, dt: real)
        returns (ghost processed: nat, ghost starts: seq<Flight>, ghost flights: seq<Flight>)
      requires Valid() && enemy != null
      modifies this, player, enemy, set b | b in bullets
      ensures Valid()
      ensures |starts| == |old(bullets)|
      ensures forall j :: 0 <= j < |old(bullets)| ==>
        starts[j] == old(Where(bullets[j]))
      ensures flights == FlightsFrom(old(bullets), starts, dt)
      ensures processed <= |old(bullets)|
      ensures processed < |old(bullets)| ==> enemy == null
      ensures forall j :: 0 <= j < processed ==>
        Where(old(bullets)[j]) == flights[j]
      ensures forall j :: processed <= j < |old(bullets)| ==>
        Where(old(bullets)[j]) == starts[j]
      ensures old(enemy) != null ==>
        old(enemy).health >= 0 &&
        (Hits(flights, processed, old(enemy.entity.rect)) == old(enemy.health) ==>
           1 <= processed && flights[processed - 1].rect.Colliding(old(enemy.entity.rect))) &&
        Observed(old(enemy)) == AfterBullets(old(bullets), flights, processed, bgRect, old(enemy.entity.rect),
                                             old(enemy), old(enemy.health), old(player.killCount), old(newEnemyDelay), now)
      ensures old(enemy).plan == old(enemy.plan)
      ensures ammos == old(ammos) && bulletCooldown == old(bulletCooldown) && ammoDelay == old(ammoDelay)
      ensures player.ammo == old(player.ammo) && player.moved == old(player.moved)
      ensures player.flipped == old(player.flipped)
    {
      var snapshot := bullets;
      starts := StartsOf(snapshot);
      flights := FlightsFrom(snapshot, starts, dt);
      ghost var e0: Enemy := enemy;
      ghost var target := e0.entity.rect;
      ghost var health0, kills0, delay0 := e0.health, player.killCount, newEnemyDelay;
      SuffixWhole(snapshot);
      assert Observed(e0) == AfterBullets(snapshot, flights, 0, bgRect, target, e0, health0, kills0, delay0, now);
      processed := Volley(now, dt, snapshot, starts, flights, e0, target, health0, kills0, delay0);
      UnspentDistinct(snapshot, flights, processed, bgRect, target);
    }

    /** The ammunition timer of a tick: once `interval` milliseconds have
        passed since the last attempt, a pickup is spawned at `pos` (if fewer
        than four lie in the arena) and the timer restarts at `now`. */
    method AmmoTimer(now: int, interval: int, pos: Vec)
      requires Valid()
      modifies this
      ensures Valid()
      ensures var due := now - old(ammoDelay) >= interval;
        ammoDelay == (if due then now else old(ammoDelay)) &&
        (due && |old(ammos)| < MaxPickups ==>
           |ammos| == |old(ammos)| + 1 && ammos[..|old(ammos)|] == old(ammos) &&
           fresh(ammos[|old(ammos)|]) && ammos[|old(ammos)|].position == pos) &&
        (!due || |old(ammos)| >= MaxPickups ==> ammos == old(ammos))
      ensures enemy == old(enemy) && bullets == old(bullets) && bulletCooldown == old(bulletCooldown)
      ensures newEnemyDelay == old(newEnemyDelay) && spawnNewEnemy == old(spawnNewEnemy)
    {
      if now - ammoDelay >= interval {
        SpawnAmmo(pos);
        ammoDelay := now;
      }
    }

    /** The fire step of a tick: with the button pressed and ammunition left
        the rifle shoots along `direction`; with none left only the empty-gun
        sound plays and nothing changes. `fired` is whether a bullet left. */
    method Trigger(now: int, pressed: bool, direction: Vec) returns (ghost fired: bool)
      requires Valid()
      modifies this, player
      ensures Valid()
      ensures fired <==> pressed && old(player.ammo) >= 1 && now - old(bulletCooldown) >= ShotCooldown
      ensures fired ==>
        player.ammo == old(player.ammo) - 1 && bulletCooldown == now &&
        |bullets| == |old(bullets)| + 1 && bullets[..|old(bullets)|] == old(bullets) &&
        var b := bullets[|old(bullets)|];
        fresh(b) && b.direction == direction && b.baseSpeed == BulletSpeed &&
        b.position == player.entity.position && b.rect == RectAround(bulletWidth, bulletHeight, player.entity.position)
      ensures !fired ==>
        player.ammo == old(player.ammo) && bulletCooldown == old(bulletCooldown) && bullets == old(bullets)
      ensures enemy == old(enemy) && ammos == old(ammos) && ammoDelay == old(ammoDelay)
      ensures newEnemyDelay == old(newEnemyDelay) && spawnNewEnemy == old(spawnNewEnemy)
      ensures player.killCount == old(player.killCount) && player.moved == old(player.moved)
      ensures player.flipped == old(player.flipped)
    {
      fired := false;
      if pressed && player.ammo >= 1 {
        fired := now - bulletCooldown >= ShotCooldown;
        Shoot(now, direction);
      }
    }

    /** The respawn step of a tick: while a respawn is pending and `draw`
        milliseconds (the revision's `random.randint`) have passed since the
        kill, a new enemy appears at `pos`. */
    method Respawn(now: int, draw: int, pos: Vec)
      requires Valid()
      modifies this
      ensures Valid()
      ensures var due := old(spawnNewEnemy) && now - old(newEnemyDelay) >= draw;
        (due ==>
           fresh(enemy) && fresh(enemy.entity) && enemy.health == enemy.maxHealth == 4 &&
           enemy.entity.position == pos && enemy.entity.velocity == Zero && enemy.grid == respawnGrid &&
           enemy.plan == None && !spawnNewEnemy) &&
        (!due ==> enemy == old(enemy) && spawnNewEnemy == old(spawnNewEnemy))
      ensures bullets == old(bullets) && ammos == old(ammos) && bulletCooldown == old(bulletCooldown)
      ensures ammoDelay == old(ammoDelay) && newEnemyDelay == old(newEnemyDelay)
    {
      if spawnNewEnemy && now - newEnemyDelay >= draw {
        SpawnEnemy(pos);
      }
    }

    /** The supply steps of a tick, in this order: the ammunition timer
        (every `ammoInterval` milliseconds), the pickup loop and the fire
        step. The pickups offered are the old ones, with the new one at
        `t.ammoPos` at the end when the timer was due and fewer than four lay
        about; those the player touches give their rounds; a shot leaves
        exactly when the button is pressed, the 170 milliseconds since the
        last shot have passed and a round is left after the pickups. */
    method Resupply(t: Tick, ammoInterval: int) returns (ghost offered: seq<Pickup>, ghost fired: bool)
      requires Valid()
      modifies this, player
      ensures Valid()
      ensures offered == old(ammos) || (|offered| == |old(ammos)| + 1 && offered[..|old(ammos)|] == old(ammos))
      ensures |offered| == |old(ammos)| + 1 <==> t.now - old(ammoDelay) >= ammoInterval && |old(ammos)| < MaxPickups
      ensures |offered| == |old(ammos)| + 1 ==> offered[|old(ammos)|].position == t.ammoPos
      ensures ammos == Uncollected(offered, |offered|, player.entity.rect)
      ensures player.ammo == old(player.ammo) + PickupRounds * |Collected(offered, |offered|, player.entity.rect)| -
                             (if fired then 1 else 0)
      ensures fired <==> t.fire && t.now - old(bulletCooldown) >= ShotCooldown &&
                         old(player.ammo) + PickupRounds * |Collected(offered, |offered|, player.entity.rect)| >= 1
      ensures ammoDelay == (if t.now - old(ammoDelay) >= ammoInterval then t.now else old(ammoDelay))
      ensures bulletCooldown == (if fired then t.now else old(bulletCooldown))
      ensures fired ==>
        |bullets| == |old(bullets)| + 1 && bullets[..|old(bullets)|] == old(bullets) &&
        var b := bullets[|old(bullets)|];
        fresh(b) && b.direction == t.direction && b.baseSpeed == BulletSpeed &&
        b.position == player.entity.position && b.rect == RectAround(bulletWidth, bulletHeight, player.entity.position)
      ensures !fired ==> bullets == old(bullets)
      ensures enemy == old(enemy) && newEnemyDelay == old(newEnemyDelay) && spawnNewEnemy == old(spawnNewEnemy)
      ensures player.killCount == old(player.killCount)
      ensures player.moved == old(player.moved) && player.flipped == old(player.flipped)
    {
      AmmoTimer(t.now, ammoInterval, t.ammoPos);
      offered := ammos;
      CollectPickups();
      fired := Trigger(t.now, t.fire, t.direction);
    }

    /** The fighting steps of a tick, in this order: the bullet loop and the
        respawn step. `flights` are where one update takes each bullet of
        the group, and `processed` is how many of them the loop handled; it
        stops early only once the enemy is gone. The enemy present when the
        loop starts loses one health point per handled flight that overlaps
        its rect, and it keeps its slot unless that took its last point. A
        kill is counted and the respawn timer restarts at `t.now` exactly
        then; a new enemy, standing still and with no path, appears exactly
        when none was present and the drawn delay has passed; the enemy's
        path is untouched. */
    method Fight(t: Tick, dt: real) returns (ghost processed: nat, ghost flights: seq<Flight>)
      requires Valid() && t.respawnAfter >= 1
      modifies this, player, enemy, set b | b in bullets
      ensures Valid()
      ensures |flights| == |old(bullets)| && processed <= |flights|
      ensures forall j :: 0 <= j < |old(bullets)| ==> flights[j] == old(FlightOf(bullets[j], dt))
      ensures processed < |flights| ==> old(enemy) == null || old(enemy).health == 0
      ensures old(enemy) != null ==>
        old(enemy).health == old(enemy.health) - Hits(flights, processed, old(enemy.entity.rect)) &&
        enemy == (if old(enemy).health == 0 then null else old(enemy))
      ensures ammos == old(ammos) && ammoDelay == old(ammoDelay) && bulletCooldown == old(bulletCooldown)
      ensures player.ammo == old(player.ammo)
      ensures old(enemy) != null ==>
        player.killCount == old(player.killCount) + (if old(enemy).health == 0 then 1 else 0)
      ensures old(enemy) == null ==> player.killCount == old(player.killCount)
      ensures newEnemyDelay == (if old(enemy) != null && old(enemy).health == 0 then t.now else old(newEnemyDelay))
      ensures (enemy != null && enemy != old(enemy)) <==>
        old(enemy) == null && t.now - old(newEnemyDelay) >= t.respawnAfter
      ensures enemy != null && enemy != old(enemy) ==>
        fresh(enemy) && fresh(enemy.entity) && enemy.entity.velocity == Zero && enemy.plan == None
      ensures enemy != null && enemy == old(enemy) ==> enemy.plan == old(enemy.plan)
      ensures player.moved == old(player.moved) && player.flipped == old(player.flipped)
    {
      ghost var snapshot := bullets;
      ghost var starts;
      processed, starts, flights := ResolveBullets(t.now, dt);
      FlightsFromAll(snapshot, starts, dt);
      Respawn(t.now, t.respawnAfter, t.enemyPos);
    }

    /** Where one update with frame time `dt` takes a bullet just fired
        from `pos` along `direction`. */
    function ShotFlight(pos: Vec, direction: Vec, dt: real): Flight {
      FlightFrom(pos, RectAround(bulletWidth, bulletHeight, pos), direction, BulletSpeed, dt)
    }

    /** The combat part of a tick, shared by both revisions: `Resupply`
        and then `Fight`. The bullet loop walks the old bullets and the one
        just fired, if any, along `flights`. */
    method Skirmish(t: Tick, dt: real, ammoInterval: int)
      returns (ghost offered: seq<Pickup>, ghost fired: bool, ghost processed: nat, ghost flights: seq<Flight>)
      requires Valid() && t.respawnAfter >= 1
      modifies this, player, enemy, set b | b in bullets
      ensures Valid()
      ensures |flights| == |old(bullets)| + (if fired then 1 else 0) && processed <= |flights|
      ensures forall j :: 0 <= j < |old(bullets)| ==> flights[j] == old(FlightOf(bullets[j], dt))
      ensures fired ==> flights[|old(bullets)|] == ShotFlight(old(player.entity.position), t.direction, dt)
      ensures processed < |flights| ==> old(enemy) == null || old(enemy).health == 0
      ensures old(enemy) != null ==>
        old(enemy).health == old(enemy.health) - Hits(flights, processed, old(enemy.entity.rect)) &&
        enemy == (if old(enemy).health == 0 then null else old(enemy))
      ensures offered == old(ammos) || (|offered| == |old(ammos)| + 1 && offered[..|old(ammos)|] == old(ammos))
      ensures |offered| == |old(ammos)| + 1 <==> t.now - old(ammoDelay) >= ammoInterval && |old(ammos)| < MaxPickups
      ensures |offered| == |old(ammos)| + 1 ==> offered[|old(ammos)|].position == t.ammoPos
      ensures ammos == Uncollected(offered, |offered|, player.entity.rect)
      ensures player.ammo == old(player.ammo) + PickupRounds * |Collected(offered, |offered|, player.entity.rect)| -
                             (if fired then 1 else 0)
      ensures fired <==> t.fire && t.now - old(bulletCooldown) >= ShotCooldown &&
                         old(player.ammo) + PickupRounds * |Collected(offered, |offered|, player.entity.rect)| >= 1
      ensures ammoDelay == (if t.now - old(ammoDelay) >= ammoInterval then t.now else old(ammoDelay))
      ensures bulletCooldown == (if fired then t.now else old(bulletCooldown))
      ensures old(enemy) != null ==>
        player.killCount == old(player.killCount) + (if old(enemy).health == 0 then 1 else 0)
      ensures old(enemy) == null ==> player.killCount == old(player.killCount)
      ensures newEnemyDelay == (if old(enemy) != null && old(enemy).health == 0 then t.now else old(newEnemyDelay))
      ensures (enemy != null && enemy != old(enemy)) <==>
        old(enemy) == null && t.now - old(newEnemyDelay) >= t.respawnAfter
      ensures enemy != null && enemy != old(enemy) ==>
        fresh(enemy) && fresh(enemy.entity) && enemy.entity.velocity == Zero && enemy.plan == None
      ensures enemy != null && enemy == old(enemy) ==> enemy.plan == old(enemy.plan)
      ensures player.moved == old(player.moved) && player.flipped == old(player.flipped)
    {
      // The postconditions follow from the two calls' contracts alone.
      hide Valid;
      hide Collected;
      hide Uncollected;
      hide Hits;
      hide FlightFrom;
      offered, fired := Resupply(t, ammoInterval);
      processed, flights := Fight(t, dt);
    }

    /** `player.update(dt, bg_rect)` and `rifle.update(player.position)`:
        the player moves by `keys` and the rifle follows it and turns to
        `aim`. */
    method Walk(dt: real, keys: Keys, unit: Vec, aim: int, sizeOf: GunImage -> (nat, nat))
      requires Wired() && -180 <= aim <= 180
      requires player.entity.velocity.LengthSq() >= 1.0 ==> IsUnitAlong(unit, player.entity.velocity)
      modifies player, player.entity, rifle
      ensures Wired() && rifle.angle == NormalizeAngle(aim)
      ensures var e := player.entity; e.anim == old(e.anim).Ticked(e.frames, e.frameDelay, dt)
      ensures player.ammo == old(player.ammo) && player.killCount == old(player.killCount)
      ensures player.flipped == old(player.flipped)
    {
      player.Update(dt, bgRect, keys, unit);
      rifle.Update(player.entity.position, aim, sizeOf);
    }

    /** `enemy.update(dt, bg_rect, player, chase_distance)`: the enemy moves
        and plans its path toward the player; its health is untouched. */
    method Pursue(dt: real, chaseDistance: real, unit: Vec, roamDest: Vec, astar: (Cell, Cell) -> seq<Cell>)
      requires Wired() && enemy != null
      requires enemy.entity.velocity.LengthSq() >= 1.0 ==> IsUnitAlong(unit, enemy.entity.velocity)
      modifies enemy, enemy.entity
      ensures Wired() && enemy.health == old(enemy.health)
      ensures var p := Planned(enemy.grid, astar, old(enemy.plan), enemy.entity.position, player.entity.position,
                               chaseDistance, roamDest);
        enemy.plan == Some(Follow(enemy.grid, p, enemy.entity.rect))
    {
      enemy.Update(dt, bgRect, player.entity.position, chaseDistance, unit, roamDest, astar);
    }

    /** The movement part of a tick, shared by both revisions: the player
        moves by `keys`, the rifle follows the player and turns to `aim`, the
        enemy, if any, moves and plans its path toward the player with the
        revision's `chaseDistance`, and the player's animation switches to
        "running" or "idle" as it moved or not. `playerUnit` and `enemyUnit`
        are what `normalize()` returns, `sizeOf` the size of a rotated rifle
        image, `roamDest` the enemy's random roam destination and `astar` the
        path search. */
    method Maneuver(dt: real, keys: Keys, playerUnit: Vec, aim: int, sizeOf: GunImage -> (nat, nat),
                    chaseDistance: real, enemyUnit: Vec, roamDest: Vec, astar: (Cell, Cell) -> seq<Cell>)
      requires Valid() && -180 <= aim <= 180
      requires player.entity.velocity.LengthSq() >= 1.0 ==> IsUnitAlong(playerUnit, player.entity.velocity)
      requires enemy != null && enemy.entity.velocity.LengthSq() >= 1.0 ==> IsUnitAlong(enemyUnit, enemy.entity.velocity)
      modifies player, player.entity, rifle, if enemy != null then {enemy, enemy.entity} else {}
      ensures Valid()
      ensures rifle.angle == NormalizeAngle(aim)
      ensures var e := player.entity;
        e.anim == old(e.anim).Ticked(e.frames, e.frameDelay, dt).Switched(e.frames, e.frameDelay,
                                                                         if player.moved then "running" else "idle")
      ensures enemy != null ==> enemy.health == old(enemy.health)
      ensures enemy != null ==>
        var p := Planned(enemy.grid, astar, old(enemy.plan), enemy.entity.position, player.entity.position,
                         chaseDistance, roamDest);
        enemy.plan == Some(Follow(enemy.grid, p, enemy.entity.rect))
      ensures player.ammo == old(player.ammo) && player.killCount == old(player.killCount)
      ensures player.flipped == old(player.flipped)
    {
      Walk(dt, keys, playerUnit, aim, sizeOf);
      if enemy != null {
        Pursue(dt, chaseDistance, enemyUnit, roamDest, astar);
      }
      player.Pose();
    }

    /** One tick of both revisions after their collision check: the combat
        part (`Skirmish`, with a pickup every `ammoInterval` milliseconds)
        and then the movement part (`Maneuver`, with the revision's
        `chaseDistance`). The pickups offered are the old ones, with the new
        one at the end when the timer was due and there was room; those the
        player stood on are gone and have given their rounds; a shot leaves
        under the fire rule of `Resupply` and costs one round; a kill is
        counted and the respawn timer restarted exactly when the bullets took
        the last health point of the enemy present; a new enemy appears
        exactly when none was present and the drawn delay has passed; and
        the enemy present at the end has planned its path from the one it
        had (none, if it is new). The bullet loop walks the old bullets and
        the one just fired along `flights`, as `Skirmish` says: the enemy
        present loses one point per handled flight that overlaps it and
        keeps its slot unless that took its last point. */
    method Round(t: Tick, dt: real, ammoInterval: int, keys: Keys, playerUnit: Vec, aim: int,
                 sizeOf: GunImage -> (nat, nat), chaseDistance: real, enemyUnit: Vec, roamDest: Vec,
                 astar: (Cell, Cell) -> seq<Cell>)
      returns (ghost offered: seq<Pickup>, ghost fired: bool, ghost processed: nat, ghost flights: seq<Flight>)
      requires Valid() && t.respawnAfter >= 1 && -180 <= aim <= 180
      requires player.entity.velocity.LengthSq() >= 1.0 ==> IsUnitAlong(playerUnit, player.entity.velocity)
      requires enemy != null && enemy.entity.velocity.LengthSq() >= 1.0 ==> IsUnitAlong(enemyUnit, enemy.entity.velocity)
      modifies this, player, player.entity, rifle, enemy, if enemy != null then {enemy.entity} else {},
               set b | b in bullets
      ensures Valid()
      ensures |flights| == |old(bullets)| + (if fired then 1 else 0) && processed <= |flights|
      ensures forall j :: 0 <= j < |old(bullets)| ==> flights[j] == old(FlightOf(bullets[j], dt))
      ensures fired ==> flights[|old(bullets)|] == ShotFlight(old(player.entity.position), t.direction, dt)
      ensures processed < |flights| ==> old(enemy) == null || old(enemy).health == 0
      ensures old(enemy) != null ==>
        old(enemy).health == old(enemy.health) - Hits(flights, processed, old(enemy.entity.rect)) &&
        enemy == (if old(enemy).health == 0 then null else old(enemy))
      ensures offered == old(ammos) || (|offered| == |old(ammos)| + 1 && offered[..|old(ammos)|] == old(ammos))
      ensures |offered| == |old(ammos)| + 1 <==> t.now - old(ammoDelay) >= ammoInterval && |old(ammos)| < MaxPickups
      ensures |offered| == |old(ammos)| + 1 ==> offered[|old(ammos)|].position == t.ammoPos
      ensures ammos == Uncollected(offered, |offered|, old(player.entity.rect))
      ensures player.ammo == old(player.ammo) - (if fired then 1 else 0) +
                             PickupRounds * |Collected(offered, |offered|, old(player.entity.rect))|
      ensures fired <==> t.fire && t.now - old(bulletCooldown) >= ShotCooldown &&
                         old(player.ammo) + PickupRounds * |Collected(offered, |offered|, old(player.entity.rect))| >= 1
      ensures ammoDelay == (if t.now - old(ammoDelay) >= ammoInterval then t.now else old(ammoDelay))
      ensures bulletCooldown == (if fired then t.now else old(bulletCooldown))
      ensures old(enemy) != null ==>
        player.killCount == old(player.killCount) + (if old(enemy).health == 0 then 1 else 0)
      ensures old(enemy) == null ==> player.killCount == old(player.killCount)
      ensures newEnemyDelay == (if old(enemy) != null && old(enemy).health == 0 then t.now else old(newEnemyDelay))
      ensures (enemy != null && enemy != old(enemy)) <==>
        old(enemy) == null && t.now - old(newEnemyDelay) >= t.respawnAfter
      ensures enemy != null ==>
        var start := if old(enemy) != null && enemy == old(enemy) then old(enemy.plan) else None;
        var p := Planned(enemy.grid, astar, start, enemy.entity.position, player.entity.position,
                         chaseDistance, roamDest);
        enemy.plan == Some(Follow(enemy.grid, p, enemy.entity.rect))
      ensures rifle.angle == NormalizeAngle(aim) && player.flipped == old(player.flipped)
    {
      // The postconditions follow from the two calls' contracts alone.
      hide Valid;
      hide Collected;
      hide Uncollected;
      hide Planned;
      hide Follow;
      hide Hits;
      hide FlightOf;
      hide ShotFlight;
      hide FlightFrom;
      offered, fired, processed, flights := Skirmish(t, dt, ammoInterval);
      ghost var spawned: Pickup? := if |offered| == |old(ammos)| + 1 then offered[|old(ammos)|] else null;
      Maneuver(dt, keys, playerUnit, aim, sizeOf, chaseDistance, enemyUnit, roamDest, astar);
      assert spawned != null ==> spawned.position == t.ammoPos;
    }

    /** `player.set_flipped(left)`: only the flag changes. */
    method Face(left: bool)
      requires Valid()
      modifies player
      ensures Valid() && player.flipped == left
      ensures player.ammo == old(player.ammo) && player.killCount == old(player.killCount)
      ensures player.moved == old(player.moved)
    {
      player.flipped := left;
    }
  }

  /** The part of both constructors that builds the sprites: the player at
      `centre` with the animations `frames` (starting "idle") and the
      revision's speed and frame delay, the rifle at the centre of the
      player's rect, and the arena around them with the first enemy at
      `enemyPos`. */
  method Assemble(grid: Grid, respawnGrid: Grid, bgRect: Rect, centre: Vec, frames: map<string, nat>,
                  playerWidth: nat, playerHeight: nat, playerSpeed: real, frameDelay: real,
                  rifleWidth: nat, rifleHeight: nat, enemyPos: Vec, enemySpeed: real,
                  enemyWidth: nat, enemyHeight: nat, ammoWidth: nat, ammoHeight: nat,
                  bulletWidth: nat, bulletHeight: nat, now: int)
    returns (a: Arena)
    requires grid.Valid() && respawnGrid.Valid() && "idle" in frames && forall s :: s in frames ==> frames[s] > 0
    ensures a.Valid() && fresh(a) && fresh(a.player) && fresh(a.player.entity) && fresh(a.rifle)
    ensures a.grid == grid && a.respawnGrid == respawnGrid && a.bgRect == bgRect && a.enemySpeed == enemySpeed
    ensures a.ammoWidth == ammoWidth && a.ammoHeight == ammoHeight
    ensures var p := a.player;
      p.entity.position == centre && p.entity.baseSpeed == playerSpeed &&
      p.entity.frameDelay == frameDelay && p.entity.anim.state == "idle" &&
      p.ammo == 24 && p.killCount == 0 && !p.flipped
    ensures a.rifle.position == Vec(a.player.entity.rect.CenterX() as real, a.player.entity.rect.CenterY() as real)
    ensures a.enemy != null && a.enemy.entity.position == enemyPos && a.enemy.health == 4
    ensures a.enemy.entity.baseSpeed == enemySpeed && a.enemy.grid == grid
    ensures a.AllSprites() == {a.player, a.rifle, a.enemy} && a.bullets == [] && a.ammos == []
    ensures a.bulletCooldown == now && a.ammoDelay == now && a.newEnemyDelay == now
  {
    var player := new Player(centre, frames, "idle", playerWidth, playerHeight, playerSpeed, grid, frameDelay);
    var rect := player.entity.rect;
    var rifle := new Gun(rifleWidth, rifleHeight, Vec(rect.CenterX() as real, rect.CenterY() as real));
    a := new Arena(grid, respawnGrid, bgRect, player, rifle, enemyPos, enemySpeed,
                   enemyWidth, enemyHeight, ammoWidth, ammoHeight, bulletWidth, bulletHeight, now);
  }

  // ---------------------------------------------------------------------
  // all_sprites as the union of its parts
  // ---------------------------------------------------------------------

  /** `all_sprites.add(bullet)` in `shoot` adds exactly the new bullet. */
  lemma SpriteSetAddBullet(player: Player, rifle: Gun, enemy: Enemy?, bullets: seq<Bullet>, ammos: seq<Pickup>, b: Bullet)
    ensures SpriteSet(player, rifle, enemy, bullets + [b], ammos) == SpriteSet(player, rifle, enemy, bullets, ammos) + {b as object}
  {
    assert (set c | c in bullets + [b]) == (set c | c in bullets) + {b};
  }

  /** `all_sprites.add(ammo)` in `spawn_ammo` adds exactly the new pickup. */
  lemma SpriteSetAddPickup(player: Player, rifle: Gun, enemy: Enemy?, bullets: seq<Bullet>, ammos: seq<Pickup>, p: Pickup)
    ensures SpriteSet(player, rifle, enemy, bullets, ammos + [p]) == SpriteSet(player, rifle, enemy, bullets, ammos) + {p as object}
  {
    assert (set c | c in ammos + [p]) == (set c | c in ammos) + {p};
  }

  /** `bullet.kill()` takes exactly that bullet out of `all_sprites`. */
  lemma SpriteSetRemoveBullet(player: Player, rifle: Gun, enemy: Enemy?, bullets: seq<Bullet>, ammos: seq<Pickup>, b: Bullet)
    ensures SpriteSet(player, rifle, enemy, Without(bullets, b), ammos) == SpriteSet(player, rifle, enemy, bullets, ammos) - {b as object}
  {
    MembersWithout(bullets, b);
  }

  /** `ammo.kill()` takes exactly that pickup out of `all_sprites`. */
  lemma SpriteSetRemovePickup(player: Player, rifle: Gun, enemy: Enemy?, bullets: seq<Bullet>, ammos: seq<Pickup>, p: Pickup)
    ensures SpriteSet(player, rifle, enemy, bullets, Without(ammos, p)) == SpriteSet(player, rifle, enemy, bullets, ammos) - {p as object}
  {
    MembersWithout(ammos, p);
  }

  /** `enemy.kill()` in `manage_hit` takes exactly the enemy out. */
  lemma SpriteSetRemoveEnemy(player: Player, rifle: Gun, enemy: Enemy, bullets: seq<Bullet>, ammos: seq<Pickup>)
    ensures SpriteSet(player, rifle, null, bullets, ammos) == SpriteSet(player, rifle, enemy, bullets, ammos) - {enemy as object}
  {
  }

  /** `all_sprites.add(enemy)` in `spawn_enemy` adds exactly the enemy. */
  lemma SpriteSetAddEnemy(player: Player, rifle: Gun, enemy: Enemy, bullets: seq<Bullet>, ammos: seq<Pickup>)
    ensures SpriteSet(player, rifle, enemy, bullets, ammos) == SpriteSet(player, rifle, null, bullets, ammos) + {enemy as object}
  {
  }
}
