/**
 * The dungeon floor of scoundrel-3d.js: rooms, the waypoints that link them,
 * `generateDungeon` (branching growth on a grid of step 4, then the boss,
 * bonfire and merchant rooms) and `insertWaypoints`. The random choices are
 * oracle parameters; the waypoints' fractional positions and a room's
 * rendering `depth` are not part of this model.
 */
module Dungeon {
  import opened Wrappers
  import opened Cards
  import Shuffling

  /** A room's `id`: a number for a real room, `wp_<from>_<to>_a` / `_b` for a waypoint. */
  datatype RoomId = Num(n: nat) | Wp(from: nat, to: nat, second: bool)

  datatype RoomState = Uncleared | Cleared | Avoided

  /**
   * A real room or a corridor waypoint (`isWaypoint`). A waypoint's position
   * is rendering data and is kept as 0 here, as are its `w` and `h`, which the
   * source leaves undefined; `restRemaining` only matters for a bonfire,
   * `generatedContent` only for a merchant.
   */
  datatype Room = Room(id: RoomId, isWaypoint: bool, gx: int, gy: int, w: int, h: int,
                       state: RoomState, cards: seq<Card>, connections: seq<RoomId>,
                       isSpecial: bool, isBonfire: bool, isFinal: bool,
                       restRemaining: int, generatedContent: Option<seq<Card>>)

  /** A corridor waypoint: cleared, empty, never special. */
  function Waypoint(id: RoomId, connections: seq<RoomId>): Room
  {
    Room(id, true, 0, 0, 0, 0, Cleared, [], connections, false, false, false, 0, None)
  }

  const NumRooms: nat := 12

  /** The four grid directions `generateDungeon` tries, before shuffling. */
  const Directions: seq<(int, int)> := [(1, 0), (-1, 0), (0, 1), (0, -1)]

  /** Room 0: the cleared start room at the origin (it has no `restRemaining`; 0 stands for that). */
  const StartRoom: Room := Room(Num(0), false, 0, 0, 1, 1, Cleared, [], [], false, false, false, 0, None)

  /** The draws of one growth step: the frontier pick, the direction shuffle, and the two size coins. */
  datatype Roll = Roll(parent: nat, dirDraw: nat -> nat, wide: bool, tall: bool)

  /** Where real room number `k` sits in the room list: after it come the two waypoints of the next room. */
  function Slot(k: nat): nat { 3 * k }

  function Pos(r: Room): (int, int)
  {
    (r.gx, r.gy)
  }

  function Step(p: (int, int), d: (int, int)): (int, int)
  {
    (p.0 + d.0 * 4, p.1 + d.1 * 4)
  }

  /** `q` is one grid step (four units) from `p` along an axis. */
  predicate Adjacent(p: (int, int), q: (int, int))
  {
    q == Step(p, (1, 0)) || q == Step(p, (-1, 0)) || q == Step(p, (0, 1)) || q == Step(p, (0, -1))
  }

  /** A step in one of the four directions reaches a grid neighbour. */
  lemma StepAdjacent(p: (int, int), d: (int, int))
    requires d in Directions
    ensures Adjacent(p, Step(p, d))
  {
  }

  /** All four grid neighbours of `p` are taken. */
  ghost predicate Enclosed(p: (int, int), occupied: set<(int, int)>)
  {
    forall i | 0 <= i < 4 :: Step(p, Directions[i]) in occupied
  }

  ghost predicate Distinct<T>(s: seq<T>)
  {
    forall i, j | 0 <= i < j < |s| :: s[i] != s[j]
  }

  ghost predicate Increasing(s: seq<nat>)
  {
    forall i, j | 0 <= i < j < |s| :: s[i] < s[j]
  }

  /**
   * Real room `k` hangs off an earlier real room `p` through the waypoint pair
   * `wp_p_k_a`, `wp_p_k_b`: p -> a -> b -> k, each link recorded in `connections`;
   * `k` sits one grid step from `p`.
   */
  ghost predicate Linked(rooms: seq<Room>, k: nat)
    requires 1 <= k && Slot(k) < |rooms|
  {
    var a := rooms[Slot(k) - 2];
    var b := rooms[Slot(k) - 1];
    var r := rooms[Slot(k)];
    && a.id.Wp?
    && var p := a.id.from;
    && p < k
    && a == Waypoint(Wp(p, k, false), [Num(p), Wp(p, k, true)])
    && b == Waypoint(Wp(p, k, true), [Wp(p, k, false), Num(k)])
    && |r.connections| > 0 && r.connections[0] == Wp(p, k, true)
    && Wp(p, k, false) in rooms[Slot(p)].connections
    && Adjacent(Pos(rooms[Slot(p)]), Pos(r))
  }

  /** A grown real room: number `k`, unvisited and empty (its role flags aside). */
  ghost predicate Fresh(r: Room, k: nat)
  {
    && !r.isWaypoint && r.id == Num(k) && r.state == Uncleared && r.cards == []
    && r.restRemaining == 3 && r.generatedContent == None
    && (r.w == 1 || r.w == 2) && (r.h == 1 || r.h == 2)
  }

  /** No room is yet the boss room, the bonfire or a merchant. */
  ghost predicate Plain(rooms: seq<Room>)
  {
    forall i | 0 <= i < |rooms| :: !rooms[i].isSpecial && !rooms[i].isBonfire && !rooms[i].isFinal
  }

  /** The room list after `count` real rooms have been grown. */
  ghost predicate Grown(rooms: seq<Room>, count: nat)
  {
    && count >= 1 && |rooms| == 3 * count - 2
    && rooms[0] == StartRoom.(connections := rooms[0].connections)
    && (forall k | 1 <= k < count :: Fresh(rooms[Slot(k)], k))
    && (forall k | 1 <= k < count :: Linked(rooms, k))
  }

  /**
   * `insertWaypoints(r1, r2, allRooms)`: two waypoints that lead from the room
   * at index `p` to the new room are appended, and each end records its link.
   */
  method InsertWaypoints(rooms: seq<Room>, p: nat, r2: Room) returns (rooms': seq<Room>, r2': Room)
    requires p < |rooms| && rooms[p].id.Num? && r2.id.Num?
    ensures var a := Wp(rooms[p].id.n, r2.id.n, false);
            var b := Wp(rooms[p].id.n, r2.id.n, true);
      && rooms' == rooms[p := rooms[p].(connections := rooms[p].connections + [a])]
                   + [Waypoint(a, [rooms[p].id, b]), Waypoint(b, [a, r2.id])]
      && r2' == r2.(connections := r2.connections + [b])
  {
    var wp1 := Waypoint(Wp(rooms[p].id.n, r2.id.n, false), [rooms[p].id]);
    var wp2 := Waypoint(Wp(rooms[p].id.n, r2.id.n, true), [wp1.id, r2.id]);
    wp1 := wp1.(connections := wp1.connections + [wp2.id]);
    assert wp1 == Waypoint(Wp(rooms[p].id.n, r2.id.n, false), [rooms[p].id, wp2.id]);
    rooms' := rooms[p := rooms[p].(connections := rooms[p].connections + [wp1.id])];
    r2' := r2.(connections := r2.connections + [wp2.id]);
    rooms' := rooms' + [wp1, wp2];
  }

  /** Index of a position with the largest x. */
  function EastmostIndex(ps: seq<(int, int)>): (k: nat)
    requires |ps| > 0
    ensures k < |ps| && forall i | 0 <= i < |ps| :: ps[i].0 <= ps[k].0
  {
    if |ps| == 1 then 0
    else
      var k := EastmostIndex(ps[..|ps| - 1]);
      if ps[|ps| - 1].0 > ps[k].0 then |ps| - 1 else k
  }

  /** Among finitely many grid positions, one always has a free neighbour (to the east of the eastmost). */
  lemma SomeNeighbourFree(ps: seq<(int, int)>, occupied: set<(int, int)>)
    requires |ps| > 0
    requires forall q :: q in occupied <==> q in ps
    ensures exists k :: 0 <= k < |ps| && !Enclosed(ps[k], occupied)
  {
    var k := EastmostIndex(ps);
    assert Step(ps[k], Directions[0]) !in occupied;
  }

  /** Index of the first direction in `dirs[from..]` whose neighbour of `p` is free, or 4. */
  method FirstFree(p: (int, int), dirs: array<(int, int)>, occupied: set<(int, int)>) returns (d: nat)
    requires dirs.Length == 4
    ensures d <= 4
    ensures forall e | 0 <= e < d :: Step(p, dirs[e]) in occupied
    ensures d < 4 ==> Step(p, dirs[d]) !in occupied
  {
    d := 0;
    while d < 4 && Step(p, dirs[d]) in occupied
      invariant d <= 4
      invariant forall e | 0 <= e < d :: Step(p, dirs[e]) in occupied
    {
      d := d + 1;
    }
  }

  /** A shuffled copy of `Directions` still holds every direction. */
  lemma ShuffledDirections(dirs: seq<(int, int)>)
    requires multiset(dirs) == multiset(Directions)
    ensures forall i | 0 <= i < 4 :: Directions[i] in dirs
  {
    forall i | 0 <= i < 4 ensures Directions[i] in dirs {
      assert Directions[i] in multiset(Directions);
    }
  }

  /** Where the first `count` real rooms sit: distinct points of the step-4 grid. */
  ghost predicate Located(rooms: seq<Room>, positions: seq<(int, int)>, count: nat)
  {
    && |rooms| == 3 * count - 2 && |positions| == count && Distinct(positions)
    && (forall k | 0 <= k < count :: Pos(rooms[Slot(k)]) == positions[k])
    && (forall k | 0 <= k < count :: positions[k].0 % 4 == 0 && positions[k].1 % 4 == 0)
  }

  /** The growth bookkeeping: `occupied` is the set of positions, and a room off the frontier is boxed in. */
  ghost predicate Bookkept(positions: seq<(int, int)>, occupied: set<(int, int)>, frontier: seq<nat>)
  {
    && (forall q :: q in occupied <==> q in positions)
    && (forall i | 0 <= i < |frontier| :: frontier[i] < |positions|)
    && Increasing(frontier)
    && (forall k | 0 <= k < |positions| && k !in frontier :: Enclosed(positions[k], occupied))
  }

  /** What holds between passes of the growth loop. */
  ghost predicate GrowInv(rooms: seq<Room>, positions: seq<(int, int)>, occupied: set<(int, int)>,
                          frontier: seq<nat>, roomCount: nat)
  {
    && 1 <= roomCount <= NumRooms
    && Grown(rooms, roomCount) && Plain(rooms)
    && Located(rooms, positions, roomCount)
    && Bookkept(positions, occupied, frontier)
  }

  /**
   * Step 2 of `generateDungeon`: grow rooms from a random frontier room in a
   * random free direction until there are twelve; a frontier room with no free
   * direction leaves the frontier. `rolls(i)` are the draws of the i-th pass.
   */
  method Grow(rolls: nat -> Roll) returns (rooms: seq<Room>, ghost positions: seq<(int, int)>)
    ensures Grown(rooms, NumRooms) && Plain(rooms)
    ensures |positions| == NumRooms && Distinct(positions)
    ensures forall k | 0 <= k < NumRooms :: Pos(rooms[Slot(k)]) == positions[k]
    ensures forall k | 0 <= k < NumRooms :: positions[k].0 % 4 == 0 && positions[k].1 % 4 == 0
  {
    rooms := [StartRoom];
    var occupied: set<(int, int)> := {(0, 0)};
    var frontier: seq<nat> := [0];
    var roomCount: nat := 1;
    positions := [(0, 0)];
    var pass: nat := 0;
    while roomCount < NumRooms && |frontier| > 0
      invariant GrowInv(rooms, positions, occupied, frontier, roomCount)
      decreases NumRooms - roomCount, |frontier|
    {
      rooms, positions, occupied, frontier, roomCount := GrowPass(rooms, positions, occupied, frontier, roomCount, rolls(pass));
      pass := pass + 1;
    }
    if roomCount < NumRooms {
      SomeNeighbourFree(positions, occupied);
    }
  }

  /** One pass of the growth loop, with the draws `roll`. */
  method GrowPass(rooms: seq<Room>, ghost positions: seq<(int, int)>, occupied: set<(int, int)>,
                  frontier: seq<nat>, roomCount: nat, roll: Roll)
    returns (rooms': seq<Room>, ghost positions': seq<(int, int)>, occupied': set<(int, int)>,
             frontier': seq<nat>, roomCount': nat)
    requires GrowInv(rooms, positions, occupied, frontier, roomCount)
    requires roomCount < NumRooms && |frontier| > 0
    ensures GrowInv(rooms', positions', occupied', frontier', roomCount')
    ensures roomCount' == roomCount + 1 || (roomCount' == roomCount && |frontier'| < |frontier|)
    ensures var fi := roll.parent % |frontier|;
            var parent := frontier[fi];
      roomCount' == roomCount + 1 ==>
        && |rooms'| == |rooms| + 3 && frontier' == frontier + [roomCount]
        && rooms'[Slot(roomCount) - 2].id == Wp(parent, roomCount, false)
        && Adjacent(Pos(rooms[Slot(parent)]), Pos(rooms'[Slot(roomCount)]))
        && occupied' == occupied + {Pos(rooms'[Slot(roomCount)])}
    ensures var fi := roll.parent % |frontier|;
            var parent := frontier[fi];
      roomCount' == roomCount ==>
        && rooms' == rooms && occupied' == occupied && frontier' == frontier[..fi] + frontier[fi + 1..]
        && Enclosed(Pos(rooms[Slot(parent)]), occupied)
  {
    var fi := roll.parent % |frontier|;
    var parent := frontier[fi];
    assert parent in frontier;
    var here := Pos(rooms[Slot(parent)]);
    assert here == positions[parent];
    var found, dir := PickDirection(here, occupied, roll.dirDraw);
    if found {
      rooms', positions' := AddRoom(rooms, positions, occupied, frontier, roomCount, parent, dir, Step(here, dir), roll);
      occupied' := occupied + {Step(here, dir)};
      frontier' := frontier + [roomCount];
      roomCount' := roomCount + 1;
    } else {
      BookkeptRemove(positions, occupied, frontier, fi);
      rooms', positions', occupied', roomCount' := rooms, positions, occupied, roomCount;
      frontier' := frontier[..fi] + frontier[fi + 1..];
    }
  }

  /**
   * The directions are shuffled with `dirDraw` and the first one leading to a
   * free neighbour of `here` is taken; none is found only when `here` is boxed in.
   */
  method PickDirection(here: (int, int), occupied: set<(int, int)>, dirDraw: nat -> nat)
    returns (found: bool, dir: (int, int))
    ensures found ==> dir in Directions && Step(here, dir) !in occupied
    ensures !found ==> Enclosed(here, occupied)
  {
    var dirs := new (int, int)[4](i requires 0 <= i < 4 => Directions[i]);
    assert dirs[..] == Directions;
    Shuffling.Shuffle(dirs, dirDraw);
    var d := FirstFree(here, dirs, occupied);
    found := d < 4;
    if found {
      dir := dirs[d];
      assert dir in multiset(dirs[..]);
    } else {
      dir := (0, 0);
      ShuffledDirections(dirs[..]);
    }
  }

  /**
   * The body of the `for (const d of dirs)` loop once a free neighbour `next`
   * of the parent is found: the new room, its waypoints, and the bookkeeping.
   */
  method AddRoom(rooms: seq<Room>, ghost positions: seq<(int, int)>, occupied: set<(int, int)>,
                 frontier: seq<nat>, roomCount: nat, parent: nat, dir: (int, int), next: (int, int), roll: Roll)
    returns (rooms': seq<Room>, ghost positions': seq<(int, int)>)
    requires GrowInv(rooms, positions, occupied, frontier, roomCount) && roomCount < NumRooms
    requires parent in frontier
    requires dir in Directions && next == Step(positions[parent], dir)
    requires next !in occupied
    ensures var a := Wp(parent, roomCount, false);
            var b := Wp(parent, roomCount, true);
      && |rooms'| == |rooms| + 3
      && rooms'[..|rooms|] == rooms[Slot(parent) := rooms[Slot(parent)].(connections := rooms[Slot(parent)].connections + [a])]
      && rooms'[|rooms|] == Waypoint(a, [Num(parent), b])
      && rooms'[|rooms| + 1] == Waypoint(b, [a, Num(roomCount)])
      && rooms'[|rooms| + 2] == Room(Num(roomCount), false, next.0, next.1,
                                     if roll.wide then 2 else 1, if roll.tall then 2 else 1,
                                     Uncleared, [], [b], false, false, false, 3, None)
    ensures Adjacent(Pos(rooms'[Slot(parent)]), Pos(rooms'[Slot(roomCount)]))
    ensures positions' == positions + [next]
    ensures GrowInv(rooms', positions', occupied + {next}, frontier + [roomCount], roomCount + 1)
  {
    var newRoom := Room(Num(roomCount), false, next.0, next.1,
                        if roll.wide then 2 else 1, if roll.tall then 2 else 1,
                        Uncleared, [], [], false, false, false, 3, None);
    assert rooms[Slot(parent)].id == Num(parent) by {
      if parent > 0 { assert Fresh(rooms[Slot(parent)], parent); }
    }
    var withWaypoints;
    withWaypoints, newRoom := InsertWaypoints(rooms, Slot(parent), newRoom);
    rooms' := withWaypoints + [newRoom];
    assert rooms'[..|rooms|] == rooms[Slot(parent) := rooms'[Slot(parent)]];
    StepAdjacent(positions[parent], dir);
    GrowStep(rooms, rooms', roomCount, parent);
    assert next !in positions && next.0 % 4 == 0 && next.1 % 4 == 0;
    LocatedAdd(rooms, rooms', positions, roomCount, parent, next);
    BookkeptAdd(positions, occupied, frontier, next);
    positions' := positions + [next];
  }

  /** The new room at `next` keeps the rooms on distinct grid points. */
  lemma LocatedAdd(before: seq<Room>, after: seq<Room>, positions: seq<(int, int)>, count: nat,
                   parent: nat, next: (int, int))
    requires Located(before, positions, count) && parent < count
    requires next !in positions && next.0 % 4 == 0 && next.1 % 4 == 0
    requires |after| == |before| + 3 && after[..|before|] == before[Slot(parent) := after[Slot(parent)]]
    requires Pos(after[Slot(parent)]) == Pos(before[Slot(parent)]) && Pos(after[|before| + 2]) == next
    ensures Located(after, positions + [next], count + 1)
  {
    var ps := positions + [next];
    forall k | 0 <= k < count + 1 ensures Pos(after[Slot(k)]) == ps[k] {
      if k < count && k != parent {
        assert after[Slot(k)] == before[Slot(k)];
      }
    }
  }

  /** Occupying `next` and putting the new room on the frontier keeps the bookkeeping. */
  lemma BookkeptAdd(positions: seq<(int, int)>, occupied: set<(int, int)>, frontier: seq<nat>, next: (int, int))
    requires Bookkept(positions, occupied, frontier)
    ensures Bookkept(positions + [next], occupied + {next}, frontier + [|positions|])
  {
    var ps := positions + [next];
    var f := frontier + [|positions|];
    forall k | 0 <= k < |ps| && k !in f ensures Enclosed(ps[k], occupied + {next}) {
      assert k != |positions| && k !in frontier;
      assert ps[k] == positions[k];
    }
  }

  /** A boxed-in room leaves the frontier. */
  lemma BookkeptRemove(positions: seq<(int, int)>, occupied: set<(int, int)>, frontier: seq<nat>, fi: nat)
    requires Bookkept(positions, occupied, frontier)
    requires fi < |frontier|
    requires Enclosed(positions[frontier[fi]], occupied)
    ensures Bookkept(positions, occupied, frontier[..fi] + frontier[fi + 1..])
  {
    var f := frontier[..fi] + frontier[fi + 1..];
    forall k | 0 <= k < |positions| && k !in f ensures Enclosed(positions[k], occupied) {
      if k != frontier[fi] {
        assert k !in frontier;
      }
    }
  }

  /** Appending a room grown from `parent` keeps the shape of the room list. */
  lemma GrowStep(before: seq<Room>, after: seq<Room>, count: nat, parent: nat)
    requires Grown(before, count) && Plain(before) && parent < count
    requires var a := Wp(parent, count, false);
             var b := Wp(parent, count, true);
      && |after| == |before| + 3
      && after[..|before|] == before[Slot(parent) := before[Slot(parent)].(connections := before[Slot(parent)].connections + [a])]
      && after[|before|] == Waypoint(a, [Num(parent), b])
      && after[|before| + 1] == Waypoint(b, [a, Num(count)])
      && Fresh(after[|before| + 2], count)
      && after[|before| + 2].connections == [b]
      && !after[|before| + 2].isSpecial && !after[|before| + 2].isBonfire && !after[|before| + 2].isFinal
    requires Adjacent(Pos(before[Slot(parent)]), Pos(after[|before| + 2]))
    ensures Grown(after, count + 1) && Plain(after)
  {
    var a := Wp(parent, count, false);
    var pr := before[Slot(parent)].(connections := before[Slot(parent)].connections + [a]);
    var b := Wp(parent, count, true);
    UpdatedPrefix(before, after, Slot(parent), pr);
    OldRoomsKept(before, after, count, parent, a);
    assert Slot(count) == |before| + 2;
    assert Fresh(after[Slot(count)], count);
    assert Pos(after[Slot(parent)]) == Pos(before[Slot(parent)]);
    NewLinked(after, parent, count);
    PlainAppend(before, after, Slot(parent), pr);
  }

  /** The rooms grown before keep their state and their links when the parent gains a connection. */
  lemma OldRoomsKept(before: seq<Room>, after: seq<Room>, count: nat, parent: nat, a: RoomId)
    requires Grown(before, count) && parent < count && |before| <= |after|
    requires forall i | 0 <= i < |before| ::
      after[i] == if i == Slot(parent) then before[i].(connections := before[i].connections + [a]) else before[i]
    ensures after[0] == StartRoom.(connections := after[0].connections)
    ensures forall k | 1 <= k < count :: Fresh(after[Slot(k)], k) && Linked(after, k)
  {
    forall k | 1 <= k < count ensures Fresh(after[Slot(k)], k) && Linked(after, k) {
      assert Fresh(before[Slot(k)], k);
      LinkedKept(before, after, parent, a, k);
    }
  }

  /** The room just appended hangs off its parent through the two waypoints before it. */
  lemma NewLinked(after: seq<Room>, parent: nat, count: nat)
    requires parent < count && Slot(count) < |after|
    requires var a := Wp(parent, count, false);
             var b := Wp(parent, count, true);
      && after[Slot(count) - 2] == Waypoint(a, [Num(parent), b])
      && after[Slot(count) - 1] == Waypoint(b, [a, Num(count)])
      && after[Slot(count)].connections == [b]
      && a in after[Slot(parent)].connections
    requires Adjacent(Pos(after[Slot(parent)]), Pos(after[Slot(count)]))
    ensures Linked(after, count)
  {
  }

  /** Updating one room's connections and appending plain rooms keeps the list plain. */
  lemma PlainAppend(before: seq<Room>, after: seq<Room>, j: nat, v: Room)
    requires Plain(before) && j < |before| <= |after|
    requires forall i | 0 <= i < |before| :: after[i] == if i == j then v else before[i]
    requires !v.isSpecial && !v.isBonfire && !v.isFinal
    requires forall i | |before| <= i < |after| :: !after[i].isSpecial && !after[i].isBonfire && !after[i].isFinal
    ensures Plain(after)
  {
  }

  /** A prefix equal to an updated sequence, entry by entry. */
  lemma UpdatedPrefix(before: seq<Room>, after: seq<Room>, j: nat, v: Room)
    requires j < |before| <= |after| && after[..|before|] == before[j := v]
    ensures forall i | 0 <= i < |before| :: after[i] == if i == j then v else before[i]
  {
    forall i | 0 <= i < |before| ensures after[i] == if i == j then v else before[i] {
      assert after[i] == after[..|before|][i];
    }
  }

  /** A link between earlier rooms survives when the list grows and the parent gains a connection. */
  lemma LinkedKept(before: seq<Room>, after: seq<Room>, parent: nat, a: RoomId, k: nat)
    requires 1 <= k && Slot(k) < |before| <= |after| && Slot(parent) < |before| && Linked(before, k)
    requires forall i | 0 <= i < |before| ::
      after[i] == if i == Slot(parent) then before[i].(connections := before[i].connections + [a]) else before[i]
    ensures Linked(after, k)
  {
    var p := before[Slot(k) - 2].id.from;
    assert after[Slot(k) - 2] == before[Slot(k) - 2] && after[Slot(k) - 1] == before[Slot(k) - 1];
    assert after[Slot(k)].connections[0] == before[Slot(k)].connections[0];
    assert Wp(p, k, false) in after[Slot(p)].connections;
    assert Pos(after[Slot(p)]) == Pos(before[Slot(p)]) && Pos(after[Slot(k)]) == Pos(before[Slot(k)]);
  }

  /** Real rooms sit exactly at the multiples of 3, waypoints in between. */
  lemma {:induction false} RealAtSlots(rooms: seq<Room>, count: nat)
    requires Grown(rooms, count)
    ensures forall i | 0 <= i < |rooms| :: !rooms[i].isWaypoint <==> i % 3 == 0
    ensures forall i | 0 < i < |rooms| && i % 3 == 0 :: rooms[i].id == Num(i / 3) && i / 3 > 0
  {
    forall i | 0 <= i < |rooms| ensures !rooms[i].isWaypoint <==> i % 3 == 0 {
      if i % 3 == 0 {
        if i > 0 { assert Fresh(rooms[Slot(i / 3)], i / 3); }
      } else {
        var k := i / 3 + 1;
        assert Linked(rooms, k);
      }
    }
    forall i | 0 < i < |rooms| && i % 3 == 0 ensures rooms[i].id == Num(i / 3) && i / 3 > 0 {
      assert Fresh(rooms[Slot(i / 3)], i / 3);
    }
  }

  /** Manhattan distance of a room from the start room. */
  function Dist(r: Room): nat
  {
    (if r.gx < 0 then -r.gx else r.gx) + (if r.gy < 0 then -r.gy else r.gy)
  }

  /**
   * `dists.indexOf(Math.max(...dists))` over the real rooms among the first
   * `n`: the first real room that is farthest from the start, if any.
   */
  function FarthestIn(rooms: seq<Room>, n: nat): (f: Option<nat>)
    requires n <= |rooms|
    ensures f.Some? <==> exists i :: 0 <= i < n && !rooms[i].isWaypoint
    ensures f.Some? ==> f.value < n && !rooms[f.value].isWaypoint
    ensures f.Some? ==> forall i | 0 <= i < n && !rooms[i].isWaypoint :: Dist(rooms[i]) <= Dist(rooms[f.value])
    ensures f.Some? ==> forall i | 0 <= i < f.value && !rooms[i].isWaypoint :: Dist(rooms[i]) < Dist(rooms[f.value])
  {
    if n == 0 then None
    else
      var best := FarthestIn(rooms, n - 1);
      if rooms[n - 1].isWaypoint then best
      else if best.None? || Dist(rooms[n - 1]) > Dist(rooms[best.value]) then Some(n - 1)
      else best
  }

  /** The filter of `potentialSpecials`: a real room other than the start and the boss room. */
  predicate MaySpecialise(r: Room)
  {
    r.id != Num(0) && !r.isFinal && !r.isWaypoint
  }

  /** Indices of the rooms among the first `n` that may become the bonfire or a merchant, in list order. */
  function Eligible(rooms: seq<Room>, n: nat): (c: seq<nat>)
    requires n <= |rooms|
    ensures forall i: nat :: i in c <==> i < n && MaySpecialise(rooms[i])
    ensures forall j | 0 <= j < |c| :: c[j] < n
    ensures Increasing(c)
  {
    if n == 0 then []
    else
      var c := Eligible(rooms, n - 1);
      assert forall j | 0 <= j < |c| :: c[j] < n - 1 by {
        forall j | 0 <= j < |c| ensures c[j] < n - 1 { assert c[j] in c; }
      }
      c + (if MaySpecialise(rooms[n - 1]) then [n - 1] else [])
  }

  /** With real rooms at the multiples of 3 and room `fi` the boss room, `n` rooms hold `(n - 1) / 3 - [fi < n]` candidates. */
  lemma {:induction false} EligibleCount(rooms: seq<Room>, fi: nat, n: nat)
    requires 1 <= n <= |rooms| && fi % 3 == 0 && fi > 0
    requires !MaySpecialise(rooms[0])
    requires forall i | 0 < i < |rooms| :: MaySpecialise(rooms[i]) <==> i % 3 == 0 && i != fi
    ensures |Eligible(rooms, n)| == (n - 1) / 3 - (if fi < n then 1 else 0)
  {
    if n > 1 {
      EligibleCount(rooms, fi, n - 1);
      assert |Eligible(rooms, n)| == |Eligible(rooms, n - 1)| + (if MaySpecialise(rooms[n - 1]) then 1 else 0);
      assert (n - 1) / 3 == (n - 2) / 3 + (if (n - 1) % 3 == 0 then 1 else 0);
    }
  }

  /** A sequence with no repeated element has every count at most 1, and back. */
  lemma {:induction false} DistinctCounts<T>(s: seq<T>)
    ensures Distinct(s) <==> forall x :: multiset(s)[x] <= 1
  {
    if |s| > 0 {
      var init := s[..|s| - 1];
      var y := s[|s| - 1];
      assert s == init + [y];
      DistinctCounts(init);
      if Distinct(s) {
        assert y !in init;
      } else {
        var i, j :| 0 <= i < j < |s| && s[i] == s[j];
        if j < |s| - 1 {
          assert !Distinct(init);
          var x :| multiset(init)[x] > 1;
          assert multiset(s)[x] >= multiset(init)[x];
        } else {
          assert y in multiset(init);
          assert multiset(s)[y] == multiset(init)[y] + 1;
        }
      }
    }
  }

  /** The role flags that step 3 of `generateDungeon` sets on a room. */
  function Assign(r: Room, bonfire: bool, merchant: bool): Room
  {
    if bonfire then r.(isBonfire := true, restRemaining := 3)
    else if merchant then r.(isSpecial := true, generatedContent := None)
    else r
  }

  /** The boss room `final` (if any) marked, losing any other role. */
  function MarkFinal(rooms: seq<Room>, final: Option<nat>): (marked: seq<Room>)
    requires final.Some? ==> final.value < |rooms|
    ensures |marked| == |rooms|
  {
    if final.None? then rooms
    else rooms[final.value := rooms[final.value].(isFinal := true, isSpecial := false, isBonfire := false)]
  }

  /**
   * `bonfire` is the last entry of `pool` and `merchants` the entries popped
   * after it, at most `count` of them.
   */
  ghost predicate Popped(pool: seq<nat>, bonfire: Option<nat>, merchants: seq<nat>, count: nat)
  {
    && bonfire == (if |pool| > 0 then Some(pool[|pool| - 1]) else None)
    && |merchants| == (if |pool| > 0 then Min(count, |pool| - 1) else 0)
    && (forall j | 0 <= j < |merchants| :: merchants[j] == pool[|pool| - 2 - j])
  }

  /** `rooms` is `marked` with the bonfire and merchant roles given to those indices. */
  ghost predicate Assigned(rooms: seq<Room>, marked: seq<Room>, bonfire: Option<nat>, merchants: seq<nat>)
  {
    && |rooms| == |marked|
    && (forall i | 0 <= i < |marked| :: rooms[i] == Assign(marked[i], Some(i) == bonfire, i in merchants))
  }

  /** The candidates of `marked` are the real rooms other than the start and room `final`. */
  ghost predicate CandidatesBesides(marked: seq<Room>, final: nat)
  {
    && |marked| > 0 && !MaySpecialise(marked[0])
    && (forall i | 0 < i < |marked| :: MaySpecialise(marked[i]) <==> i % 3 == 0 && i != final)
  }

  /** `shuffle(potentialSpecials)`: the candidates in random order, still without repeats. */
  method ShufflePool(eligible: seq<nat>, specialDraw: nat -> nat) returns (pool: seq<nat>)
    requires Distinct(eligible)
    ensures pool == Shuffling.Shuffled(eligible, specialDraw)
    ensures Distinct(pool) && multiset(pool) == multiset(eligible)
    ensures forall j | 0 <= j < |pool| :: pool[j] in eligible
  {
    var a := new nat[|eligible|](i requires 0 <= i < |eligible| => eligible[i]);
    assert a[..] == eligible;
    Shuffling.Shuffle(a, specialDraw);
    pool := a[..];
    DistinctCounts(eligible);
    DistinctCounts(pool);
    forall j | 0 <= j < |pool| ensures pool[j] in eligible {
      assert pool[j] in multiset(pool);
    }
  }

  /**
   * The merchant loop of `generateDungeon`: up to `merchantCount` rooms are
   * popped off the end of the pool (whose last entry is already the bonfire)
   * and become merchants.
   */
  method PopMerchants(rooms: seq<Room>, marked: seq<Room>, pool: seq<nat>, merchantCount: nat)
    returns (rooms': seq<Room>, merchants: seq<nat>)
    requires |pool| > 0 && Distinct(pool) && |marked| == |rooms|
    requires forall j | 0 <= j < |pool| :: pool[j] < |rooms|
    requires Assigned(rooms, marked, Some(pool[|pool| - 1]), [])
    ensures Popped(pool, Some(pool[|pool| - 1]), merchants, merchantCount)
    ensures Assigned(rooms', marked, Some(pool[|pool| - 1]), merchants)
  {
    rooms' := rooms;
    var potential := pool[..|pool| - 1];
    merchants := [];
    var i := 0;
    while i < merchantCount
      invariant i <= merchantCount
      invariant |merchants| == Min(i, |pool| - 1) && potential == pool[..|pool| - 1 - |merchants|]
      invariant forall j | 0 <= j < |merchants| :: merchants[j] == pool[|pool| - 2 - j]
      invariant Assigned(rooms', marked, Some(pool[|pool| - 1]), merchants)
    {
      if |potential| > 0 {
        var m := potential[|potential| - 1];
        assert m == pool[|pool| - 2 - |merchants|];
        assert m != pool[|pool| - 1];
        assert m !in merchants;
        potential := potential[..|potential| - 1];
        rooms' := rooms'[m := rooms'[m].(isSpecial := true, generatedContent := None)];
        merchants := merchants + [m];
      }
      i := i + 1;
    }
  }

  /**
   * Step 3 of `generateDungeon`: the farthest real room becomes the boss room;
   * of the other real rooms except the start, shuffled with `specialDraw`, the
   * last becomes the bonfire and the next `1 + merchantDraw % 3` (as far as
   * they go) become merchants.
   */
  method AssignSpecials(rooms: seq<Room>, specialDraw: nat -> nat, merchantDraw: nat)
    returns (rooms': seq<Room>, final: Option<nat>, bonfire: Option<nat>, merchants: seq<nat>)
    ensures final == FarthestIn(rooms, |rooms|)
    ensures var marked := MarkFinal(rooms, final);
            var pool := Shuffling.Shuffled(Eligible(marked, |marked|), specialDraw);
      Popped(pool, bonfire, merchants, 1 + merchantDraw % 3) && Assigned(rooms', marked, bonfire, merchants)
  {
    final := FarthestIn(rooms, |rooms|);
    var marked := MarkFinal(rooms, final);
    var eligible := Eligible(marked, |marked|);
    var pool := ShufflePool(eligible, specialDraw);
    if |pool| == 0 {
      rooms', bonfire, merchants := marked, None, [];
    } else {
      var b := pool[|pool| - 1];
      rooms' := marked[b := marked[b].(isBonfire := true, restRemaining := 3)];
      bonfire := Some(b);
      assert Assigned(rooms', marked, bonfire, []);
      rooms', merchants := PopMerchants(rooms', marked, pool, 1 + merchantDraw % 3);
    }
  }

  /** Changing only role flags of real rooms other than the start keeps the layout. */
  lemma GrownUnderRoles(before: seq<Room>, after: seq<Room>, count: nat)
    requires Grown(before, count) && |after| == |before| && after[0] == before[0]
    requires forall i | 0 <= i < |before| && i % 3 != 0 :: after[i] == before[i]
    requires forall i | 0 < i < |before| && i % 3 == 0 ::
      after[i] == before[i].(isSpecial := after[i].isSpecial, isBonfire := after[i].isBonfire, isFinal := after[i].isFinal)
    ensures Grown(after, count)
  {
    forall k | 1 <= k < count ensures Fresh(after[Slot(k)], k) && Linked(after, k) {
      assert Fresh(before[Slot(k)], k);
      assert Linked(before, k);
      var p := before[Slot(k) - 2].id.from;
      assert after[Slot(p)].connections == before[Slot(p)].connections;
      assert Pos(after[Slot(p)]) == Pos(before[Slot(p)]) && Pos(after[Slot(k)]) == Pos(before[Slot(k)]);
    }
  }

  /** The boss room is never the start room: the start sits at the origin and every other room elsewhere. */
  lemma FinalAwayFromStart(rooms: seq<Room>, positions: seq<(int, int)>)
    requires Grown(rooms, NumRooms) && Located(rooms, positions, NumRooms)
    ensures FarthestIn(rooms, |rooms|).Some?
    ensures var f := FarthestIn(rooms, |rooms|).value; f % 3 == 0 && f > 0
  {
    RealAtSlots(rooms, NumRooms);
    assert !rooms[0].isWaypoint;
    var f := FarthestIn(rooms, |rooms|).value;
    assert positions[0] != positions[1];
    assert Pos(rooms[Slot(1)]) == positions[1];
    assert Dist(rooms[Slot(1)]) > 0;
    assert !rooms[Slot(1)].isWaypoint;
  }

  /** After the boss room is marked, the candidates are the real rooms other than the start and the boss room. */
  lemma MarkedCandidates(rooms: seq<Room>, f: nat)
    requires Grown(rooms, NumRooms) && Plain(rooms) && f < |rooms| && f % 3 == 0 && f > 0
    ensures var marked := MarkFinal(rooms, Some(f));
      CandidatesBesides(marked, f) && |Eligible(marked, |marked|)| == NumRooms - 2
  {
    RealAtSlots(rooms, NumRooms);
    var marked := MarkFinal(rooms, Some(f));
    forall i | 0 < i < |marked| ensures MaySpecialise(marked[i]) <==> i % 3 == 0 && i != f {
    }
    EligibleCount(marked, f, |marked|);
  }

  /** The floor plan: the grown layout, with the twelve real rooms on distinct points of the step-4 grid. */
  ghost predicate Laid(rooms: seq<Room>)
  {
    && Grown(rooms, NumRooms)
    && (forall k, l | 0 <= k < l < NumRooms :: Pos(rooms[Slot(k)]) != Pos(rooms[Slot(l)]))
    && (forall k | 0 <= k < NumRooms :: rooms[Slot(k)].gx % 4 == 0 && rooms[Slot(k)].gy % 4 == 0)
  }

  /** Room index `final` is the only boss room, the first real room farthest from the start, and not the start. */
  ghost predicate BossAt(rooms: seq<Room>, final: nat)
  {
    && final % 3 == 0 && 0 < final < |rooms|
    && (forall i | 0 <= i < |rooms| :: rooms[i].isFinal <==> i == final)
    && (forall i | 0 <= i < |rooms| && !rooms[i].isWaypoint :: Dist(rooms[i]) <= Dist(rooms[final]))
    && (forall i | 0 <= i < final && !rooms[i].isWaypoint :: Dist(rooms[i]) < Dist(rooms[final]))
  }

  /**
   * Room index `bonfire` is the only bonfire and the indices `merchants` are
   * exactly the merchants: all distinct real rooms other than the start and
   * the boss room `final`.
   */
  ghost predicate RolesAt(rooms: seq<Room>, final: nat, bonfire: nat, merchants: seq<nat>)
  {
    && bonfire % 3 == 0 && 0 < bonfire < |rooms| && bonfire != final
    && (forall i | 0 <= i < |rooms| :: rooms[i].isBonfire <==> i == bonfire)
    && Distinct(merchants)
    && (forall i | 0 <= i < |rooms| :: rooms[i].isSpecial <==> i in merchants)
    && (forall m | m in merchants :: m % 3 == 0 && 0 < m < |rooms| && m != final && m != bonfire)
  }

  /**
   * `generateDungeon`: the floor plan of twelve linked rooms, one boss room,
   * one bonfire, and exactly `1 + merchantDraw % 3` merchants; `final`,
   * `bonfire` and `merchants` are indices into `rooms`.
   */
  method GenerateDungeon(rolls: nat -> Roll, specialDraw: nat -> nat, merchantDraw: nat)
    returns (rooms: seq<Room>, ghost final: nat, ghost bonfire: nat, ghost merchants: seq<nat>)
    ensures Laid(rooms) && |rooms| == 34
    ensures BossAt(rooms, final)
    ensures RolesAt(rooms, final, bonfire, merchants) && |merchants| == 1 + merchantDraw % 3
  {
    var grown, positions := Grow(rolls);
    FinalAwayFromStart(grown, positions);
    var f, b, ms;
    rooms, f, b, ms := AssignSpecials(grown, specialDraw, merchantDraw);
    SpecialsLaid(grown, positions, rooms, f, b, ms, specialDraw, merchantDraw);
    final, bonfire, merchants := f.value, b.value, ms;
  }

  /** The rooms of step 3, given the grown layout they start from, are a complete floor plan. */
  lemma SpecialsLaid(grown: seq<Room>, positions: seq<(int, int)>, rooms: seq<Room>, f: Option<nat>,
                     b: Option<nat>, ms: seq<nat>, specialDraw: nat -> nat, merchantDraw: nat)
    requires Grown(grown, NumRooms) && Plain(grown) && Located(grown, positions, NumRooms)
    requires f == FarthestIn(grown, |grown|) && f.Some? && f.value % 3 == 0 && f.value > 0
    requires var marked := MarkFinal(grown, f);
             var pool := Shuffling.Shuffled(Eligible(marked, |marked|), specialDraw);
             Popped(pool, b, ms, 1 + merchantDraw % 3) && Assigned(rooms, marked, b, ms)
    ensures b.Some? && Laid(rooms) && |rooms| == 34
    ensures BossAt(rooms, f.value)
    ensures RolesAt(rooms, f.value, b.value, ms) && |ms| == 1 + merchantDraw % 3
  {
    var final := f.value;
    MarkedCandidates(grown, final);
    var marked := MarkFinal(grown, f);
    var eligible := Eligible(marked, |marked|);
    ShuffledPool(eligible, specialDraw);
    var pool := Shuffling.Shuffled(eligible, specialDraw);
    RolesPlaced(grown, marked, rooms, pool, final, b.value, ms, 1 + merchantDraw % 3);
    RolesKeepLayout(grown, marked, rooms, final, b.value, ms);
    PlanKept(grown, positions, rooms, final);
  }

  /** The shuffled candidates are the candidates, each once. */
  lemma ShuffledPool(eligible: seq<nat>, draw: nat -> nat)
    requires Distinct(eligible)
    ensures var pool := Shuffling.Shuffled(eligible, draw);
      |pool| == |eligible| && Distinct(pool) && forall j | 0 <= j < |pool| :: pool[j] in eligible
  {
    var pool := Shuffling.Shuffled(eligible, draw);
    Shuffling.ShuffledIsPermutation(eligible, draw);
    DistinctCounts(eligible);
    DistinctCounts(pool);
    forall j | 0 <= j < |pool| ensures pool[j] in eligible {
      assert pool[j] in multiset(pool);
    }
  }

  /** The role flags after step 3, read off the per-room assignment. */
  lemma RolesPlaced(grown: seq<Room>, marked: seq<Room>, rooms: seq<Room>, pool: seq<nat>,
                    final: nat, bonfire: nat, merchants: seq<nat>, count: nat)
    requires Plain(grown) && final % 3 == 0 && 0 < final < |grown|
    requires marked == MarkFinal(grown, Some(final)) && CandidatesBesides(marked, final)
    requires |pool| >= 1 && Distinct(pool)
    requires forall j | 0 <= j < |pool| :: pool[j] in Eligible(marked, |marked|)
    requires Popped(pool, Some(bonfire), merchants, count)
    requires Assigned(rooms, marked, Some(bonfire), merchants)
    ensures RolesAt(rooms, final, bonfire, merchants)
    ensures forall i | 0 <= i < |rooms| :: rooms[i].isFinal <==> i == final
  {
    assert MaySpecialise(marked[bonfire]);
    forall m | m in merchants ensures m % 3 == 0 && 0 < m < |rooms| && m != final && m != bonfire {
      var j :| 0 <= j < |merchants| && merchants[j] == m;
      assert m == pool[|pool| - 2 - j];
      assert MaySpecialise(marked[m]);
    }
  }

  /** Step 3 changes only role flags of real rooms other than the start, so the layout stays. */
  lemma RolesKeepLayout(grown: seq<Room>, marked: seq<Room>, rooms: seq<Room>,
                        final: nat, bonfire: nat, merchants: seq<nat>)
    requires Grown(grown, NumRooms) && final % 3 == 0 && 0 < final < |grown|
    requires marked == MarkFinal(grown, Some(final))
    requires bonfire % 3 == 0 && bonfire > 0
    requires forall m | m in merchants :: m % 3 == 0 && m > 0
    requires Assigned(rooms, marked, Some(bonfire), merchants)
    ensures Grown(rooms, NumRooms)
    ensures forall i | 0 <= i < |rooms| :: Pos(rooms[i]) == Pos(grown[i]) && rooms[i].isWaypoint == grown[i].isWaypoint
  {
    forall i | 0 < i < |grown| && i % 3 == 0
      ensures rooms[i] == grown[i].(isSpecial := rooms[i].isSpecial, isBonfire := rooms[i].isBonfire, isFinal := rooms[i].isFinal)
    {
      assert Fresh(grown[Slot(i / 3)], i / 3);
    }
    GrownUnderRoles(grown, rooms, NumRooms);
  }

  /** The positions and the boss room found on the grown layout carry over to the final one. */
  lemma PlanKept(grown: seq<Room>, positions: seq<(int, int)>, rooms: seq<Room>, final: nat)
    requires Grown(grown, NumRooms) && Located(grown, positions, NumRooms)
    requires Some(final) == FarthestIn(grown, |grown|)
    requires |rooms| == |grown| && Grown(rooms, NumRooms)
    requires forall i | 0 <= i < |rooms| :: Pos(rooms[i]) == Pos(grown[i]) && rooms[i].isWaypoint == grown[i].isWaypoint
    requires final % 3 == 0 && 0 < final
    requires forall i | 0 <= i < |rooms| :: rooms[i].isFinal <==> i == final
    ensures Laid(rooms) && BossAt(rooms, final)
  {
    forall i | 0 <= i < |rooms| ensures Dist(rooms[i]) == Dist(grown[i]) {
      assert Pos(rooms[i]) == Pos(grown[i]);
    }
  }
}
