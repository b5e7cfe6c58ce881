/**
 * The browser client of physics.js: a stack of bodies in a Matter.js world
 * that `balance` grows or shrinks until its counter matches the count the
 * server last announced. Only the identity of a body matters here; the
 * world is the set of bodies this code has added and not yet removed.
 */
module Physics {
  import opened Wrappers

  /** A Matter.js body, known only by its identity. */
  class Body {
    constructor ()
    {
    }
  }

  class Client {
    /** The number of players the client believes are online. */
    var count: int
    /** One body per player, the user's own first. */
    var bodies: seq<Body>
    /** The bodies in the world: those pushed and not yet popped. */
    ghost var world: set<Body>
    /** The user's polygon. */
    const user: Body

    /** Every body is on the stack once, and the world holds exactly the stack's bodies. */
    ghost predicate Valid()
      reads this
    {
      && (forall i, j :: 0 <= i < j < |bodies| ==> bodies[i] != bodies[j])
      && (forall b :: b in world ==> b in bodies)
      && (forall i :: 0 <= i < |bodies| ==> bodies[i] in world)
    }

    /** Lines 81-91: the count starts at 1, for the user, whose body is the only one. */
    constructor ()
      ensures Valid()
      ensures count == 1 && bodies == [user] && |bodies| == count
    {
      count := 1;
      var u := new Body();
      user := u;
      bodies := [u];
      world := {u};
    }

    /**
     * balance(newCount): push fresh bodies while the count is below newCount,
     * then pop while it is above. Popping an empty stack hands `undefined` to
     * Composite.remove, which throws before the count is decremented; the
     * method then returns false and the loop has stopped there.
     */
    method Balance(newCount: int) returns (ok: bool)
      requires Valid()
      modifies this
      ensures Valid()
      ensures newCount >= old(count) ==>
                && ok && count == newCount
                && |bodies| == |old(bodies)| + (newCount - old(count))
                && bodies[..|old(bodies)|] == old(bodies)
                && (forall i :: |old(bodies)| <= i < |bodies| ==> fresh(bodies[i]))
                && (forall b :: b in world <==> b in old(world) || b in bodies[|old(bodies)|..])
      ensures newCount < old(count) ==>
                var keep := if old(count) - newCount <= |old(bodies)| then |old(bodies)| - (old(count) - newCount) else 0;
                && (ok <==> old(count) - newCount <= |old(bodies)|)
                && count == (if ok then newCount else old(count) - |old(bodies)|)
                && bodies == old(bodies)[..keep]
                && (forall b :: b in world <==> b in old(world) && b !in old(bodies)[keep..])
      ensures newCount == old(count) ==> count == old(count) && bodies == old(bodies) && world == old(world)
      ensures old(count) == |old(bodies)| && newCount >= 0 ==> ok && count == |bodies|
      ensures old(count) == |old(bodies)| && newCount < 0 ==> !ok && count == |bodies| && bodies == [] && world == {}
      ensures old(bodies) != [] && newCount > old(count) - |old(bodies)| ==> bodies != [] && bodies[0] == old(bodies)[0]
    {
      ok := true;
      while newCount > count
        invariant Valid()
        invariant old(count) <= count && (newCount >= old(count) ==> count <= newCount)
        invariant newCount <= old(count) ==> count == old(count) && bodies == old(bodies) && world == old(world)
        invariant |bodies| == |old(bodies)| + (count - old(count))
        invariant bodies[..|old(bodies)|] == old(bodies)
        invariant forall i :: |old(bodies)| <= i < |bodies| ==> fresh(bodies[i])
        invariant forall b :: b in world <==> b in old(world) || b in bodies[|old(bodies)|..]
        decreases newCount - count
      {
        var newBox := new Body();
        bodies := bodies + [newBox];
        world := world + {newBox};
        count := count + 1;
      }
      ghost var grown, grownWorld := bodies, world;
      while newCount < count
        invariant Valid()
        invariant newCount < old(count) ==> newCount <= count <= old(count)
        invariant newCount >= old(count) ==> count == newCount && bodies == grown && world == grownWorld
        invariant newCount < old(count) ==>
                    && |bodies| == |old(bodies)| - (old(count) - count)
                    && bodies == old(bodies)[..|bodies|]
                    && (forall b :: b in world <==> b in old(world) && b !in old(bodies)[|bodies|..])
        decreases count - newCount
      {
        if bodies == [] {
          ok := false;
          return;
        }
        var last := bodies[|bodies| - 1];
        bodies := bodies[..|bodies| - 1];
        world := world - {last};
        count := count - 1;
      }
    }

    /**
     * onmessage, given the parsed `count` field (None when absent): balance
     * runs only when the field is truthy, that is, present and non-zero.
     */
    method OnMessage(responseCount: Option<int>) returns (ok: bool)
      requires Valid()
      modifies this
      ensures Valid()
      ensures responseCount.None? || responseCount.value == 0 ==>
                ok && count == old(count) && bodies == old(bodies) && world == old(world)
      ensures responseCount.Some? && responseCount.value != 0 && old(count) == |old(bodies)| && responseCount.value >= 0 ==>
                ok && count == responseCount.value && count == |bodies|
      ensures responseCount.Some? && responseCount.value != 0 && old(count) == |old(bodies)| ==>
                && count == |bodies|
                && (ok <==> responseCount.value >= 0)
                && (!ok ==> bodies == [] && world == {})
      ensures responseCount.Some? && responseCount.value > 0 && old(count) == |old(bodies)| ==>
                var v := responseCount.value;
                && (v >= old(count) ==>
                      && bodies[..|old(bodies)|] == old(bodies)
                      && (forall i :: |old(bodies)| <= i < |bodies| ==> fresh(bodies[i]))
                      && (forall b :: b in world <==> b in old(world) || b in bodies[|old(bodies)|..]))
                && (v < old(count) ==>
                      && bodies == old(bodies)[..v]
                      && (forall b :: b in world <==> b in old(world) && b !in old(bodies)[v..]))
                && (old(bodies) != [] ==> bodies != [] && bodies[0] == old(bodies)[0])
    {
      ok := true;
      if responseCount.Some? && responseCount.value != 0 {
        ok := Balance(responseCount.value);
      }
    }
  }
}
