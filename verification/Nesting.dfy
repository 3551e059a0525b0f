/**
 The depth check in front of an `Any`: a walk with an explicit stack stands in for the CRDT
 library's recursive reader (crates/client/src/nesting.rs), and finds what that reader would.
 */
module Nesting {
  import opened Options
  import opened Bytes
  import opened AnyReader

  const MAX_ANY_DEPTH: nat := 256

  // --- the same reader, stopped at the bound -----------------------------------------------------

  datatype Outcome = Done(end: nat) | Unreadable | Deeper

  function Value(prims: Primitives, bytes: seq<Byte>, pos: nat, open: nat): (r: Outcome)
    requires pos <= |bytes|
    ensures r.Done? ==> pos < r.end <= |bytes|
    decreases |bytes| - pos, 0
  {
    if pos == |bytes| then Unreadable
    else if IsContainer(bytes[pos]) then
      if MAX_ANY_DEPTH <= open then Deeper
      else
        var length := PastLength(prims, bytes, pos + 1);
        if length.None? then Unreadable
        else Items(prims, bytes, length.value.1, length.value.0, bytes[pos] == 118, open + 1)
    else
      var end := PastScalar(prims, bytes, bytes[pos], pos + 1);
      if end.None? then Unreadable else Done(end.value)
  }

  function Items(prims: Primitives, bytes: seq<Byte>, pos: nat, left: nat, isMap: bool, open: nat): (r: Outcome)
    requires pos <= |bytes|
    ensures r.Done? ==> pos <= r.end <= |bytes|
    decreases |bytes| - pos, 1
  {
    if left == 0 then Done(pos)
    else
      var key := PastKey(prims, bytes, isMap, pos);
      if key.None? then Unreadable
      else
        var first := Value(prims, bytes, key.value, open);
        if first.Done? then Items(prims, bytes, first.end, left - 1, isMap, open) else first
  }

  /** Stopping at the bound loses nothing: it happens exactly when the meter would pass it. */
  lemma {:induction false} TheBoundIsTheMeter(prims: Primitives, bytes: seq<Byte>, pos: nat, open: nat)
    requires pos <= |bytes| && open <= MAX_ANY_DEPTH
    ensures var (end, deepest) := Decode(prims, bytes, pos, open);
            var r := Value(prims, bytes, pos, open);
            && (r.Deeper? <==> MAX_ANY_DEPTH < deepest)
            && (!r.Deeper? ==> (if end.Some? then r == Done(end.value) else r == Unreadable))
    decreases |bytes| - pos, 0
  {
    if pos < |bytes| && IsContainer(bytes[pos]) {
      var length := PastLength(prims, bytes, pos + 1);
      if length.Some? {
        MeterNeverFalls(prims, bytes, length.value.1, length.value.0, bytes[pos] == 118, open + 1);
        if open < MAX_ANY_DEPTH {
          TheBoundIsTheMeterInside(prims, bytes, length.value.1, length.value.0, bytes[pos] == 118, open + 1);
        }
      }
    }
  }

  lemma {:induction false} TheBoundIsTheMeterInside(prims: Primitives, bytes: seq<Byte>, pos: nat, left: nat, isMap: bool, open: nat)
    requires pos <= |bytes| && open <= MAX_ANY_DEPTH
    ensures var (end, deepest) := DecodeItems(prims, bytes, pos, left, isMap, open);
            var r := Items(prims, bytes, pos, left, isMap, open);
            && (r.Deeper? <==> MAX_ANY_DEPTH < deepest)
            && (!r.Deeper? ==> (if end.Some? then r == Done(end.value) else r == Unreadable))
    decreases |bytes| - pos, 1
  {
    if left != 0 {
      var key := PastKey(prims, bytes, isMap, pos);
      if key.Some? {
        TheBoundIsTheMeter(prims, bytes, key.value, open);
        var end := Decode(prims, bytes, key.value, open).0;
        if end.Some? {
          TheBoundIsTheMeterInside(prims, bytes, end.value, left - 1, isMap, open);
        }
      }
    }
  }

  // --- the walk --------------------------------------------------------------------------------------

  /** One open container: how many values it has left, and whether each follows its key. */
  datatype Container = Container(left: nat, isMap: bool)

  /** What reading on from a finished value comes to, with these containers still open. */
  function Unwound(prims: Primitives, bytes: seq<Byte>, pos: nat, open: seq<Container>): Outcome
    requires pos <= |bytes|
    decreases |open|
  {
    if open == [] then Done(pos)
    else
      var top := open[|open| - 1];
      var r := Items(prims, bytes, pos, top.left, top.isMap, |open|);
      if r.Done? then Unwound(prims, bytes, r.end, open[..|open| - 1]) else r
  }

  /** What reading one value next, and then on from it, comes to. */
  function Continued(prims: Primitives, bytes: seq<Byte>, pos: nat, open: seq<Container>): Outcome
    requires pos <= |bytes|
  {
    var r := Value(prims, bytes, pos, |open|);
    if r.Done? then Unwound(prims, bytes, r.end, open) else r
  }

  datatype Reading = Read | TooDeep | Failed

  class Walk {
    const prims: Primitives
    const bytes: seq<Byte>
    var pos: nat
    var open: seq<Container>

    /** The stack the walk keeps is never deeper than the bound, whatever the bytes claim. */
    ghost predicate Valid()
      reads this
    {
      pos <= |bytes| && |open| <= MAX_ANY_DEPTH
    }

    constructor (prims: Primitives, bytes: seq<Byte>)
      ensures Valid() && this.prims == prims && this.bytes == bytes && pos == 0 && open == []
    {
      this.prims, this.bytes := prims, bytes;
      pos, open := 0, [];
    }

    /** Takes one tag off the input: a scalar goes with it, a container goes on the stack. */
    method ReadOne() returns (step: Reading)
      requires Valid()
      modifies this
      ensures Valid()
      ensures step == TooDeep ==> Continued(prims, bytes, old(pos), old(open)) == Deeper
      ensures step == Failed ==> Continued(prims, bytes, old(pos), old(open)) == Unreadable
      ensures step == Read ==>
                && old(pos) < pos
                && Unwound(prims, bytes, pos, open) == Continued(prims, bytes, old(pos), old(open))
    {
      if pos == |bytes| {
        return Failed;
      }
      var tag := bytes[pos];
      if IsContainer(tag) {
        if MAX_ANY_DEPTH <= |open| {
          return TooDeep;
        }
        var length := PastLength(prims, bytes, pos + 1);
        pos := pos + 1;
        if length.None? {
          return Failed;
        }
        pos := length.value.1;
        open := open + [Container(length.value.0, tag == 118)];
        assert open[..|open| - 1] == old(open);
        return Read;
      }
      var end := PastScalar(prims, bytes, tag, pos + 1);
      pos := pos + 1;
      if end.None? {
        return Failed;
      }
      pos := end.value;
      step := Read;
    }

    /** Pops what is finished, so that a value can start: for a map, after the key before it. */
    method NextValue() returns (more: Option<bool>)
      requires Valid()
      modifies this
      ensures Valid() && old(pos) <= pos
      ensures more.None? ==> Unwound(prims, bytes, old(pos), old(open)) == Unreadable
      ensures more == Some(false) ==> Unwound(prims, bytes, old(pos), old(open)) == Done(pos) && open == []
      ensures more == Some(true) ==>
                Continued(prims, bytes, pos, open) == Unwound(prims, bytes, old(pos), old(open))
    {
      while open != []
        invariant Valid() && pos == old(pos)
        invariant Unwound(prims, bytes, pos, open) == Unwound(prims, bytes, old(pos), old(open))
        decreases |open|
      {
        var top := open[|open| - 1];
        if top.left == 0 {
          open := open[..|open| - 1];
          continue;
        }
        ghost var before := open;
        open := open[|open| - 1 := Container(top.left - 1, top.isMap)];
        assert open[..|open| - 1] == before[..|before| - 1];
        var key := PastKey(prims, bytes, top.isMap, pos);
        if key.None? {
          return None;
        }
        pos := key.value;
        return Some(true);
      }
      more := Some(false);
    }
  }

  /**
   Whether the `Any` at the front of the bytes is too deep. The walk ends on every input, and
   says so exactly when the recursive reader would be told to have more than 256 containers
   open, before it meets bytes it cannot read or the end of the outermost value: when 256 stand
   open inside one another and one more opens inside them, or, of a value spelled out whole,
   when that is how deep it nests.
   */
  method DeeperThanBound(prims: Primitives, bytes: seq<Byte>) returns (deeper: bool)
    ensures deeper <==> MAX_ANY_DEPTH < Decode(prims, bytes, 0, 0).1
    ensures Local(prims) ==> (deeper <==> exists levels :: |levels| == MAX_ANY_DEPTH && Opens(prims, bytes, 0, levels))
    ensures Local(prims) ==>
              forall v | WellSpelled(prims, v) && At(bytes, 0, Encode(v)) :: deeper <==> MAX_ANY_DEPTH < Depth(v)
  {
    TheBoundIsTheMeter(prims, bytes, 0, 0);
    if Local(prims) {
      TheMeterIsTheOpenLevels(prims, bytes, 0, 0, MAX_ANY_DEPTH);
      forall v | WellSpelled(prims, v) && At(bytes, 0, Encode(v)) ensures Decode(prims, bytes, 0, 0).1 == Depth(v) {
        EncodingReads(prims, bytes, 0, v, 0);
      }
    }
    hide Local;
    var walk := new Walk(prims, bytes);
    while true
      invariant fresh(walk) && walk.Valid() && walk.prims == prims && walk.bytes == bytes
      invariant Continued(prims, bytes, walk.pos, walk.open) == Value(prims, bytes, 0, 0)
      decreases |bytes| - walk.pos
    {
      var step := walk.ReadOne();
      if step == TooDeep {
        return true;
      }
      if step == Failed {
        return false;
      }
      assert Unwound(prims, bytes, walk.pos, walk.open) == Value(prims, bytes, 0, 0);
      var more := walk.NextValue();
      if more.None? || !more.value {
        return false;
      }
    }
  }
}
