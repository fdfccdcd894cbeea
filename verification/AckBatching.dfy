/** How the receiving client packs the ids of saved messages into acknowledgement
    frames of bounded size. */
module AckBatching {

  const MAX_ACK_BYTES := 1800

  function Flatten(batches: seq<seq<string>>): seq<string> {
    if batches == [] then [] else Flatten(batches[..|batches| - 1]) + batches[|batches| - 1]
  }

  /** No frame is empty, a frame with more than one id fits, and no frame could also have
      taken the first id of the next one. */
  predicate Packed(batches: seq<seq<string>>, size: seq<string> -> nat) {
    batches == [] ||
    var n := |batches| - 1;
    && Packed(batches[..n], size)
    && batches[n] != []
    && (|batches[n]| > 1 ==> size(batches[n]) <= MAX_ACK_BYTES)
    && (n > 0 ==> size(batches[n - 1] + [batches[n][0]]) > MAX_ACK_BYTES)
  }

  /** The frame under construction can follow the finished ones. */
  predicate Follows(batches: seq<seq<string>>, current: seq<string>, size: seq<string> -> nat) {
    && current != []
    && (|current| > 1 ==> size(current) <= MAX_ACK_BYTES)
    && (batches != [] ==> size(batches[|batches| - 1] + [current[0]]) > MAX_ACK_BYTES)
  }

  lemma Finish(batches: seq<seq<string>>, current: seq<string>, size: seq<string> -> nat)
    requires Packed(batches, size) && Follows(batches, current, size)
    ensures Packed(batches + [current], size) && Flatten(batches + [current]) == Flatten(batches) + current
  {
    assert (batches + [current])[..|batches|] == batches;
  }

  /** The next id fits the frame under construction ... */
  lemma Grow(batches: seq<seq<string>>, current: seq<string>, id: string, size: seq<string> -> nat)
    requires (batches == [] && current == []) || Follows(batches, current, size)
    requires size(current + [id]) <= MAX_ACK_BYTES
    ensures Follows(batches, current + [id], size)
    ensures Flatten(batches) + (current + [id]) == Flatten(batches) + current + [id]
  {
    hide Flatten;
  }

  /** ... or starts the next one. */
  lemma Start(batches: seq<seq<string>>, current: seq<string>, id: string, size: seq<string> -> nat)
    requires current != [] && size(current + [id]) > MAX_ACK_BYTES
    ensures Follows(batches + [current], [id], size)
  {
  }

  lemma StartFirst(id: string, size: seq<string> -> nat)
    ensures Follows([], [id], size)
  {
  }

  /** When every id fits a frame of its own, every frame fits. */
  lemma {:induction false} AllFramesFit(batches: seq<seq<string>>, size: seq<string> -> nat)
    requires Packed(batches, size) && forall id :: id in Flatten(batches) ==> size([id]) <= MAX_ACK_BYTES
    ensures forall b :: b in batches ==> size(b) <= MAX_ACK_BYTES
  {
    if batches != [] {
      var n := |batches| - 1;
      AllFramesFit(batches[..n], size);
      if |batches[n]| == 1 {
        assert batches[n] == [batches[n][0]];
        assert batches[n][0] in Flatten(batches);
      }
      forall b | b in batches ensures b in batches[..n] || b == batches[n] {}
    }
  }

  lemma NothingYet(size: seq<string> -> nat)
    ensures Flatten([]) == [] && Packed([], size)
  {
  }

  /** `size` is the length of the serialised frame for a list of ids.  The frames hold every
      id once and in order, and fit if each id fits a frame of its own. */
  method AckBatches(ids: seq<string>, size: seq<string> -> nat) returns (batches: seq<seq<string>>)
    ensures Flatten(batches) == ids
    ensures Packed(batches, size)
    ensures (forall id :: id in ids ==> size([id]) <= MAX_ACK_BYTES) ==> forall b :: b in batches ==> size(b) <= MAX_ACK_BYTES
  {
    hide Flatten, Packed, Follows;
    NothingYet(size);
    batches := [];
    var current := [];
    for i := 0 to |ids|
      invariant Flatten(batches) + current == ids[..i]
      invariant Packed(batches, size)
      invariant if current == [] then i == 0 && batches == [] else Follows(batches, current, size)
    {
      var id := ids[i];
      assert ids[..i + 1] == ids[..i] + [id];
      if size(current + [id]) > MAX_ACK_BYTES {
        if current != [] {
          Finish(batches, current, size);
          Start(batches, current, id, size);
          batches := batches + [current];
        } else {
          StartFirst(id, size);
        }
        current := [id];
      } else {
        Grow(batches, current, id, size);
        current := current + [id];
      }
    }
    assert ids[..|ids|] == ids;
    if current != [] {
      Finish(batches, current, size);
      batches := batches + [current];
    }
    if forall id :: id in ids ==> size([id]) <= MAX_ACK_BYTES {
      AllFramesFit(batches, size);
    }
  }
}
