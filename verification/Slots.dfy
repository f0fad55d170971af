/** The pool of execution slots shared by every handle of one channel. */
module Slots {
  import opened Bytes
  import opened Results
  import opened Requests

  datatype SlotError = NoSlotAvailable

  ghost predicate NoDuplicates(slots: seq<byte>) {
    forall i, j :: 0 <= i < j < |slots| ==> slots[i] != slots[j]
  }

  /** The least slot not reserved, if any of the 127 assignable ones is left. */
  function FirstFree(slots: seq<byte>): (r: Option<byte>)
    ensures match r
            case Some(id) => id < MAX_SLOTS && id !in slots && forall k: byte :: k < id ==> k in slots
            case None => forall k: byte :: k < MAX_SLOTS ==> k in slots
  {
    FirstFreeFrom(slots, 0)
  }

  function FirstFreeFrom(slots: seq<byte>, id: nat): (r: Option<byte>)
    requires id <= MAX_SLOTS && forall k: byte :: k < id ==> k in slots
    ensures match r
            case Some(id) => id < MAX_SLOTS && id !in slots && forall k: byte :: k < id ==> k in slots
            case None => forall k: byte :: k < MAX_SLOTS ==> k in slots
    decreases MAX_SLOTS - id
  {
    if id == MAX_SLOTS then None
    else if id !in slots then Some(id)
    else FirstFreeFrom(slots, id + 1)
  }

  /** The reserved slots without `slot`. */
  function Without(slots: seq<byte>, slot: byte): (rest: seq<byte>)
    ensures forall s :: s in rest ==> s in slots
    ensures forall s :: s in slots && s != slot ==> s in rest
  {
    if slots == [] then []
    else if slots[0] == slot then slots[1..]
    else [slots[0]] + Without(slots[1..], slot)
  }

  lemma {:induction false} WithoutIsGone(slots: seq<byte>, slot: byte)
    requires NoDuplicates(slots)
    ensures NoDuplicates(Without(slots, slot)) && slot !in Without(slots, slot)
  {
    if slots != [] {
      var rest := slots[1..];
      assert forall i :: 0 <= i < |rest| ==> rest[i] == slots[i + 1];
      assert slots[0] !in rest;
      WithoutIsGone(rest, slot);
      if slots[0] != slot {
        var w := Without(rest, slot);
        assert slots[0] !in w;
        var r := [slots[0]] + w;
        assert forall i :: 1 <= i < |r| ==> r[i] == w[i - 1];
      }
    }
  }

  class SlotPool {
    var slots: seq<byte>

    constructor ()
      ensures slots == []
    {
      slots := [];
    }

    method ReserveSlot() returns (r: Result<byte, SlotError>)
      modifies this
      ensures match FirstFree(old(slots))
              case Some(id) => r == Ok(id) && slots == old(slots) + [id]
              case None => r == Err(NoSlotAvailable) && slots == old(slots)
    {
      var id: nat := 0;
      while id < MAX_SLOTS
        invariant id <= MAX_SLOTS && slots == old(slots)
        invariant forall k: byte :: k < id ==> k in slots
        invariant FirstFree(slots) == FirstFreeFrom(slots, id)
      {
        if id !in slots {
          slots := slots + [id];
          return Ok(id);
        }
        id := id + 1;
      }
      return Err(NoSlotAvailable);
    }

    method ReleaseSlot(slot: byte)
      modifies this
      ensures slots == Without(old(slots), slot)
    {
      var position := 0;
      while position < |slots| && slots[position] != slot
        invariant position <= |slots|
        invariant slots[..position] + Without(slots[position..], slot) == Without(slots, slot)
      {
        position := position + 1;
      }
      if position < |slots| {
        slots := slots[..position] + slots[position + 1..];
      }
    }
  }
}
