/**
 The responses that agents leave for phones: one a (user, agent, request), readable for five minutes.
 */
module MailboxResponses {
  import opened Basics
  import opened MailboxModel

  datatype Response = Response(payload: string, expiresAt: Time)

  const RESPONSE_TTL: int := 5 * MINUTE

  datatype Shelf = Shelf(now: Time, responses: map<Slot, Response>)

  datatype Act = Pass(at: Time) | Save(slot: Slot, payload: string)

  function Poll(d: Shelf, slot: Slot): Option<string> {
    if slot in d.responses && d.responses[slot].expiresAt > d.now then Some(d.responses[slot].payload) else None
  }

  function Step(d: Shelf, a: Act): Shelf {
    match a
    case Pass(at) => if d.now <= at then d.(now := at) else d
    case Save(slot, payload) => d.(responses := d.responses[slot := Response(payload, d.now + RESPONSE_TTL)])
  }

  function Exec(d: Shelf, acts: seq<Act>): Shelf {
    if acts == [] then d else Step(Exec(d, acts[..|acts| - 1]), acts[|acts| - 1])
  }

  // Act i saves a response for this slot, and no later act does.
  predicate LatestSave(acts: seq<Act>, i: nat, slot: Slot) {
    i < |acts| && acts[i].Save? && acts[i].slot == slot &&
    forall k :: i < k < |acts| && acts[k].Save? ==> acts[k].slot != slot
  }

  // The table holds the latest save of a slot, with the end that the clock of that act gave it.
  lemma {:induction false} HoldsLatest(d: Shelf, acts: seq<Act>, slot: Slot) returns (i: nat)
    requires slot in Exec(d, acts).responses && slot !in d.responses
    ensures LatestSave(acts, i, slot)
    ensures Exec(d, acts).responses[slot] == Response(acts[i].payload, Exec(d, acts[..i]).now + RESPONSE_TTL)
  {
    var last := |acts| - 1;
    if acts[last].Save? && acts[last].slot == slot {
      i := last;
    } else {
      i := HoldsLatest(d, acts[..last], slot);
      assert acts[..last][..i] == acts[..i];
      assert forall k :: i < k < last ==> acts[..last][k] == acts[k];
    }
  }

  lemma {:induction false} SavedIsHeld(d: Shelf, acts: seq<Act>, i: nat, slot: Slot)
    requires i < |acts| && acts[i].Save? && acts[i].slot == slot
    ensures slot in Exec(d, acts).responses
  {
    if i < |acts| - 1 { SavedIsHeld(d, acts[..|acts| - 1], i, slot); }
  }

  // A poll reads p exactly when the latest save of its slot was of p and is less than five minutes old.
  lemma PollReadsLatestSave(d: Shelf, acts: seq<Act>, slot: Slot, p: string)
    requires slot !in d.responses
    ensures Poll(Exec(d, acts), slot) == Some(p) <==>
            exists i: nat :: LatestSave(acts, i, slot) && acts[i].payload == p &&
                        Exec(d, acts).now < Exec(d, acts[..i]).now + 5 * MINUTE
  {
    if slot in Exec(d, acts).responses {
      var k := HoldsLatest(d, acts, slot);
      assert forall i: nat :: LatestSave(acts, i, slot) ==> i == k;
    } else {
      forall i: nat ensures !LatestSave(acts, i, slot) {
        if LatestSave(acts, i, slot) { SavedIsHeld(d, acts, i, slot); }
      }
    }
  }
}
