/**
 * The response slots of a ServiceActionHandle: a flag that says a call is being
 * handled and the response stored meanwhile. Goal, cancel and service calls all
 * use one.
 */
module Handshake {
  import opened Types

  /** handlingGoal with goalResponse, or handlingCancel with cancelResponse. */
  datatype Slot = Slot(response: Option<Message>, handling: bool)

  const EmptySlot := Slot(None, false)

  /** Before a request is sent: forget any response, then raise the flag. */
  function Arm(s: Slot): Slot {
    Slot(None, true)
  }

  /** handle() of a response: dropped unless the flag is up. */
  function Offer(s: Slot, m: Message): Slot {
    if s.handling then s.(response := Some(m)) else s
  }

  /** When the waiting call returns. */
  function Close(s: Slot): Slot {
    s.(handling := false)
  }

  datatype SlotEvent = Armed | Offered(message: Message) | Closed

  function SlotStep(s: Slot, e: SlotEvent): Slot {
    match e
    case Armed => Arm(s)
    case Offered(m) => Offer(s, m)
    case Closed => Close(s)
  }

  function SlotAfter(es: seq<SlotEvent>): Slot
    decreases |es|
  {
    if es == [] then EmptySlot else SlotStep(SlotAfter(es[..|es| - 1]), es[|es| - 1])
  }

  /** The flag is up before event j: some arming precedes it with no closing in between. */
  ghost predicate FlagUp(es: seq<SlotEvent>, j: nat)
    requires j <= |es|
  {
    exists i :: 0 <= i < j && es[i].Armed? && forall k :: i < k < j ==> !es[k].Closed?
  }

  /** Event j is a response that arrived while the flag was up, and no arming or such response follows it. */
  ghost predicate LastHeard(es: seq<SlotEvent>, j: nat)
    requires j < |es|
  {
    && es[j].Offered? && FlagUp(es, j)
    && forall k :: j < k < |es| ==> !es[k].Armed? && !(es[k].Offered? && FlagUp(es, k))
  }

  lemma FlagUpBy(es: seq<SlotEvent>, i: nat, j: nat)
    requires i < j <= |es| && es[i].Armed? && forall k :: i < k < j ==> !es[k].Closed?
    ensures FlagUp(es, j)
  {
  }

  lemma {:induction false} FlagIsUp(es: seq<SlotEvent>)
    ensures SlotAfter(es).handling <==> FlagUp(es, |es|)
    decreases |es|
  {
    if es != [] {
      var last := |es| - 1;
      var before := es[..last];
      FlagIsUp(before);
      match es[last]
      case Armed =>
        FlagUpBy(es, last, |es|);
      case Offered(_) =>
        if FlagUp(before, last) {
          var i :| 0 <= i < last && before[i].Armed? && forall k :: i < k < last ==> !before[k].Closed?;
          FlagUpBy(es, i, |es|);
        }
        if FlagUp(es, |es|) {
          var i :| 0 <= i < |es| && es[i].Armed? && forall k :: i < k < |es| ==> !es[k].Closed?;
          FlagUpBy(before, i, last);
        }
      case Closed =>
    }
  }

  lemma FlagUpPrefix(es: seq<SlotEvent>, more: seq<SlotEvent>, j: nat)
    requires j <= |es|
    ensures FlagUp(es + more, j) <==> FlagUp(es, j)
  {
    if FlagUp(es, j) {
      var i :| 0 <= i < j && es[i].Armed? && forall k :: i < k < j ==> !es[k].Closed?;
      FlagUpBy(es + more, i, j);
    }
    if FlagUp(es + more, j) {
      var i :| 0 <= i < j && (es + more)[i].Armed? && forall k :: i < k < j ==> !(es + more)[k].Closed?;
      forall k | i < k < j
        ensures !es[k].Closed?
      {
        assert (es + more)[k] == es[k];
      }
      FlagUpBy(es, i, j);
    }
  }

  lemma LastHeardSnoc(es: seq<SlotEvent>, e: SlotEvent, j: nat)
    requires j < |es|
    ensures LastHeard(es + [e], j) <==>
            LastHeard(es, j) && !e.Armed? && !(e.Offered? && SlotAfter(es).handling)
  {
    var all := es + [e];
    assert all[..|es|] == es;
    FlagUpPrefix(es, [e], j);
    FlagUpPrefix(es, [e], |es|);
    FlagIsUp(es);
    forall k | j < k < |es|
      ensures FlagUp(all, k) <==> FlagUp(es, k)
    {
      FlagUpPrefix(es, [e], k);
    }
    if LastHeard(all, j) {
      assert !all[|es|].Armed? && !(all[|es|].Offered? && FlagUp(all, |es|));
      forall k | j < k < |es|
        ensures !es[k].Armed? && !(es[k].Offered? && FlagUp(es, k))
      {
        assert all[k] == es[k];
      }
    }
  }

  /**
   * Handshake isolation: after any history the stored response is the last
   * response that arrived while the flag was up since the last arming, and
   * there is none exactly when no such response arrived. Late, duplicate
   * and wrong-phase responses do not show.
   */
  lemma {:induction false} ResponseIsLastHeard(es: seq<SlotEvent>, m: Message)
    ensures SlotAfter(es).response == Some(m) <==> exists j :: 0 <= j < |es| && LastHeard(es, j) && es[j] == Offered(m)
    decreases |es|
  {
    if es != [] {
      var last := |es| - 1;
      var before, e := es[..last], es[last];
      assert es == before + [e];
      ResponseIsLastHeard(before, m);
      FlagIsUp(before);
      FlagUpPrefix(before, [e], last);
      forall j | 0 <= j < last
        ensures LastHeard(es, j) <==> LastHeard(before, j) && !e.Armed? && !(e.Offered? && SlotAfter(before).handling)
      {
        LastHeardSnoc(before, e, j);
      }
      if e.Offered? && SlotAfter(before).handling { assert LastHeard(es, last); }
      if SlotAfter(before).response == Some(m) {
        var j :| 0 <= j < last && LastHeard(before, j) && before[j] == Offered(m);
        assert es[j] == before[j];
      }
    }
  }

  /** A response, once the call has returned, stays as it is until the slot is armed again. */
  lemma {:induction false} FrozenUntilArmed(s: Slot, es: seq<SlotEvent>)
    requires !s.handling && forall i :: 0 <= i < |es| ==> !es[i].Armed?
    ensures SlotFrom(s, es) == s
    decreases |es|
  {
    if es != [] { FrozenUntilArmed(s, es[..|es| - 1]); }
  }

  function SlotFrom(s: Slot, es: seq<SlotEvent>): Slot
    decreases |es|
  {
    if es == [] then s else SlotStep(SlotFrom(s, es[..|es| - 1]), es[|es| - 1])
  }
}
