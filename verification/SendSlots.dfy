/** The slot through which a running send can be cancelled. */
module SendSlots {
  type Id = string

  datatype Send = Send(request: Id, running: bool, cancelled: bool)

  /** A slot names the send that owns it; sends are numbered in the order they registered. */
  datatype State = State(sends: seq<Send>, slots: map<Id, nat>)

  datatype Event = Begin(request: Id) | Finish(i: nat) | Cancel(request: Id)

  function Apply(s: State, e: Event): State
  {
    match e
    case Begin(id) => State(s.sends + [Send(id, true, false)], s.slots[id := |s.sends|])
    case Finish(i) =>
      if i >= |s.sends| || !s.sends[i].running then s
      else
        var id := s.sends[i].request;
        State(s.sends[i := s.sends[i].(running := false)],
          if id in s.slots && s.slots[id] == i then s.slots - {id} else s.slots)
    case Cancel(id) =>
      if id in s.slots && s.slots[id] < |s.sends|
      then s.(sends := s.sends[s.slots[id] := s.sends[s.slots[id]].(cancelled := true)])
      else s
  }

  function Run(events: seq<Event>): State
    decreases |events|
  {
    if events == [] then State([], map[]) else Apply(Run(events[..|events| - 1]), events[|events| - 1])
  }

  /** No send of the same request began after this one. */
  ghost predicate Newest(s: State, i: nat)
    requires i < |s.sends|
  {
    forall j :: i < j < |s.sends| ==> s.sends[j].request != s.sends[i].request
  }

  predicate Owns(s: State, i: nat)
    requires i < |s.sends|
  {
    s.sends[i].request in s.slots && s.slots[s.sends[i].request] == i
  }

  ghost predicate SlotsFit(s: State)
  {
    (forall id :: id in s.slots ==> s.slots[id] < |s.sends| && s.sends[s.slots[id]].request == id) &&
    forall i :: 0 <= i < |s.sends| ==> (Owns(s, i) <==> s.sends[i].running && Newest(s, i))
  }

  lemma BeginFits(s: State, id: Id)
    requires SlotsFit(s)
    ensures SlotsFit(Apply(s, Begin(id)))
  {
    var t := Apply(s, Begin(id));
    var n := |s.sends|;
    assert t.sends[n].request == id && forall j :: 0 <= j < n ==> t.sends[j] == s.sends[j];
    forall i | 0 <= i < n ensures Newest(t, i) <==> Newest(s, i) && s.sends[i].request != id {
      if Newest(s, i) && s.sends[i].request != id {
        assert forall j :: i < j < n ==> s.sends[j].request != s.sends[i].request;
      }
      if Newest(t, i) {
        assert forall j :: i < j < n ==> t.sends[j].request == s.sends[j].request;
      }
    }
    forall i | 0 <= i < n ensures Owns(t, i) <==> t.sends[i].running && Newest(t, i) {
      assert Owns(t, i) <==> Owns(s, i) && s.sends[i].request != id;
    }
  }

  lemma OtherEventFits(s: State, e: Event)
    requires SlotsFit(s) && !e.Begin?
    ensures SlotsFit(Apply(s, e))
  {
    var t := Apply(s, e);
    assert |t.sends| == |s.sends| && forall j :: 0 <= j < |s.sends| ==> t.sends[j].request == s.sends[j].request;
    forall i | 0 <= i < |s.sends| ensures Newest(t, i) <==> Newest(s, i) {
    }
  }

  lemma StepFits(s: State, e: Event)
    requires SlotsFit(s)
    ensures SlotsFit(Apply(s, e))
  {
    if e.Begin? {
      BeginFits(s, e.request);
    } else {
      OtherEventFits(s, e);
    }
  }

  /**
   * In every run of overlapping sends, a slot belongs to a running send: exactly to the one begun last for
   * its request. So that send can be cancelled however the older ones end, and an older one cannot.
   */
  lemma {:induction false} NewestRunningSendOwnsTheSlot(events: seq<Event>)
    ensures SlotsFit(Run(events))
    decreases |events|
  {
    if events != [] {
      NewestRunningSendOwnsTheSlot(events[..|events| - 1]);
      StepFits(Run(events[..|events| - 1]), events[|events| - 1]);
    }
  }

  /** What a cancel reaches: the newest send of the request if it still runs, and nothing else. */
  lemma CancelReachesTheNewest(events: seq<Event>, id: Id, i: nat)
    requires i < |Run(events).sends|
    ensures var s, t := Run(events), Apply(Run(events), Cancel(id));
      |t.sends| == |s.sends| &&
      t.sends[i] == if s.sends[i].request == id && s.sends[i].running && Newest(s, i)
                    then s.sends[i].(cancelled := true) else s.sends[i]
  {
    NewestRunningSendOwnsTheSlot(events);
  }
}
