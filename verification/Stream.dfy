/** A stream's bounded frame buffer and the reader that drains it by cursor. */
module Stream {
  import opened Common

  type Id = string

  type Frame = string

  /** streamBufferCap. */
  const CAP: nat := 2000

  datatype Session = Session(frames: seq<Frame>, dropped: nat, closed: bool)

  /** What DrainStream returns. */
  datatype Batch = Batch(frames: seq<Frame>, cursor: int, closed: bool)

  function Pushed(s: Session, f: Frame): Session
  {
    var all := s.frames + [f];
    if |all| > CAP then s.(frames := all[|all| - CAP..], dropped := s.dropped + (|all| - CAP))
    else s.(frames := all)
  }

  /** Where a cursor points in the buffer: clamped at both ends. */
  function Start(s: Session, cursor: int): (i: nat)
    ensures i <= |s.frames|
  {
    if cursor - s.dropped < 0 then 0
    else if cursor - s.dropped > |s.frames| then |s.frames|
    else cursor - s.dropped
  }

  function DrainOf(s: Session, cursor: int): Batch
  {
    Batch(s.frames[Start(s, cursor)..], s.dropped + |s.frames|, s.closed)
  }

  // ---- Runs of one producer and one reader ----------------------------------

  datatype Event = Push(frame: Frame) | Close | Drain

  datatype Delivery = Delivery(at: int, frame: Frame)

  /**
   * `log` is every frame ever pushed; the reader starts at cursor 0 and passes on the cursor it was
   * given. `got` is what it was handed, each frame with the position its cursor counts it at; `totals`
   * are the cursors it was handed. A session drained after it closed is released.
   */
  datatype World = World(
    session: Option<Session>, log: seq<Frame>, cursor: int, got: seq<Delivery>, totals: seq<int>)

  const OPENED: World := World(Some(Session([], 0, false)), [], 0, [], [])

  function Handed(b: Batch): seq<Delivery>
  {
    seq(|b.frames|, i requires 0 <= i < |b.frames| => Delivery(b.cursor - |b.frames| + i, b.frames[i]))
  }

  function Step(w: World, e: Event): World
  {
    match e
    case Push(f) =>
      w.(log := w.log + [f], session := if w.session.Some? then Some(Pushed(w.session.value, f)) else None)
    case Close =>
      w.(session := if w.session.Some? then Some(w.session.value.(closed := true)) else None)
    case Drain =>
      if w.session.None? then w
      else
        var b := DrainOf(w.session.value, w.cursor);
        w.(session := if b.closed then None else w.session, cursor := b.cursor, got := w.got + Handed(b),
        totals := w.totals + [b.cursor])
  }

  function Run(events: seq<Event>): World
    decreases |events|
  {
    if events == [] then OPENED else Step(Run(events[..|events| - 1]), events[|events| - 1])
  }

  // ---- What every run keeps -------------------------------------------------

  /** The buffer is the last min(total, 2000) frames; `dropped` counts the rest. */
  ghost predicate IsTail(s: Session, log: seq<Frame>)
  {
    s.dropped == Max(0, |log| - 2000) && s.frames == log[s.dropped..]
  }

  /** The first drain that came after position p was written saw this many frames. */
  ghost function SeenAt(totals: seq<int>, p: int): int
  {
    if totals == [] then p else if totals[0] > p then totals[0] else SeenAt(totals[1..], p)
  }

  ghost predicate InOrder(got: seq<Delivery>, log: seq<Frame>, cursor: int)
  {
    (forall i, j :: 0 <= i < j < |got| ==> got[i].at < got[j].at) &&
    forall i :: 0 <= i < |got| ==> 0 <= got[i].at < cursor && got[i].at < |log| && got[i].frame == log[got[i].at]
  }

  ghost predicate Got(got: seq<Delivery>, p: int)
  {
    exists i :: 0 <= i < |got| && got[i].at == p
  }

  ghost predicate Inv(w: World)
  {
    (w.session.Some? ==> IsTail(w.session.value, w.log)) && 0 <= w.cursor <= |w.log| &&
    InOrder(w.got, w.log, w.cursor) &&
    (w.totals == [] ==> w.cursor == 0) &&
    (w.totals != [] ==> w.totals[|w.totals| - 1] == w.cursor) &&
    (forall i, j :: 0 <= i < j < |w.totals| ==> w.totals[i] <= w.totals[j]) &&
    forall p :: 0 <= p < w.cursor ==> (Got(w.got, p) <==> SeenAt(w.totals, p) - p <= 2000)
  }

  lemma PushKeepsTail(s: Session, log: seq<Frame>, f: Frame)
    requires IsTail(s, log)
    ensures IsTail(Pushed(s, f), log + [f])
  {
    var all := s.frames + [f];
    assert (log + [f])[s.dropped..] == all;
    if |all| > 2000 {
      assert (log + [f])[s.dropped + 1..] == all[1..];
    }
  }

  lemma {:induction false} SeenLater(totals: seq<int>, total: int, p: int)
    requires forall i, j :: 0 <= i < j < |totals| ==> totals[i] <= totals[j]
    ensures totals != [] && p < totals[|totals| - 1] ==> SeenAt(totals + [total], p) == SeenAt(totals, p)
    ensures (totals == [] || totals[|totals| - 1] <= p) && p < total ==> SeenAt(totals + [total], p) == total
    decreases |totals|
  {
    if totals != [] {
      assert (totals + [total])[1..] == totals[1..] + [total];
      SeenLater(totals[1..], total, p);
    }
  }

  lemma HandedAre(s: Session, log: seq<Frame>, cursor: int, i: nat)
    requires IsTail(s, log) && 0 <= cursor <= |log| && i < |Handed(DrainOf(s, cursor))|
    ensures var d := Handed(DrainOf(s, cursor))[i];
      d.at == Max(cursor, s.dropped) + i && d.at < |log| && d.frame == log[d.at]
  {
  }

  /** One drain hands over the positions from the cursor on that are still buffered, and no other. */
  lemma HandedOnce(s: Session, log: seq<Frame>, cursor: int, p: int)
    requires IsTail(s, log) && 0 <= cursor <= |log|
    ensures Got(Handed(DrainOf(s, cursor)), p) <==> cursor <= p < |log| && |log| - p <= 2000
  {
    var h := Handed(DrainOf(s, cursor));
    forall i | 0 <= i < |h| ensures h[i].at == Max(cursor, s.dropped) + i {
      HandedAre(s, log, cursor, i);
    }
    assert |h| == |log| - Max(cursor, s.dropped);
    if Max(cursor, s.dropped) <= p < |log| {
      assert h[p - Max(cursor, s.dropped)].at == p;
    }
  }

  lemma DrainKeepsOrder(w: World)
    requires Inv(w) && w.session.Some?
    ensures InOrder(Step(w, Drain).got, w.log, |w.log|)
  {
    var s := w.session.value;
    var more := Handed(DrainOf(s, w.cursor));
    forall i: nat | i < |more|
      ensures more[i].at == Max(w.cursor, s.dropped) + i && more[i].at < |w.log| && more[i].frame == w.log[more[i].at]
    {
      HandedAre(s, w.log, w.cursor, i);
    }
    OrderGoesOn(w.got, more, w.log, w.cursor, Max(w.cursor, s.dropped));
  }

  /** Deliveries of consecutive positions from the cursor on go on in order. */
  lemma OrderGoesOn(got: seq<Delivery>, more: seq<Delivery>, log: seq<Frame>, cursor: int, start: int)
    requires InOrder(got, log, cursor) && 0 <= cursor <= start
    requires forall i :: 0 <= i < |more| ==>
      more[i].at == start + i && more[i].at < |log| && more[i].frame == log[more[i].at]
    ensures InOrder(got + more, log, |log|)
  {
    var all := got + more;
    forall i | 0 <= i < |all| ensures 0 <= all[i].at < |log| && all[i].frame == log[all[i].at] {
      assert all[i] == if i < |got| then got[i] else more[i - |got|];
    }
  }

  lemma GotBoth(a: seq<Delivery>, b: seq<Delivery>, p: int)
    ensures Got(a + b, p) <==> Got(a, p) || Got(b, p)
  {
    if Got(a, p) {
      var i :| 0 <= i < |a| && a[i].at == p;
      assert (a + b)[i].at == p;
    }
    if Got(b, p) {
      var i :| 0 <= i < |b| && b[i].at == p;
      assert (a + b)[|a| + i].at == p;
    }
  }

  lemma DrainKeeps(w: World)
    requires Inv(w)
    ensures Inv(Step(w, Drain))
  {
    if w.session.Some? {
      var s := w.session.value;
      var w' := Step(w, Drain);
      DrainKeepsOrder(w);
      assert w'.cursor == |w.log|;
      forall p | 0 <= p < |w.log| ensures Got(w'.got, p) <==> SeenAt(w'.totals, p) - p <= 2000 {
        GotBoth(w.got, Handed(DrainOf(s, w.cursor)), p);
        HandedOnce(s, w.log, w.cursor, p);
        SeenLater(w.totals, |w.log|, p);
      }
    }
  }

  lemma StepKeeps(w: World, e: Event)
    requires Inv(w)
    ensures Inv(Step(w, e))
  {
    match e
    case Push(f) =>
      if w.session.Some? {
        PushKeepsTail(w.session.value, w.log, f);
      }
    case Close =>
    case Drain => DrainKeeps(w);
  }

  lemma {:induction false} RunKeeps(events: seq<Event>)
    ensures Inv(Run(events))
    decreases |events|
  {
    if events != [] {
      RunKeeps(events[..|events| - 1]);
      StepKeeps(Run(events[..|events| - 1]), events[|events| - 1]);
    }
  }

  // ---- The promises ---------------------------------------------------------

  /** In every run the buffer is exactly the last 2000 frames of the log, or all of it. */
  lemma BufferIsTail(events: seq<Event>)
    requires Run(events).session.Some?
    ensures var w := Run(events); var s := w.session.value;
      s.frames == w.log[Max(0, |w.log| - 2000)..] && s.dropped + |s.frames| == |w.log|
  {
    RunKeeps(events);
  }

  /**
   * Chained drains hand over strictly increasing log positions, each with the frame written there, and
   * skip exactly the frames more than 2000 behind the end when the first drain after them came.
   */
  lemma DrainsSkipOnlyEvicted(events: seq<Event>, p: int)
    ensures var w := Run(events);
      InOrder(w.got, w.log, w.cursor) &&
      (0 <= p < w.cursor ==> (Got(w.got, p) <==> SeenAt(w.totals, p) - p <= 2000))
  {
    RunKeeps(events);
  }

  /** No drain came more than 2000 frames after the one before it. */
  ghost predicate KeptUp(totals: seq<int>)
  {
    (totals != [] ==> totals[0] <= 2000) && forall i :: 0 < i < |totals| ==> totals[i] - totals[i - 1] <= 2000
  }

  lemma {:induction false} SeenSoon(totals: seq<int>, from: int, p: int)
    requires from <= p && (totals != [] ==> totals[0] - from <= 2000 && p < totals[|totals| - 1])
    requires forall i :: 0 < i < |totals| ==> totals[i] - totals[i - 1] <= 2000
    ensures SeenAt(totals, p) - p <= 2000
    decreases |totals|
  {
    if totals != [] && totals[0] <= p {
      SeenSoon(totals[1..], totals[0], p);
    }
  }

  lemma GotNothing(got: seq<Delivery>, log: seq<Frame>, n: nat)
    requires InOrder(got, log, n)
    ensures got != [] ==> n > 0
  {
    if got != [] {
      assert got[0].at < n;
    }
  }

  lemma LastIsGreatest(got: seq<Delivery>, log: seq<Frame>, n: nat, k: nat)
    requires InOrder(got, log, n) && k < |got|
    ensures var last := |got| - 1; 0 <= got[last].at < n && (k == last || got[k].at < got[last].at)
  {
  }

  lemma {:induction false} GotAll(got: seq<Delivery>, log: seq<Frame>, n: nat)
    requires n <= |log| && InOrder(got, log, n) && forall p :: 0 <= p < n ==> Got(got, p)
    ensures |got| == n && forall i :: 0 <= i < n ==> got[i] == Delivery(i, log[i])
    decreases n
  {
    GotNothing(got, log, n);
    if n > 0 {
      assert Got(got, n - 1);
      var k :| 0 <= k < |got| && got[k].at == n - 1;
      var last := |got| - 1;
      LastIsGreatest(got, log, n, k);
      var rest := got[..last];
      forall p | 0 <= p < n - 1 ensures Got(rest, p) {
        assert Got(got, p);
        var i :| 0 <= i < |got| && got[i].at == p;
        assert rest[i].at == p;
      }
      GotAll(rest, log, n - 1);
      assert forall i :: 0 <= i < last ==> got[i] == rest[i];
    }
  }

  /** A reader never more than 2000 behind is handed the whole log, once, in order. */
  lemma ReaderThatKeepsUpMissesNothing(events: seq<Event>)
    requires KeptUp(Run(events).totals)
    ensures var w := Run(events);
      |w.got| == w.cursor <= |w.log| && forall i :: 0 <= i < w.cursor ==> w.got[i] == Delivery(i, w.log[i])
  {
    RunKeeps(events);
    var w := Run(events);
    forall p | 0 <= p < w.cursor ensures Got(w.got, p) {
      SeenSoon(w.totals, 0, p);
    }
    GotAll(w.got, w.log, w.cursor);
  }

  /** Nothing is pushed once the session is closed. */
  ghost predicate QuietAfterClose(events: seq<Event>)
  {
    forall i, j :: 0 <= i < j < |events| && events[i].Close? ==> !events[j].Push?
  }

  lemma {:induction false} ClosedByEvent(events: seq<Event>)
    ensures var w := Run(events);
      w.session.None? || w.session.value.closed ==> exists i :: 0 <= i < |events| && events[i].Close?
    decreases |events|
  {
    if events != [] {
      var n := |events| - 1;
      ClosedByEvent(events[..n]);
      assert forall i :: 0 <= i < n ==> events[..n][i] == events[i];
    }
  }

  /** A frame is pushed after the session was released. */
  ghost predicate PushedTooLate(events: seq<Event>)
  {
    exists j :: 0 <= j < |events| && events[j].Push? && Run(events[..j]).session.None?
  }

  lemma {:induction false} ReleasedForGood(events: seq<Event>, j: nat)
    requires j <= |events| && Run(events[..j]).session.None?
    ensures Run(events).session.None?
    decreases |events|
  {
    if j < |events| {
      assert events[..|events| - 1][..j] == events[..j];
      ReleasedForGood(events[..|events| - 1], j);
    } else {
      assert events[..j] == events;
    }
  }

  lemma TooLateSoFar(events: seq<Event>, e: Event)
    ensures PushedTooLate(events + [e]) <==> PushedTooLate(events) || (e.Push? && Run(events).session.None?)
  {
    var all := events + [e];
    assert all[..|events|] == events;
    forall j | 0 <= j < |events| ensures all[..j] == events[..j] && all[j] == events[j] {
    }
    if PushedTooLate(events) {
      var j :| 0 <= j < |events| && events[j].Push? && Run(events[..j]).session.None?;
      assert all[j].Push? && Run(all[..j]).session.None?;
    }
    if e.Push? && Run(events).session.None? {
      assert all[|events|].Push?;
    }
  }

  lemma NotYetTooLate(events: seq<Event>)
    requires Run(events).session.Some?
    ensures !PushedTooLate(events)
  {
    if PushedTooLate(events) {
      var j :| 0 <= j < |events| && events[j].Push? && Run(events[..j]).session.None?;
      ReleasedForGood(events, j);
    }
  }

  /** The drain that releases a closed session leaves no frame behind, unless one is pushed after it. */
  lemma {:induction false} FinalDrainIsCompleteIff(events: seq<Event>)
    requires Run(events).session.None?
    ensures Run(events).cursor == |Run(events).log| <==> !PushedTooLate(events)
    decreases |events|
  {
    var start, e := events[..|events| - 1], events[|events| - 1];
    assert events == start + [e];
    TooLateSoFar(start, e);
    RunKeeps(start);
    if Run(start).session.None? {
      FinalDrainIsCompleteIff(start);
    } else {
      NotYetTooLate(start);
    }
  }

  /** So nothing is lost when no frame is pushed once the session is closed. */
  lemma QuietCloseLosesNothing(events: seq<Event>)
    requires QuietAfterClose(events) && Run(events).session.None?
    ensures Run(events).cursor == |Run(events).log|
  {
    forall j | 0 <= j < |events| && Run(events[..j]).session.None? ensures !events[j].Push? {
      ClosedByEvent(events[..j]);
      var i :| 0 <= i < j && events[..j][i].Close?;
      assert events[i].Close?;
    }
    FinalDrainIsCompleteIff(events);
  }

  lemma RunMore(events: seq<Event>, e: Event)
    ensures Run(events + [e]) == Step(Run(events), e)
  {
    assert (events + [e])[..|events|] == events;
  }

  /** And without that quiet it can: a frame pushed after the final drain is never handed over. */
  lemma LatePushIsLost()
    ensures var w := Run([Close, Drain, Push("late"), Drain]);
      w.log == ["late"] && w.got == [] && w.session.None?
  {
    RunMore([], Close);
    RunMore([Close], Drain);
    RunMore([Close, Drain], Push("late"));
    RunMore([Close, Drain, Push("late")], Drain);
    assert [] + [Close] == [Close] && [Close] + [Drain] == [Close, Drain];
    assert [Close, Drain] + [Push("late")] == [Close, Drain, Push("late")];
    assert [Close, Drain, Push("late")] + [Drain] == [Close, Drain, Push("late"), Drain];
    assert Run([Close]) == OPENED.(session := Some(Session([], 0, true)));
    assert Run([Close, Drain]) == World(None, [], 0, [], [0]);
  }

  // ---- The sessions themselves ----------------------------------------------

  class StreamSession {
    var frames: seq<Frame>
    var dropped: nat
    var closed: bool

    function Contents(): Session
      reads this
    {
      Session(frames, dropped, closed)
    }

    constructor ()
      ensures Contents() == Session([], 0, false)
    {
      frames, dropped, closed := [], 0, false;
    }

    method PushFrame(f: Frame)
      modifies this
      ensures Contents() == Pushed(old(Contents()), f)
    {
      frames := frames + [f];
      var over := |frames| - CAP;
      if over > 0 {
        frames := frames[over..];
        dropped := dropped + over;
      }
    }

    method MarkClosed()
      modifies this`closed
      ensures Contents() == old(Contents()).(closed := true)
    {
      closed := true;
    }
  }

  class App {
    var sessions: map<Id, StreamSession>

    constructor ()
      ensures sessions == map[]
    {
      sessions := map[];
    }

    /** A session nobody knows any more counts as closed, so that the reader stops asking. */
    method DrainStream(id: Id, cursor: int) returns (b: Batch)
      modifies this
      ensures id !in old(sessions) ==> b == Batch([], cursor, true) && sessions == old(sessions)
      ensures id in old(sessions) ==> b == DrainOf(old(sessions)[id].Contents(), cursor)
      ensures id in old(sessions) ==> sessions == if b.closed then old(sessions) - {id} else old(sessions)
    {
      if id !in sessions {
        return Batch([], cursor, true);
      }
      var s := sessions[id];
      var start := cursor - s.dropped;
      if start < 0 {
        start := 0;
      }
      if start > |s.frames| {
        start := |s.frames|;
      }
      var out := s.frames[start..];
      var next := s.dropped + |s.frames|;
      var closed := s.closed;
      if closed {
        sessions := sessions - {id};
      }
      b := Batch(out, next, closed);
    }
  }
}
