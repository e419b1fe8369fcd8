/** Boxes on a conveyor: a short queue of the boxes on the line, the box last taken off it,
    the assignment of images to boxes, and verdicts that mark a box bad once. */
module BoxResult {
  import opened Basics

  const RESULT_NG := 0
  const WAIGUAN_GAP := 3000

  datatype Box = Box(
    objectId: uint64, generateTime: uint64, good: bool, images: map<uint64, nat>, results: map<uint64, int>)

  datatype Config = Config(queueLen: nat, minElapsed: nat, useBarCoder: bool) {
    predicate Valid() {
      queueLen == 2 || queueLen == 3
    }
  }

  /** A box that left the queue, and when; `popped` tells it from one dropped at the end. */
  datatype Departure = Departure(objectId: uint64, generateTime: uint64, popped: bool, at: uint64)

  /** `failed` lists the boxes counted as bad, `blamed` those that some bad verdict was on. */
  datatype History = History(entered: seq<uint64>, departures: seq<Departure>, failed: seq<uint64>, blamed: set<uint64>)

  datatype State = State(queue: seq<Box>, boxPoped: Box, found: bool, waiguanFirstTime: uint64, total: int, ng: int,
                         clock: uint64, history: History)

  /** `now` is the clock at the event, `later` when the popping code reads it again. */
  datatype Event =
    | Image(imageId: uint64, cameraId: nat, now: uint64, later: uint64, connected: bool)
    | BarCode(now: uint64)
    | Verdict(objectId: uint64, imageId: uint64, result: int)

  /** Time does not run backwards. */
  predicate Enabled(s: State, e: Event) {
    match e
    case Image(_, _, now, later, _) => s.clock <= now <= later
    case BarCode(now) => s.clock <= now
    case Verdict(_, _, _) => true
  }

  /** The box slot and the flag hold anything at first, except that no image is in it. */
  function Initial(slot: Box, found: bool): State {
    State([], slot.(images := map[], results := map[]), found, 0, 0, 0, 0, History([], [], [], {}))
  }

  // ------------------------------------------------------------------------ steps

  function Enqueue(c: Config, s: State, now: uint64): State {
    var q := [Box(now, now, true, map[], map[])] + s.queue;
    var t := s.(total := s.total + 1, history := s.history.(entered := s.history.entered + [now]));
    if |q| > c.queueLen then
      var last := q[|q| - 1];
      t.(queue := q[..|q| - 1],
         history :=
           t.history.(departures := t.history.departures + [Departure(last.objectId, last.generateTime, false, now)]))
    else t.(queue := q)
  }

  function Dequeue(c: Config, s: State, now: uint64): State {
    var t := s.(found := false);
    if s.queue == [] then t
    else
      var last := s.queue[|s.queue| - 1];
      if now >= last.generateTime + c.minElapsed then
        t.(found := true, boxPoped := last, queue := s.queue[..|s.queue| - 1],
           history :=
             s.history.(departures := s.history.departures + [Departure(last.objectId, last.generateTime, true, now)]))
      else t
  }

  function AddImage(b: Box, imageId: uint64, cameraId: nat): Box {
    b.(images := b.images[imageId := cameraId])
  }

  function ToFront(s: State, imageId: uint64, cameraId: nat): State {
    if s.queue == [] then s else s.(queue := s.queue[0 := AddImage(s.queue[0], imageId, cameraId)])
  }

  function OnImage(c: Config, s: State, e: Event): State
    requires e.Image?
  {
    if e.cameraId == 1 then ToFront(Enqueue(c, s, e.now), e.imageId, 1)
    else if e.cameraId == 2 || e.cameraId == 3 then ToFront(s, e.imageId, e.cameraId)
    else
      var first := e.now - s.waiguanFirstTime >= WAIGUAN_GAP;
      var t := if first then s.(waiguanFirstTime := e.now) else s;
      var u := if !(c.useBarCoder && e.connected) && first then Dequeue(c, t, e.later) else t;
      if u.found then u.(boxPoped := AddImage(u.boxPoped, e.imageId, e.cameraId)) else u
  }

  /** The queue is searched from the newest box on, then the popped box. */
  function IndexOf(queue: seq<Box>, objectId: uint64): (k: nat)
    ensures k <= |queue| && (k < |queue| ==> queue[k].objectId == objectId)
    ensures forall r :: 0 <= r < k ==> queue[r].objectId != objectId
  {
    if queue == [] || queue[0].objectId == objectId then 0 else 1 + IndexOf(queue[1..], objectId)
  }

  datatype Place = InQueue(k: nat) | Popped | Nowhere

  function Locate(queue: seq<Box>, popped: Box, objectId: uint64): (place: Place)
    ensures place.InQueue? ==> place.k < |queue| && queue[place.k].objectId == objectId
    ensures place.Popped? ==> popped.objectId == objectId
    ensures !place.InQueue? <==> forall r :: 0 <= r < |queue| ==> queue[r].objectId != objectId
  {
    var k := IndexOf(queue, objectId);
    if k < |queue| then InQueue(k) else if popped.objectId == objectId then Popped else Nowhere
  }

  /** A bad verdict makes a good box bad. */
  function Judge(b: Box, imageId: uint64, result: int): Box {
    b.(results := b.results[imageId := result], good := b.good && result != RESULT_NG)
  }

  function CountFailure(s: State, b: Box, result: int): State {
    if result != RESULT_NG then s
    else
      var t := s.(history := s.history.(blamed := s.history.blamed + {b.objectId}));
      if b.good then t.(ng := t.ng + 1, history := t.history.(failed := t.history.failed + [b.objectId])) else t
  }

  function OnVerdict(s: State, e: Event): State
    requires e.Verdict?
  {
    var k := IndexOf(s.queue, e.objectId);
    if k < |s.queue| then
      if e.imageId !in s.queue[k].images then s
      else CountFailure(s, s.queue[k], e.result).(queue := s.queue[k := Judge(s.queue[k], e.imageId, e.result)])
    else if s.boxPoped.objectId == e.objectId && e.imageId in s.boxPoped.images then
      CountFailure(s, s.boxPoped, e.result).(boxPoped := Judge(s.boxPoped, e.imageId, e.result))
    else s
  }

  function Step(c: Config, s: State, e: Event): State {
    match e
    case Image(_, _, _, later, _) => OnImage(c, s, e).(clock := later)
    case BarCode(now) => Dequeue(c, s, now).(clock := now)
    case Verdict(_, _, _) => OnVerdict(s, e)
  }

  // ------------------------------------------------------------- the steps in full

  /** A new box enters in front, good and empty; the oldest leaves when it would be one too many. */
  lemma BoxEnters(c: Config, s: State, now: uint64)
    requires |s.queue| <= c.queueLen
    ensures var t, all := Enqueue(c, s, now), [Box(now, now, true, map[], map[])] + s.queue;
      && t.queue == (if |s.queue| == c.queueLen then all[..c.queueLen] else all) && t.total == s.total + 1
      && t.ng == s.ng && t.boxPoped == s.boxPoped && t.found == s.found && t.waiguanFirstTime == s.waiguanFirstTime
  {
  }

  /** The oldest box is taken off when it is `minElapsed` old, and not before. */
  lemma BoxLeaves(c: Config, s: State, now: uint64)
    ensures var t, n := Dequeue(c, s, now), |s.queue|;
      && (t.found <==> n > 0 && now >= s.queue[n - 1].generateTime + c.minElapsed)
      && t.queue == (if t.found then s.queue[..n - 1] else s.queue)
      && t.boxPoped == (if t.found then s.queue[n - 1] else s.boxPoped)
      && t.total == s.total && t.ng == s.ng && t.waiguanFirstTime == s.waiguanFirstTime
  {
  }

  predicate Shows(b: Box, t: Box, imageId: uint64, cameraId: nat) {
    t == Box(b.objectId, b.generateTime, b.good, b.images[imageId := cameraId], b.results)
  }

  /** Camera 1 starts a box; cameras 2 and 3 add to the newest. */
  lemma LineImage(c: Config, s: State, e: Event)
    requires e.Image? && e.cameraId in {1, 2, 3}
    ensures var u := if e.cameraId == 1 then Enqueue(c, s, e.now) else s;
      var t := Step(c, s, e);
      && t.boxPoped == s.boxPoped && t.found == s.found && t.total == u.total && t.ng == s.ng
      && t.waiguanFirstTime == s.waiguanFirstTime && |t.queue| == |u.queue|
      && (u.queue != [] ==>
            Shows(u.queue[0], t.queue[0], e.imageId, e.cameraId) && t.queue[1..] == u.queue[1..])
  {
  }

  /** The other cameras see the box last taken off. The first of their images for three seconds
      takes the next one off, unless a connected bar code reader does. */
  lemma WrapperImage(c: Config, s: State, e: Event)
    requires e.Image? && e.cameraId !in {1, 2, 3}
    ensures var t, first := Step(c, s, e), e.now >= s.waiguanFirstTime + 3000;
      var u := if first && !(c.useBarCoder && e.connected) then Dequeue(c, s, e.later) else s;
      && t.waiguanFirstTime == (if first then e.now else s.waiguanFirstTime)
      && t.queue == u.queue && t.found == u.found && t.total == s.total && t.ng == s.ng
      && if t.found then Shows(u.boxPoped, t.boxPoped, e.imageId, e.cameraId) else t.boxPoped == u.boxPoped
  {
  }

  /** What a verdict does to the box that has the image: it is recorded, and a bad one makes a
      good box bad and counts it. */
  predicate Judged(b: Box, t: Box, imageId: uint64, result: int) {
    t == Box(b.objectId, b.generateTime, b.good && result != 0, b.images, b.results[imageId := result])
  }

  /** A verdict goes to the newest box of its id on the line, and otherwise to the popped box; it
      changes nothing when that box does not have the image. */
  lemma VerdictInFull(c: Config, s: State, e: Event, place: Place)
    requires e.Verdict?
    requires match place
      case InQueue(k) =>
        k < |s.queue| && s.queue[k].objectId == e.objectId
        && forall r :: 0 <= r < k ==> s.queue[r].objectId != e.objectId
      case Popped =>
        s.boxPoped.objectId == e.objectId && forall r :: 0 <= r < |s.queue| ==> s.queue[r].objectId != e.objectId
      case Nowhere =>
        s.boxPoped.objectId != e.objectId && forall r :: 0 <= r < |s.queue| ==> s.queue[r].objectId != e.objectId
    ensures var t := Step(c, s, e);
      var b := if place.InQueue? then s.queue[place.k] else s.boxPoped;
      if place.Nowhere? || e.imageId !in b.images then t == s
      else
        && |t.queue| == |s.queue| && t.found == s.found && t.total == s.total && t.clock == s.clock
        && t.ng == (if b.good && e.result == 0 then s.ng + 1 else s.ng)
        && (place.Popped? ==> t.queue == s.queue && Judged(b, t.boxPoped, e.imageId, e.result))
        && (place.InQueue? ==>
              t.boxPoped == s.boxPoped && Judged(b, t.queue[place.k], e.imageId, e.result)
              && forall r :: 0 <= r < |s.queue| && r != place.k ==> t.queue[r] == s.queue[r])
  {
    var i := IndexOf(s.queue, e.objectId);
    assert place.InQueue? ==> i == place.k;
    assert !place.InQueue? ==> i == |s.queue|;
  }

  ghost predicate Run(c: Config, slot: Box, found: bool, events: seq<Event>, s: State)
    decreases |events|
  {
    if events == [] then s == Initial(slot, found)
    else
      var n := |events| - 1;
      exists t :: Run(c, slot, found, events[..n], t) && Enabled(t, events[n]) && s == Step(c, t, events[n])
  }

  // -------------------------------------------------------------------- invariants

  function Ids(queue: seq<Box>): (ids: seq<uint64>)
    ensures |ids| == |queue|
  {
    seq(|queue|, i requires 0 <= i < |queue| => queue[|queue| - 1 - i].objectId)
  }

  function Left(departures: seq<Departure>): (ids: seq<uint64>)
    ensures |ids| == |departures|
  {
    seq(|departures|, i requires 0 <= i < |departures| => departures[i].objectId)
  }

  /** Entered is left followed by queued, oldest first: boxes leave in the order they came,
      and none is lost or doubled. */
  predicate FirstInFirstOut(s: State) {
    s.history.entered == Left(s.history.departures) + Ids(s.queue) && s.total == |s.history.entered|
  }

  predicate NewestFirst(s: State) {
    (forall i, j :: 0 <= i < j < |s.queue| ==> s.queue[i].generateTime >= s.queue[j].generateTime)
    && forall i :: 0 <= i < |s.queue| ==> s.queue[i].generateTime <= s.clock
  }

  predicate DwellKept(c: Config, s: State) {
    forall k :: 0 <= k < |s.history.departures| ==>
      var d := s.history.departures[k];
      d.popped ==> d.at >= d.generateTime + c.minElapsed
  }

  predicate Inv(c: Config, s: State) {
    |s.queue| <= c.queueLen && FirstInFirstOut(s) && NewestFirst(s) && DwellKept(c, s) && s.ng == |s.history.failed|
  }

  lemma IdsFront(b: Box, queue: seq<Box>)
    ensures Ids([b] + queue) == Ids(queue) + [b.objectId]
  {
  }

  lemma IdsLast(queue: seq<Box>)
    requires queue != []
    ensures Ids(queue) == [queue[|queue| - 1].objectId] + Ids(queue[..|queue| - 1])
  {
  }

  lemma LeftOneMore(ds: seq<Departure>, d: Departure)
    ensures Left(ds + [d]) == Left(ds) + [d.objectId]
  {
  }

  lemma EnqueueInOrder(c: Config, s: State, now: uint64)
    requires c.Valid() && FirstInFirstOut(s)
    ensures FirstInFirstOut(Enqueue(c, s, now))
  {
    var b, h := Box(now, now, true, map[], map[]), s.history;
    var q := [b] + s.queue;
    IdsFront(b, s.queue);
    assert h.entered + [now] == Left(h.departures) + Ids(q);
    if |q| > c.queueLen {
      var last := q[|q| - 1];
      var d := Departure(last.objectId, last.generateTime, false, now);
      IdsLast(q);
      LeftOneMore(h.departures, d);
      assert Left(h.departures) + [d.objectId] + Ids(q[..|q| - 1])
        == Left(h.departures) + ([d.objectId] + Ids(q[..|q| - 1]));
    }
  }

  lemma EnqueueKeeps(c: Config, s: State, now: uint64)
    requires c.Valid() && Inv(c, s) && s.clock <= now
    ensures Inv(c, Enqueue(c, s, now).(clock := now))
  {
    hide Ids, Left;
    EnqueueInOrder(c, s, now);
  }

  lemma DequeueKeeps(c: Config, s: State, now: uint64)
    requires Inv(c, s) && s.clock <= now
    ensures Inv(c, Dequeue(c, s, now).(clock := now))
  {
    if s.queue != [] {
      var h, last := s.history, s.queue[|s.queue| - 1];
      var d := Departure(last.objectId, last.generateTime, true, now);
      var q := s.queue[..|s.queue| - 1];
      IdsLast(s.queue);
      LeftOneMore(h.departures, d);
      assert Left(h.departures) + [d.objectId] + Ids(q) == Left(h.departures) + ([d.objectId] + Ids(q));
    }
  }

  /** Changing what is recorded about a box moves nothing. */
  lemma SameLine(c: Config, s: State, k: nat, b: Box)
    requires Inv(c, s) && k < |s.queue| && b.objectId == s.queue[k].objectId
      && b.generateTime == s.queue[k].generateTime
    ensures Inv(c, s.(queue := s.queue[k := b]))
  {
    assert Ids(s.queue[k := b]) == Ids(s.queue);
  }

  /** The invariant does not look at the slot for the popped box, and time may pass. */
  lemma ElsewhereKeeps(c: Config, s: State, t: State)
    requires Inv(c, s) && s.clock <= t.clock
    requires t.queue == s.queue && t.history == s.history && t.total == s.total && t.ng == s.ng
    ensures Inv(c, t)
  {
    hide Left, Ids;
  }

  lemma FrontKeeps(c: Config, s: State, imageId: uint64, cameraId: nat)
    requires Inv(c, s)
    ensures Inv(c, ToFront(s, imageId, cameraId))
  {
    hide Inv;
    if s.queue != [] {
      SameLine(c, s, 0, AddImage(s.queue[0], imageId, cameraId));
    }
  }

  lemma ImageKeeps(c: Config, s: State, e: Event)
    requires c.Valid() && Inv(c, s) && Enabled(s, e) && e.Image?
    ensures Inv(c, Step(c, s, e))
  {
    hide Inv, Enqueue, Dequeue, ToFront;
    var r := OnImage(c, s, e);
    if e.cameraId == 1 {
      EnqueueKeeps(c, s, e.now);
      FrontKeeps(c, Enqueue(c, s, e.now).(clock := e.now), e.imageId, 1);
      FrontClock(Enqueue(c, s, e.now), e.now, e.imageId, 1);
      ElsewhereKeeps(c, r.(clock := e.now), r.(clock := e.later));
    } else if e.cameraId == 2 || e.cameraId == 3 {
      FrontKeeps(c, s, e.imageId, e.cameraId);
      FrontClock(s, s.clock, e.imageId, e.cameraId);
      ElsewhereKeeps(c, r, r.(clock := e.later));
    } else {
      WrapperKeeps(c, s, e);
    }
  }

  lemma FrontClock(s: State, clock: uint64, imageId: uint64, cameraId: nat)
    ensures ToFront(s.(clock := clock), imageId, cameraId) == ToFront(s, imageId, cameraId).(clock := clock)
    ensures ToFront(s, imageId, cameraId).clock == s.clock
  {
  }

  lemma WrapperKeeps(c: Config, s: State, e: Event)
    requires Inv(c, s) && Enabled(s, e) && e.Image? && e.cameraId !in {1, 2, 3}
    ensures Inv(c, Step(c, s, e))
  {
    hide Inv, Enqueue, Dequeue, ToFront;
    var first := e.now - s.waiguanFirstTime >= WAIGUAN_GAP;
    var t := if first then s.(waiguanFirstTime := e.now) else s;
    ElsewhereKeeps(c, s, t);
    var u := if !(c.useBarCoder && e.connected) && first then Dequeue(c, t, e.later) else t;
    DequeueKeeps(c, t, e.later);
    ElsewhereKeeps(c, t, t.(clock := e.later));
    assert Inv(c, u.(clock := e.later));
    ElsewhereKeeps(c, u.(clock := e.later), OnImage(c, s, e).(clock := e.later));
  }

  lemma CountKeeps(c: Config, s: State, b: Box, result: int)
    requires Inv(c, s)
    ensures Inv(c, CountFailure(s, b, result)) && CountFailure(s, b, result).queue == s.queue
  {
    hide Left, Ids;
  }

  lemma VerdictKeeps(c: Config, s: State, e: Event)
    requires Inv(c, s) && e.Verdict?
    ensures Inv(c, OnVerdict(s, e))
  {
    hide Inv, CountFailure;
    var k := IndexOf(s.queue, e.objectId);
    if k < |s.queue| {
      CountKeeps(c, s, s.queue[k], e.result);
      SameLine(c, CountFailure(s, s.queue[k], e.result), k, Judge(s.queue[k], e.imageId, e.result));
    } else {
      CountKeeps(c, s, s.boxPoped, e.result);
      var t := CountFailure(s, s.boxPoped, e.result);
      ElsewhereKeeps(c, t, t.(boxPoped := Judge(s.boxPoped, e.imageId, e.result)));
    }
  }

  lemma StepKeeps(c: Config, s: State, e: Event)
    requires c.Valid() && Inv(c, s) && Enabled(s, e)
    ensures Inv(c, Step(c, s, e))
  {
    hide Inv, OnVerdict, OnImage, Dequeue;
    match e
    case Image(_, _, _, _, _) => ImageKeeps(c, s, e);
    case BarCode(now) => DequeueKeeps(c, s, now);
    case Verdict(_, _, _) => VerdictKeeps(c, s, e);
  }

  lemma {:induction false} RunKeeps(c: Config, slot: Box, found: bool, events: seq<Event>, s: State)
    requires c.Valid() && Run(c, slot, found, events, s)
    ensures Inv(c, s)
    decreases |events|
  {
    hide Step, Inv;
    if events == [] {
      InitialInv(c, slot, found);
    } else {
      var n := |events| - 1;
      var t :| Run(c, slot, found, events[..n], t) && Enabled(t, events[n]) && s == Step(c, t, events[n]);
      RunKeeps(c, slot, found, events[..n], t);
      StepKeeps(c, t, events[n]);
    }
  }

  lemma InitialInv(c: Config, slot: Box, found: bool)
    ensures Inv(c, Initial(slot, found))
  {
  }

  /** Boxes leave the queue in the order they entered it. */
  lemma LeaveInOrder(c: Config, slot: Box, found: bool, events: seq<Event>, s: State)
    requires c.Valid() && Run(c, slot, found, events, s)
    ensures Left(s.history.departures) <= s.history.entered
    ensures |s.history.entered| == |s.queue| + |s.history.departures| && |s.queue| <= 3
  {
    RunKeeps(c, slot, found, events, s);
  }

  // --------------------------------------------------------------- each box fails once

  /** Ids that may be in the slot for the popped box. */
  function SlotIds(slot: Box, s: State): seq<uint64> {
    [slot.objectId] + Left(s.history.departures)
  }

  /** A box that has failed is marked bad wherever it is, in the queue or in the slot. */
  predicate FailedAreBad(slot: Box, s: State) {
    Distinct(s.history.failed)
    && (forall i :: 0 <= i < |s.queue| && s.queue[i].good ==> s.queue[i].objectId !in s.history.failed)
    && (s.boxPoped.good ==> s.boxPoped.objectId !in s.history.failed)
    && s.boxPoped.objectId in SlotIds(slot, s)
    && forall x :: x in s.history.failed ==> x in [slot.objectId] + s.history.entered
  }

  lemma QueueApartFromSlot(c: Config, slot: Box, s: State)
    requires FirstInFirstOut(s) && Distinct([slot.objectId] + s.history.entered)
    ensures forall i :: 0 <= i < |s.queue| ==> s.queue[i].objectId !in SlotIds(slot, s)
    ensures forall i, j :: 0 <= i < j < |s.queue| ==> s.queue[i].objectId != s.queue[j].objectId
  {
    var all, d, n := [slot.objectId] + s.history.entered, |s.history.departures|, |s.queue|;
    forall i | 0 <= i < n
      ensures all[1 + n + d - 1 - i] == s.queue[i].objectId
    {
      assert Ids(s.queue)[n - 1 - i] == s.queue[i].objectId;
    }
    assert all[..1 + d] == SlotIds(slot, s);
    assert forall k :: 0 <= k < 1 + d ==> all[k] == SlotIds(slot, s)[k];
  }

  lemma FailOnceStep(c: Config, slot: Box, s: State, e: Event)
    requires c.Valid() && Inv(c, s) && Enabled(s, e) && FailedAreBad(slot, s)
    requires Distinct([slot.objectId] + Step(c, s, e).history.entered)
    ensures FailedAreBad(slot, Step(c, s, e))
  {
    hide Inv, FailedAreBad, OnImage, OnVerdict, Dequeue, Distinct;
    match e
    case Image(_, _, _, later, _) =>
      FailOnceImage(c, slot, s, e);
      FailOnceElsewhere(slot, OnImage(c, s, e), OnImage(c, s, e).(clock := later));
    case BarCode(now) =>
      FailOnceDequeue(c, slot, s, now);
      FailOnceElsewhere(slot, Dequeue(c, s, now), Dequeue(c, s, now).(clock := now));
    case Verdict(objectId, imageId, result) =>
      VerdictEnters(s, e);
      FailOnceVerdict(c, slot, s, e);
  }

  lemma VerdictEnters(s: State, e: Event)
    requires e.Verdict?
    ensures OnVerdict(s, e).history.entered == s.history.entered
    ensures OnVerdict(s, e).history.departures == s.history.departures
  {
  }

  /** Neither the clocks nor the images of the popped box matter. */
  lemma FailOnceElsewhere(slot: Box, s: State, t: State)
    requires FailedAreBad(slot, s)
    requires t.queue == s.queue && t.history == s.history
    requires t.boxPoped.objectId == s.boxPoped.objectId && t.boxPoped.good == s.boxPoped.good
    ensures FailedAreBad(slot, t)
  {
    hide Left, Distinct;
  }

  lemma FailOnceImage(c: Config, slot: Box, s: State, e: Event)
    requires c.Valid() && e.Image? && FailedAreBad(slot, s)
    requires Distinct([slot.objectId] + OnImage(c, s, e).history.entered)
    ensures FailedAreBad(slot, OnImage(c, s, e))
  {
    hide FailedAreBad, Dequeue, ToFront, Distinct;
    if e.cameraId == 1 {
      FrontEnters(Enqueue(c, s, e.now), e.imageId, 1);
      FailOnceEnqueue(c, slot, s, e.now);
      FailOnceFront(slot, Enqueue(c, s, e.now), e.imageId, 1);
    } else if e.cameraId == 2 || e.cameraId == 3 {
      FailOnceFront(slot, s, e.imageId, e.cameraId);
    } else {
      var first := e.now - s.waiguanFirstTime >= WAIGUAN_GAP;
      var t := if first then s.(waiguanFirstTime := e.now) else s;
      FailOnceElsewhere(slot, s, t);
      FailOnceDequeue(c, slot, t, e.later);
      var u := if !(c.useBarCoder && e.connected) && first then Dequeue(c, t, e.later) else t;
      FailOnceElsewhere(slot, u, OnImage(c, s, e));
    }
  }

  lemma FrontEnters(s: State, imageId: uint64, cameraId: nat)
    ensures ToFront(s, imageId, cameraId).history == s.history
  {
  }

  lemma FailOnceFront(slot: Box, s: State, imageId: uint64, cameraId: nat)
    requires FailedAreBad(slot, s)
    ensures FailedAreBad(slot, ToFront(s, imageId, cameraId))
  {
  }

  lemma FailOnceEnqueue(c: Config, slot: Box, s: State, now: uint64)
    requires c.Valid() && FailedAreBad(slot, s) && Distinct([slot.objectId] + (s.history.entered + [now]))
    ensures FailedAreBad(slot, Enqueue(c, s, now))
  {
    var t := Enqueue(c, s, now);
    var all := [slot.objectId] + (s.history.entered + [now]);
    assert all[|all| - 1] == now && all[..|all| - 1] == [slot.objectId] + s.history.entered;
    assert now !in all[..|all| - 1];
    assert forall x :: x in SlotIds(slot, s) ==> x in SlotIds(slot, t) by {
      assert SlotIds(slot, s) <= SlotIds(slot, t) by {
        if |t.history.departures| > |s.history.departures| {
          LeftOneMore(s.history.departures, t.history.departures[|s.history.departures|]);
        }
      }
    }
    assert forall x :: x in [slot.objectId] + s.history.entered ==> x in [slot.objectId] + t.history.entered;
  }

  lemma FailOnceDequeue(c: Config, slot: Box, s: State, now: uint64)
    requires FailedAreBad(slot, s)
    ensures FailedAreBad(slot, Dequeue(c, s, now))
  {
    var t := Dequeue(c, s, now);
    if |t.history.departures| > |s.history.departures| {
      LeftOneMore(s.history.departures, t.history.departures[|s.history.departures|]);
      assert SlotIds(slot, t)[|SlotIds(slot, t)| - 1] == t.boxPoped.objectId;
    }
  }

  /** The ids of the line and the slot are among those that were ever there. */
  lemma OnceThere(slot: Box, s: State)
    requires FirstInFirstOut(s)
    ensures forall k :: 0 <= k < |s.queue| ==> s.queue[k].objectId in s.history.entered
    ensures forall x :: x in SlotIds(slot, s) ==> x in [slot.objectId] + s.history.entered
  {
    forall k | 0 <= k < |s.queue|
      ensures s.queue[k].objectId in s.history.entered
    {
      assert Ids(s.queue)[|s.queue| - 1 - k] in s.history.entered;
    }
  }

  /** Box b, in a place of its own, is judged: what is marked stays marked. */
  lemma FailOnceBox(slot: Box, s: State, b: Box, result: int, t: State)
    requires FailedAreBad(slot, s) && t == CountFailure(s, b, result)
    requires b.good ==> b.objectId !in s.history.failed
    requires b.objectId in [slot.objectId] + s.history.entered
    ensures Distinct(t.history.failed)
    ensures forall x ::
      x in t.history.failed <==> x in s.history.failed || (result == RESULT_NG && b.good && x == b.objectId)
    ensures forall x :: x in t.history.failed ==> x in [slot.objectId] + t.history.entered
    ensures t.history.entered == s.history.entered && t.history.departures == s.history.departures
    ensures t.queue == s.queue && t.boxPoped == s.boxPoped
  {
    hide Left;
  }

  lemma FailOnceVerdict(c: Config, slot: Box, s: State, e: Event)
    requires Inv(c, s) && e.Verdict? && FailedAreBad(slot, s) && Distinct([slot.objectId] + s.history.entered)
    ensures FailedAreBad(slot, OnVerdict(s, e))
  {
    QueueApartFromSlot(c, slot, s);
    OnceThere(slot, s);
    hide Left, Ids, Distinct, CountFailure, NewestFirst, DwellKept, FirstInFirstOut;
    var k := IndexOf(s.queue, e.objectId);
    if k < |s.queue| {
      FailOnceBox(slot, s, s.queue[k], e.result, CountFailure(s, s.queue[k], e.result));
    } else if s.boxPoped.objectId == e.objectId {
      FailOnceBox(slot, s, s.boxPoped, e.result, CountFailure(s, s.boxPoped, e.result));
    }
  }

  lemma EnteredGrows(c: Config, s: State, e: Event)
    ensures s.history.entered <= Step(c, s, e).history.entered
  {
  }

  /** With distinct box ids, each box adds to the NG count at most once. */
  lemma {:induction false} FailsOnce(c: Config, slot: Box, found: bool, events: seq<Event>, s: State)
    requires c.Valid() && Run(c, slot, found, events, s) && Distinct([slot.objectId] + s.history.entered)
    ensures FailedAreBad(slot, s)
    ensures s.ng == |s.history.failed| && Distinct(s.history.failed)
    decreases |events|
  {
    hide Step, Inv, FailedAreBad;
    RunKeeps(c, slot, found, events, s);
    InvCounts(c, s);
    if events == [] {
      InitialFails(slot, found);
    } else {
      var n := |events| - 1;
      var t :| Run(c, slot, found, events[..n], t) && Enabled(t, events[n]) && s == Step(c, t, events[n]);
      EnteredGrows(c, t, events[n]);
      var all := [slot.objectId] + s.history.entered;
      assert [slot.objectId] + t.history.entered == all[..1 + |t.history.entered|];
      FailsOnce(c, slot, found, events[..n], t);
      RunKeeps(c, slot, found, events[..n], t);
      FailOnceStep(c, slot, t, events[n]);
    }
    FailedDistinct(slot, s);
  }

  lemma InvCounts(c: Config, s: State)
    requires Inv(c, s)
    ensures s.ng == |s.history.failed|
  {
  }

  lemma InitialFails(slot: Box, found: bool)
    ensures FailedAreBad(slot, Initial(slot, found))
  {
    assert SlotIds(slot, Initial(slot, found))[0] == slot.objectId;
  }

  lemma FailedDistinct(slot: Box, s: State)
    requires FailedAreBad(slot, s)
    ensures Distinct(s.history.failed)
  {
  }

  // ------------------------------------------------- failed is blamed, and counted

  /** The slot's first occupant may have been bad from the start. */
  predicate Failed(slot: Box, h: History, id: uint64) {
    id in h.failed || (!slot.good && id == slot.objectId)
  }

  /** A bad box has been counted; and those counted are those with a bad verdict. */
  predicate BadAreCounted(slot: Box, s: State) {
    (forall i :: 0 <= i < |s.queue| && !s.queue[i].good ==> Failed(slot, s.history, s.queue[i].objectId))
    && (!s.boxPoped.good ==> Failed(slot, s.history, s.boxPoped.objectId))
    && (forall x :: x in s.history.blamed ==> Failed(slot, s.history, x))
    && (forall x :: x in s.history.failed ==> x in s.history.blamed)
  }

  lemma CountedElsewhere(slot: Box, s: State, t: State)
    requires BadAreCounted(slot, s)
    requires t.queue == s.queue && t.history == s.history
    requires t.boxPoped.objectId == s.boxPoped.objectId && t.boxPoped.good == s.boxPoped.good
    ensures BadAreCounted(slot, t)
  {
  }

  lemma CountedMoves(c: Config, slot: Box, s: State, now: uint64, imageId: uint64, cameraId: nat)
    requires c.Valid() && BadAreCounted(slot, s)
    ensures BadAreCounted(slot, Enqueue(c, s, now))
    ensures BadAreCounted(slot, Dequeue(c, s, now))
    ensures BadAreCounted(slot, ToFront(s, imageId, cameraId))
  {
  }

  lemma CountedVerdict(slot: Box, s: State, e: Event)
    requires e.Verdict? && BadAreCounted(slot, s)
    ensures BadAreCounted(slot, OnVerdict(s, e))
  {
  }

  lemma CountedStep(c: Config, slot: Box, s: State, e: Event)
    requires c.Valid() && BadAreCounted(slot, s)
    ensures BadAreCounted(slot, Step(c, s, e))
  {
    hide BadAreCounted, OnVerdict, Enqueue, Dequeue, ToFront;
    match e
    case Image(imageId, cameraId, now, later, connected) =>
      if cameraId == 1 {
        CountedMoves(c, slot, s, now, imageId, cameraId);
        CountedMoves(c, slot, Enqueue(c, s, now), now, imageId, cameraId);
      } else if cameraId == 2 || cameraId == 3 {
        CountedMoves(c, slot, s, now, imageId, cameraId);
      } else {
        var first := now - s.waiguanFirstTime >= WAIGUAN_GAP;
        var t := if first then s.(waiguanFirstTime := now) else s;
        CountedElsewhere(slot, s, t);
        CountedMoves(c, slot, t, later, imageId, cameraId);
        var u := if !(c.useBarCoder && connected) && first then Dequeue(c, t, later) else t;
        CountedElsewhere(slot, u, OnImage(c, s, e));
      }
      CountedElsewhere(slot, OnImage(c, s, e), Step(c, s, e));
    case BarCode(now) =>
      CountedMoves(c, slot, s, now, 0, 0);
      CountedElsewhere(slot, Dequeue(c, s, now), Step(c, s, e));
    case Verdict(_, _, _) => CountedVerdict(slot, s, e);
  }

  lemma {:induction false} RunCounts(c: Config, slot: Box, found: bool, events: seq<Event>, s: State)
    requires c.Valid() && Run(c, slot, found, events, s)
    ensures BadAreCounted(slot, s)
    decreases |events|
  {
    hide Step, BadAreCounted;
    if events == [] {
      InitialCounts(slot, found);
    } else {
      var n := |events| - 1;
      var t :| Run(c, slot, found, events[..n], t) && Enabled(t, events[n]) && s == Step(c, t, events[n]);
      RunCounts(c, slot, found, events[..n], t);
      CountedStep(c, slot, t, events[n]);
    }
  }

  lemma InitialCounts(slot: Box, found: bool)
    ensures BadAreCounted(slot, Initial(slot, found))
  {
  }

  function IdSet(ids: seq<uint64>): set<uint64> {
    set x | x in ids
  }

  lemma {:induction false} DistinctSize(ids: seq<uint64>)
    requires Distinct(ids)
    ensures |IdSet(ids)| == |ids|
  {
    if ids == [] {
      assert IdSet(ids) == {};
    } else {
      var front, last := ids[..|ids| - 1], ids[|ids| - 1];
      DistinctSize(front);
      assert ids == front + [last] && last !in front;
      assert IdSet(ids) == IdSet(front) + {last} && last !in IdSet(front);
    }
  }

  /** The NG count is the number of boxes that a bad verdict was on, however many bad images
      each had and whether or not it was popped between them. */
  lemma NgCountsBoxes(c: Config, slot: Box, found: bool, events: seq<Event>, s: State)
    requires c.Valid() && Run(c, slot, found, events, s) && Distinct([slot.objectId] + s.history.entered)
    requires slot.good
    ensures s.ng == |s.history.blamed|
  {
    hide Run, FailedAreBad;
    FailsOnce(c, slot, found, events, s);
    RunCounts(c, slot, found, events, s);
    DistinctSize(s.history.failed);
    assert s.history.blamed == IdSet(s.history.failed);
  }

  // --------------------------------------------------------------------- the object

  class CBoxResult {
    const config: Config
    var queue: seq<Box>
    var boxPoped: Box
    var boxFoundFromQueue: bool
    var isWaiguanFirst: bool
    var waiguanFirstTime: uint64
    var total: int
    var ng: int
    ghost var clock: uint64
    ghost var history: History

    ghost function Model(): State
      reads this
    {
      State(queue, boxPoped, boxFoundFromQueue, waiguanFirstTime, total, ng, clock, history)
    }

    constructor (config: Config, slot: Box, found: bool)
      requires config.Valid()
      ensures Model() == Initial(slot, found) && this.config == config
    {
      this.config := config;
      queue, boxPoped, boxFoundFromQueue := [], slot.(images := map[], results := map[]), found;
      isWaiguanFirst, waiguanFirstTime, total, ng, clock := false, 0, 0, 0, 0;
      history := History([], [], [], {});
    }

    method EnqueueBox(currTime: uint64)
      modifies this`queue, this`total, this`history
      ensures Model() == Enqueue(config, old(Model()), currTime)
    {
      var box := Box(currTime, currTime, true, map[], map[]);
      queue := [box] + queue;
      total := total + 1;
      history := history.(entered := history.entered + [currTime]);
      if |queue| > config.queueLen {
        ghost var last := queue[|queue| - 1];
        history :=
          history.(departures := history.departures + [Departure(last.objectId, last.generateTime, false, currTime)]);
        queue := queue[..|queue| - 1];
      }
    }

    method DequeueBox(now: uint64) returns (ok: bool)
      modifies this`queue, this`boxPoped, this`boxFoundFromQueue, this`history
      ensures Model() == Dequeue(config, old(Model()), now) && ok == boxFoundFromQueue
    {
      boxFoundFromQueue := false;
      if queue == [] {
        return false;
      }
      var box := queue[|queue| - 1];
      if now >= box.generateTime + config.minElapsed {
        boxFoundFromQueue := true;
        boxPoped := box;
        queue := queue[..|queue| - 1];
        history := history.(departures := history.departures + [Departure(box.objectId, box.generateTime, true, now)]);
        return true;
      }
      return false;
    }

    /** Assigns an image to a box; the result is the box's id, or none. */
    method PreInferAsync(imageId: uint64, cameraId: nat, now: uint64, later: uint64, connected: bool)
        returns (objectId: seq<uint64>)
      requires config.Valid() && clock <= now <= later
      modifies this
      ensures Model() == Step(config, old(Model()), Image(imageId, cameraId, now, later, connected))
      ensures cameraId in {1, 2, 3} ==> objectId == if queue == [] then [] else [queue[0].objectId]
      ensures cameraId in {1, 2, 3} && queue != [] ==>
        imageId in queue[0].images && queue[0].images[imageId] == cameraId
      ensures cameraId !in {1, 2, 3} ==> objectId == if boxFoundFromQueue then [boxPoped.objectId] else []
      ensures cameraId !in {1, 2, 3} && boxFoundFromQueue ==>
        imageId in boxPoped.images && boxPoped.images[imageId] == cameraId
    {
      objectId := [];
      if cameraId == 1 {
        EnqueueBox(now);
        objectId := [queue[0].objectId];
        queue := queue[0 := queue[0].(images := queue[0].images[imageId := cameraId])];
      } else if cameraId == 2 || cameraId == 3 {
        if queue != [] {
          objectId := [queue[0].objectId];
          queue := queue[0 := queue[0].(images := queue[0].images[imageId := cameraId])];
        }
      } else {
        if now - waiguanFirstTime >= WAIGUAN_GAP {
          isWaiguanFirst := true;
          waiguanFirstTime := now;
        } else {
          isWaiguanFirst := false;
        }
        if !(config.useBarCoder && connected) && isWaiguanFirst {
          var _ := DequeueBox(later);
        }
        if boxFoundFromQueue {
          objectId := [boxPoped.objectId];
          boxPoped := boxPoped.(images := boxPoped.images[imageId := cameraId]);
        }
      }
      clock := later;
    }

    method OnBarCode(now: uint64)
      requires clock <= now
      modifies this
      ensures Model() == Step(config, old(Model()), BarCode(now))
    {
      var _ := DequeueBox(now);
      clock := now;
    }

    /** The newest box of that id in the queue, otherwise the popped box if it has the id. */
    method FindBox(objectId: uint64) returns (place: Place)
      ensures place == Locate(queue, boxPoped, objectId)
    {
      var k := 0;
      while k < |queue|
        invariant k <= |queue| && IndexOf(queue, objectId) == k + IndexOf(queue[k..], objectId)
      {
        assert queue[k..][0] == queue[k] && queue[k..][1..] == queue[k + 1..];
        if queue[k].objectId == objectId {
          return InQueue(k);
        }
        k := k + 1;
      }
      if boxPoped.objectId == objectId {
        return Popped;
      }
      return Nowhere;
    }

    method OnImageResult(objectId: uint64, imageId: uint64, result: int)
      modifies this
      ensures Model() == Step(config, old(Model()), Verdict(objectId, imageId, result))
    {
      hide IndexOf;
      var place := FindBox(objectId);
      if place.Nowhere? {
        return;
      }
      var box := if place.InQueue? then queue[place.k] else boxPoped;
      if imageId !in box.images {
        return;
      }
      box := box.(results := box.results[imageId := result]);
      if result == RESULT_NG {
        history := history.(blamed := history.blamed + {objectId});
        if box.good {
          box := box.(good := false);
          ng := ng + 1;
          history := history.(failed := history.failed + [objectId]);
        }
      }
      if place.InQueue? {
        queue := queue[place.k := box];
      } else {
        boxPoped := box;
      }
    }
  }
}
