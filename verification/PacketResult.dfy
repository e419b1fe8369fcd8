/** Packets of images: arriving images are assigned to packets by time, verdicts on images
    are recorded, and a packet leaves with a kick decision when its verdicts are complete
    or it is overdue. Hash tables are iterated in an arbitrary order, which each event
    that iterates brings along. */
module PacketResult {
  import opened Basics

  const RESULT_NG: uint16 := 0

  function Distance(a: uint64, b: uint64): uint64 {
    if a > b then a - b else if b > a then b - a else 0
  }

  /** Conversion of a verdict to the 16 bits it is stored in. */
  function Stored(result: int): uint16 {
    result % 0x1_0000
  }

  datatype Packet = Packet(
    objectId: uint64, firstImageTime: uint64, images: map<uint64, uint32>, results: map<uint64, uint16>)

  datatype Config = Config(maxInterval: uint64, inferTimeout: uint64)

  /** Everything that has happened: packets created and how they left, in order; which images
      were assigned; which verdicts were recorded, in order; and which packets were settled by
      a time-out, with the images they had and the cameras there were. */
  datatype History = History(
    created: seq<uint64>, overwritten: seq<uint64>, joined: set<Assignment>, judged: seq<Judgement>,
    passed: seq<uint64>, failed: seq<uint64>, expired: seq<uint64>, kicked: seq<uint64>, late: seq<Late>)
  datatype Late = Late(objectId: uint64, images: nat, cameras: int)
  datatype Assignment = Assignment(
    objectId: uint64, imageId: uint64, cameraId: uint32, time: uint64, firstImageTime: uint64)
  datatype Judgement = Judgement(objectId: uint64, imageId: uint64, result: int)

  datatype State = State(packets: map<uint64, Packet>, total: int, ng: int, history: History)

  /** `now` is the clock, `cameras` the number of real cameras online at that moment. */
  datatype Event =
    | Image(imageId: uint64, cameraId: uint32, time: uint64, now: uint64, cameras: int, order: seq<uint64>)
    | Verdict(objectId: uint64, imageId: uint64, result: int, cameras: int)
    | Timeout(now: uint64, cameras: int, order: seq<uint64>)

  predicate Enabled(s: State, e: Event) {
    match e
    case Image(_, _, _, _, _, order) => Enumerates(order, s.packets.Keys)
    case Verdict(_, _, _, _) => true
    case Timeout(_, _, order) => Enumerates(order, s.packets.Keys)
  }

  const INITIAL := State(map[], 0, 0, History([], [], {}, [], [], [], [], [], []))

  // ----------------------------------------------------------------- image arrivals

  predicate Near(c: Config, p: Packet, time: uint64) {
    time <= p.firstImageTime + c.maxInterval && p.firstImageTime <= time + c.maxInterval
  }

  function NearIds(c: Config, packets: map<uint64, Packet>, time: uint64): set<uint64> {
    set id | id in packets && Near(c, packets[id], time)
  }

  predicate Takes(p: Packet, cameraId: uint32, cameras: int) {
    cameraId !in p.images.Values && |p.images| < cameras
  }

  /** The first packet near in time, in iteration order, decides alone. */
  function OnImage(c: Config, s: State, e: Event): State
    requires e.Image?
  {
    var near := FirstIn(e.order, NearIds(c, s.packets, e.time));
    if near.Some? && Takes(s.packets[near.value], e.cameraId, e.cameras) then
      var id := near.value;
      var p := s.packets[id];
      var a := Assignment(id, e.imageId, e.cameraId, e.time, p.firstImageTime);
      s.(packets := s.packets[id := p.(images := p.images[e.imageId := e.cameraId])],
         history := s.history.(joined := s.history.joined + {a}))
    else Started(s, e)
  }

  /** A new packet for the image; one with its id is replaced. */
  function Started(s: State, e: Event): State
    requires e.Image?
  {
    s.(packets := s.packets[e.now := Packet(e.now, e.time, map[e.imageId := e.cameraId], map[])],
       total := s.total + 1,
       history := s.history.(
         created := s.history.created + [e.now],
         overwritten := s.history.overwritten + if e.now in s.packets then [e.now] else [],
         joined := s.history.joined + {Assignment(e.now, e.imageId, e.cameraId, e.time, e.time)}))
  }

  /** The packet that an image goes to. */
  function Target(c: Config, s: State, e: Event): uint64
    requires e.Image?
  {
    var near := FirstIn(e.order, NearIds(c, s.packets, e.time));
    if near.Some? && Takes(s.packets[near.value], e.cameraId, e.cameras) then near.value else e.now
  }

  lemma TargetJoins(c: Config, s: State, e: Event) returns (a: Assignment)
    requires e.Image?
    ensures var t, o := OnImage(c, s, e), Target(c, s, e);
      && o in t.packets && e.imageId in t.packets[o].images && t.packets[o].images[e.imageId] == e.cameraId
      && a.objectId == o && a.imageId == e.imageId && t.history.joined == s.history.joined + {a}
      && t.history.judged == s.history.judged && t.history.late == s.history.late
        && t.history.expired == s.history.expired
  {
    hide NearIds, Takes;
    NearAreLive(c, s.packets, e.time);
    var near := FirstIn(e.order, NearIds(c, s.packets, e.time));
    if near.Some? && Takes(s.packets[near.value], e.cameraId, e.cameras) {
      var p := s.packets[near.value];
      a := Assignment(near.value, e.imageId, e.cameraId, e.time, p.firstImageTime);
    } else {
      a := Assignment(e.now, e.imageId, e.cameraId, e.time, e.time);
    }
  }

  /** An image further than the interval from the first image of every live packet starts a
      new packet. */
  lemma FarStartsNew(c: Config, s: State, e: Event)
    requires e.Image? && Enabled(s, e)
    requires forall id :: id in s.packets ==>
      var first := s.packets[id].firstImageTime;
      e.time > first + c.maxInterval || first > e.time + c.maxInterval
    ensures var t := OnImage(c, s, e);
      t.packets == s.packets[e.now := Packet(e.now, e.time, map[e.imageId := e.cameraId], map[])]
      && t.total == s.total + 1 && t.ng == s.ng && t.history.created == s.history.created + [e.now]
      && Target(c, s, e) == e.now
  {
    NearAreLive(c, s.packets, e.time);
    hide NearIds, Takes;
  }

  /** The first packet in iteration order whose first image is within the interval decides: the
      image joins it when its camera is absent there and a place is free, and otherwise starts
      a new packet. */
  lemma FirstNearDecides(c: Config, s: State, e: Event, k: nat)
    requires e.Image? && Enabled(s, e) && k < |e.order|
    requires var first := s.packets[e.order[k]].firstImageTime;
      e.time <= first + c.maxInterval && first <= e.time + c.maxInterval
    requires forall r :: 0 <= r < k ==>
      var first := s.packets[e.order[r]].firstImageTime;
      e.time > first + c.maxInterval || first > e.time + c.maxInterval
    ensures var id := e.order[k];
      var p := s.packets[id];
      if (forall i :: i in p.images ==> p.images[i] != e.cameraId) && |p.images| < e.cameras then
        && OnImage(c, s, e) == s.(packets := s.packets[id := p.(images := p.images[e.imageId := e.cameraId])],
             history := s.history.(joined := s.history.joined
               + {Assignment(id, e.imageId, e.cameraId, e.time, p.firstImageTime)}))
        && Target(c, s, e) == id
      else
        var t := OnImage(c, s, e);
        t.packets == s.packets[e.now := Packet(e.now, e.time, map[e.imageId := e.cameraId], map[])]
        && t.total == s.total + 1 && t.ng == s.ng && t.history.created == s.history.created + [e.now]
        && Target(c, s, e) == e.now
  {
    hide NearIds, FirstIn, Near, Takes;
    NearAre(c, s.packets, e.time);
    FirstInIs(e.order, NearIds(c, s.packets, e.time), k);
    TakesIff(s.packets[e.order[k]], e.cameraId, e.cameras);
  }

  lemma NearAre(c: Config, packets: map<uint64, Packet>, time: uint64)
    ensures forall id ::
      id in NearIds(c, packets, time) <==>
        id in packets && time <= packets[id].firstImageTime + c.maxInterval
        && packets[id].firstImageTime <= time + c.maxInterval
  {
  }

  lemma TakesIff(p: Packet, cameraId: uint32, cameras: int)
    ensures Takes(p, cameraId, cameras)
       <==> (forall i :: i in p.images ==> p.images[i] != cameraId) && |p.images| < cameras
  {
    if i :| i in p.images && p.images[i] == cameraId {
      assert p.images[i] in p.images.Values;
    }
  }

  /** With one live packet near, that is the one it joins. */
  lemma OnlyNearJoins(c: Config, s: State, e: Event, id: uint64)
    requires e.Image? && Enabled(s, e) && id in s.packets
    requires var first := s.packets[id].firstImageTime;
      e.time <= first + c.maxInterval && first <= e.time + c.maxInterval
    requires forall x :: x in s.packets && x != id ==>
      var first := s.packets[x].firstImageTime;
      e.time > first + c.maxInterval || first > e.time + c.maxInterval
    requires (forall i :: i in s.packets[id].images ==> s.packets[id].images[i] != e.cameraId)
      && |s.packets[id].images| < e.cameras
    ensures var p := s.packets[id];
      OnImage(c, s, e).packets == s.packets[id := p.(images := p.images[e.imageId := e.cameraId])]
      && OnImage(c, s, e).total == s.total && Target(c, s, e) == id
  {
    var k :| 0 <= k < |e.order| && e.order[k] == id;
    FirstNearDecides(c, s, e, k);
  }

  // ---------------------------------------------------------------------- verdicts

  predicate HasNg(p: Packet) {
    RESULT_NG in p.results.Values
  }

  /** The packet leaves with its verdict; `kick` says that a bad verdict is acted on. */
  function Finish(s: State, id: uint64, bad: bool, kick: bool): State {
    var h := s.history;
    s.(packets := s.packets - {id},
       ng := s.ng + (if bad then 1 else 0) + (if bad && kick then 1 else 0),
       history := h.(passed := h.passed + (if bad then [] else [id]),
                     failed := h.failed + (if bad then [id] else []),
                     kicked := h.kicked + (if bad && kick then [id] else [])))
  }

  function Judged(p: Packet, e: Event): Packet
    requires e.Verdict?
  {
    if e.imageId in p.images then p.(results := p.results[e.imageId := Stored(e.result)]) else p
  }

  predicate Complete(p: Packet, cameras: int) {
    |p.results| >= cameras || |p.results| >= |p.images|
  }

  function OnVerdict(s: State, e: Event): State
    requires e.Verdict?
  {
    if e.objectId !in s.packets then s
    else
      var p := Judged(s.packets[e.objectId], e);
      var t := s.(packets := s.packets[e.objectId := p],
                  history := s.history.(judged := s.history.judged +
                    if e.imageId in p.images then [Judgement(e.objectId, e.imageId, e.result)] else []));
      if Complete(p, e.cameras) then Finish(t, e.objectId, HasNg(p), true) else t
  }

  // ---------------------------------------------------------------------- timeouts

  predicate Overdue(c: Config, p: Packet, now: uint64) {
    Minus(now, p.firstImageTime) >= c.inferTimeout
  }

  function OverdueIds(c: Config, packets: map<uint64, Packet>, now: uint64): set<uint64> {
    set id | id in packets && Overdue(c, packets[id], now)
  }

  /** At most one packet per scan. Without any verdict it is dropped; otherwise a bad one is
      kicked only when the packet has as many images as there are cameras. */
  function OnTimeout(c: Config, s: State, e: Event): State
    requires e.Timeout?
  {
    var due := FirstIn(e.order, OverdueIds(c, s.packets, e.now));
    if due.None? then s
    else
      var id := due.value;
      var p := s.packets[id];
      if p.results == map[] then
        s.(packets := s.packets - {id}, history := s.history.(expired := s.history.expired + [id]))
      else
        var h := s.history.(late := s.history.late + [Late(id, |p.images|, e.cameras)]);
        Finish(s.(history := h), id, HasNg(p), |p.images| >= e.cameras)
  }

  /** What settling a packet does to the tables and counters. */
  predicate Settled(s: State, t: State, id: uint64, results: map<uint64, uint16>, kick: bool) {
    var bad := exists i :: i in results && results[i] == 0;
    var h, g := s.history, t.history;
    && t.packets == s.packets - {id} && t.total == s.total
    && t.ng == s.ng + (if !bad then 0 else if kick then 2 else 1)
    && g.passed == (if bad then h.passed else h.passed + [id])
    && g.failed == (if bad then h.failed + [id] else h.failed)
    && g.kicked == (if bad && kick then h.kicked + [id] else h.kicked)
    && g.expired == h.expired && g.created == h.created && g.joined == h.joined
  }

  /** A verdict on an image of a live packet is kept in 16 bits, and on another image it is not
      kept. The packet is settled once it has as many verdicts as there are cameras online, or
      as it has images: then it fails when some verdict is the bad one, and is kicked. */
  lemma VerdictInFull(s: State, e: Event)
    requires e.Verdict? && e.objectId in s.packets
    ensures var p := s.packets[e.objectId];
      var results :=
        if e.imageId in p.images then p.results[e.imageId := e.result % 0x1_0000] else p.results;
      if |results| < e.cameras && |results| < |p.images| then
        OnVerdict(s, e).packets == s.packets[e.objectId := p.(results := results)]
        && OnVerdict(s, e).ng == s.ng && OnVerdict(s, e).total == s.total
      else Settled(s, OnVerdict(s, e), e.objectId, results, true)
  {
    var p := s.packets[e.objectId];
    var q := Judged(p, e);
    assert s.packets[e.objectId := q] - {e.objectId} == s.packets - {e.objectId};
    HasNgIff(q);
    hide HasNg;
  }

  lemma HasNgIff(p: Packet)
    ensures HasNg(p) <==> exists i :: i in p.results && p.results[i] == 0
  {
    if i :| i in p.results && p.results[i] == 0 {
      assert p.results[i] in p.results.Values;
    }
  }

  /** The first packet in iteration order whose first image is the time-out old leaves: without
      a verdict silently, otherwise settled, and kicked only with as many images as cameras. */
  lemma TimeoutInFull(c: Config, s: State, e: Event, k: nat)
    requires e.Timeout? && Enabled(s, e) && k < |e.order|
    requires Elapsed(s.packets[e.order[k]].firstImageTime, e.now, c.inferTimeout)
    requires forall r :: 0 <= r < k ==> !Elapsed(s.packets[e.order[r]].firstImageTime, e.now, c.inferTimeout)
    ensures var id, t := e.order[k], OnTimeout(c, s, e);
      var p := s.packets[id];
      if p.results == map[] then
        t == s.(packets := s.packets - {id}, history := s.history.(expired := s.history.expired + [id]))
      else
        Settled(s, t, id, p.results, |p.images| >= e.cameras)
  {
    hide FirstIn, OverdueIds, HasNg, Finish, OnTimeout, Settled, Elapsed;
    OverdueAre(c, s.packets, e.now);
    FirstInIs(e.order, OverdueIds(c, s.packets, e.now), k);
    TimeoutIs(c, s, e);
    var p := s.packets[e.order[k]];
    LateSettles(s, e.order[k], p, Late(e.order[k], |p.images|, e.cameras), |p.images| >= e.cameras);
  }

  lemma LateSettles(s: State, id: uint64, p: Packet, late: Late, kick: bool)
    ensures var t := s.(history := s.history.(late := s.history.late + [late]));
      Settled(s, Finish(t, id, HasNg(p), kick), id, p.results, kick)
  {
    HasNgIff(p);
    hide HasNg;
  }

  /** When no first image is that old, nothing happens. */
  lemma NothingOverdue(c: Config, s: State, e: Event)
    requires e.Timeout? && Enabled(s, e)
    requires forall id :: id in s.packets ==> !Elapsed(s.packets[id].firstImageTime, e.now, c.inferTimeout)
    ensures OnTimeout(c, s, e) == s
  {
    OverdueAre(c, s.packets, e.now);
    hide OverdueIds;
  }

  lemma OverdueAre(c: Config, packets: map<uint64, Packet>, now: uint64)
    ensures forall id ::
      id in OverdueIds(c, packets, now) <==> id in packets && Elapsed(packets[id].firstImageTime, now, c.inferTimeout)
  {
    forall id | id in packets
      ensures Overdue(c, packets[id], now) <==> Elapsed(packets[id].firstImageTime, now, c.inferTimeout)
    {
      ElapsedIff(packets[id].firstImageTime, now, c.inferTimeout);
    }
    hide Overdue, Elapsed;
  }

  function Step(c: Config, s: State, e: Event): State
    requires Enabled(s, e)
  {
    match e
    case Image(_, _, _, _, _, _) => OnImage(c, s, e)
    case Verdict(_, _, _, _) => OnVerdict(s, e)
    case Timeout(_, _, _) => OnTimeout(c, s, e)
  }

  // ------------------------------------------------------------------------- runs

  /** States reachable by a run of events. */
  ghost predicate Run(c: Config, events: seq<Event>, s: State)
    decreases |events|
  {
    if events == [] then s == INITIAL
    else
      var n := |events| - 1;
      exists t :: Run(c, events[..n], t) && Enabled(t, events[n]) && s == Step(c, t, events[n])
  }

  // ------------------------------------------------------------------- invariants

  predicate Injective(m: map<uint64, uint32>) {
    forall x, y :: x in m && y in m && x != y ==> m[x] != m[y]
  }

  /** Cameras differ, verdicts are only for the packet's own images, and some are missing. */
  predicate PacketShape(p: Packet, id: uint64) {
    p.objectId == id && Injective(p.images) && p.results.Keys < p.images.Keys
  }

  predicate Shapes(s: State) {
    forall id :: id in s.packets ==> PacketShape(s.packets[id], id)
  }

  ghost predicate WasJoined(h: History, id: uint64, imageId: uint64, cameraId: uint32, first: uint64) {
    exists a :: a in h.joined && a.objectId == id && a.imageId == imageId && a.cameraId == cameraId
      && a.firstImageTime == first
  }

  ghost predicate WasJudged(h: History, id: uint64, imageId: uint64, stored: uint16) {
    exists j :: j in h.judged && j.objectId == id && j.imageId == imageId && Stored(j.result) == stored
  }

  ghost predicate JoinedAny(h: History, id: uint64, imageId: uint64) {
    exists a :: a in h.joined && a.objectId == id && a.imageId == imageId
  }

  /** A bad verdict was passed on an image assigned to the packet. */
  ghost predicate NgJudged(h: History, id: uint64) {
    exists j :: j in h.judged && j.objectId == id && Stored(j.result) == RESULT_NG && JoinedAny(h, id, j.imageId)
  }

  /** Every image of the packet was assigned to it, every verdict was passed on it. */
  ghost predicate PacketExplained(h: History, p: Packet, id: uint64) {
    (forall i :: i in p.images ==> WasJoined(h, id, i, p.images[i], p.firstImageTime))
    && (forall i :: i in p.results ==> WasJudged(h, id, i, p.results[i]))
  }

  ghost predicate Explained(s: State) {
    forall id :: id in s.packets ==> PacketExplained(s.history, s.packets[id], id)
  }

  /** Every assignment was close enough in time, verdicts were on assigned images, and
      failed packets had a bad one. */
  ghost predicate Consistent(c: Config, h: History) {
    (forall a :: a in h.joined ==>
       a.time <= a.firstImageTime + c.maxInterval && a.firstImageTime <= a.time + c.maxInterval)
    && (forall j :: j in h.judged ==> JoinedAny(h, j.objectId, j.imageId))
    && forall id :: id in h.failed ==> NgJudged(h, id)
  }

  function Gone(h: History): multiset<uint64> {
    multiset(h.overwritten) + multiset(h.passed) + multiset(h.failed) + multiset(h.expired)
  }

  /** Conservation: what was created is live, was overwritten, or has left one way. */
  predicate Accounted(s: State) {
    var h := s.history;
    multiset(h.created) == multiset(s.packets.Keys) + Gone(h)
    && s.total == |h.created|
    && multiset(h.kicked) <= multiset(h.failed)
    && s.ng == |h.failed| + |h.kicked|
    && forall id :: id in h.overwritten ==> multiset(h.created)[id] >= 2
  }

  ghost predicate Inv(c: Config, s: State) {
    Shapes(s) && Explained(s) && Consistent(c, s.history) && Accounted(s)
  }

  /** The same, except that packet id may be complete. */
  ghost predicate InvButOne(c: Config, s: State, id: uint64) {
    id in s.packets && (forall x :: x in s.packets && x != id ==> PacketShape(s.packets[x], x))
    && Explained(s) && Consistent(c, s.history) && Accounted(s)
  }

  // The history only grows, so what explained a state still does.

  predicate Grows(h: History, h': History) {
    h.joined <= h'.joined && h.judged <= h'.judged
  }

  lemma NgPersists(h: History, h': History, id: uint64)
    requires Grows(h, h') && NgJudged(h, id)
    ensures NgJudged(h', id)
  {
    var j :| j in h.judged && j.objectId == id && Stored(j.result) == RESULT_NG && JoinedAny(h, id, j.imageId);
    assert j in h'.judged && JoinedAny(h', id, j.imageId);
  }

  lemma ExplainedPersists(h: History, h': History, p: Packet, id: uint64)
    requires Grows(h, h') && PacketExplained(h, p, id)
    ensures PacketExplained(h', p, id)
  {
    forall i | i in p.images
      ensures WasJoined(h', id, i, p.images[i], p.firstImageTime)
    {
      assert WasJoined(h, id, i, p.images[i], p.firstImageTime);
    }
    forall i | i in p.results
      ensures WasJudged(h', id, i, p.results[i])
    {
      assert WasJudged(h, id, i, p.results[i]);
    }
  }

  /** One packet may be new or changed; the others are as before. */
  lemma ExplainedKeeps(s: State, s': State, id: uint64)
    requires Explained(s) && Grows(s.history, s'.history)
    requires forall x :: x in s'.packets && x != id ==> x in s.packets && s'.packets[x] == s.packets[x]
    requires id in s'.packets ==> PacketExplained(s'.history, s'.packets[id], id)
    ensures Explained(s')
  {
    hide PacketExplained;
    forall x | x in s'.packets
      ensures PacketExplained(s'.history, s'.packets[x], x)
    {
      if x != id {
        ExplainedPersists(s.history, s'.history, s.packets[x], x);
      }
    }
  }

  lemma ConsistentKeeps(c: Config, h: History, h': History)
    requires Consistent(c, h) && Grows(h, h')
    requires forall a :: a in h'.joined && a !in h.joined ==>
      a.time <= a.firstImageTime + c.maxInterval && a.firstImageTime <= a.time + c.maxInterval
    requires forall j :: j in h'.judged && j !in h.judged ==> JoinedAny(h', j.objectId, j.imageId)
    requires forall id :: id in h'.failed && id !in h.failed ==> NgJudged(h', id)
    ensures Consistent(c, h')
  {
    hide NgJudged;
    forall j | j in h'.judged
      ensures JoinedAny(h', j.objectId, j.imageId)
    {
      if j in h.judged {
        assert JoinedAny(h, j.objectId, j.imageId);
      }
    }
    forall id | id in h'.failed
      ensures NgJudged(h', id)
    {
      if id in h.failed {
        NgPersists(h, h', id);
      }
    }
  }

  lemma NewlyJoined(h: History, a: Assignment)
    requires a in h.joined
    ensures WasJoined(h, a.objectId, a.imageId, a.cameraId, a.firstImageTime)
  {
  }

  lemma JoinKeeps(c: Config, s: State, e: Event, id: uint64)
    requires Inv(c, s) && e.Image? && id in s.packets && Near(c, s.packets[id], e.time)
      && Takes(s.packets[id], e.cameraId, e.cameras)
    ensures var p, h := s.packets[id], s.history;
            Inv(c, s.(packets := s.packets[id := p.(images := p.images[e.imageId := e.cameraId])],
                      history :=
                        h.(joined := h.joined + {Assignment(id, e.imageId, e.cameraId, e.time, p.firstImageTime)})))
  {
    hide WasJoined, WasJudged, JoinedAny, NgJudged, Explained, Consistent;
    var p, h := s.packets[id], s.history;
    var a := Assignment(id, e.imageId, e.cameraId, e.time, p.firstImageTime);
    var h' := h.(joined := h.joined + {a});
    var p' := p.(images := p.images[e.imageId := e.cameraId]);
    var s' := s.(packets := s.packets[id := p'], history := h');
    assert s'.packets.Keys == s.packets.Keys;
    assert PacketShape(p, id);
    assert p'.images.Keys == p.images.Keys + {e.imageId};
    InjectiveExtends(p.images, e.imageId, e.cameraId);
    assert Shapes(s');
    NewlyJoined(h', a);
    PacketExplainedOf(s, id);
    ExplainedPersists(h, h', p, id);
    ExplainedKeeps(s, s', id);
    ConsistentKeeps(c, h, h');
  }

  lemma PacketExplainedOf(s: State, id: uint64)
    requires Explained(s) && id in s.packets
    ensures PacketExplained(s.history, s.packets[id], id)
  {
  }

  lemma InjectiveExtends(m: map<uint64, uint32>, i: uint64, cam: uint32)
    requires Injective(m) && cam !in m.Values
    ensures Injective(m[i := cam])
  {
    assert forall x :: x in m ==> m[x] in m.Values;
  }

  lemma CreateAccounts(s: State, s': State, id: uint64)
    requires Accounted(s)
    requires var h, h' := s.history, s'.history;
             s'.packets.Keys == s.packets.Keys + {id} && s'.total == s.total + 1 && s'.ng == s.ng
             && h'.created == h.created + [id]
               && h'.overwritten == h.overwritten + (if id in s.packets then [id] else [])
             && h'.passed == h.passed && h'.failed == h.failed && h'.expired == h.expired && h'.kicked == h.kicked
    ensures Accounted(s')
  {
    var h, h' := s.history, s'.history;
    var k, c := multiset(s.packets.Keys), multiset(h.created);
    assert multiset(h'.created) == c + multiset{id};
    OverwriteCounts(h.overwritten, id);
    if id in s.packets {
      assert s'.packets.Keys == s.packets.Keys;
      assert k[id] == 1;
      assert c[id] >= k[id];
    } else {
      assert multiset(s'.packets.Keys) == k + multiset{id};
      assert h'.overwritten == h.overwritten;
    }
    forall x | x in h'.overwritten
      ensures (c + multiset{id})[x] >= 2
    {
      assert x in h.overwritten ==> c[x] >= 2;
    }
  }

  lemma OverwriteCounts(ids: seq<uint64>, id: uint64)
    ensures multiset(ids + [id]) == multiset(ids) + multiset{id}
    ensures forall x :: x in ids + [id] <==> x in ids || x == id
  {
  }

  lemma CreateKeeps(c: Config, s: State, e: Event)
    requires Inv(c, s) && e.Image?
    ensures var h := s.history;
            Inv(c, s.(packets := s.packets[e.now := Packet(e.now, e.time, map[e.imageId := e.cameraId], map[])],
                      total := s.total + 1,
                      history := h.(created := h.created + [e.now],
                                    overwritten := h.overwritten + if e.now in s.packets then [e.now] else [],
                                    joined := h.joined + {Assignment(e.now, e.imageId, e.cameraId, e.time, e.time)})))
  {
    hide WasJoined, WasJudged, JoinedAny, NgJudged, Explained, Consistent, Accounted;
    var h := s.history;
    var a := Assignment(e.now, e.imageId, e.cameraId, e.time, e.time);
    var h' := h.(created := h.created + [e.now],
                 overwritten := h.overwritten + if e.now in s.packets then [e.now] else [],
                 joined := h.joined + {a});
    var p := Packet(e.now, e.time, map[e.imageId := e.cameraId], map[]);
    var s' := s.(packets := s.packets[e.now := p], total := s.total + 1, history := h');
    assert e.imageId in p.images && PacketShape(p, e.now);
    assert s'.packets.Keys == s.packets.Keys + {e.now};
    CreateAccounts(s, s', e.now);
    NewlyJoined(h', a);
    assert WasJoined(h', e.now, e.imageId, e.cameraId, e.time);
    ExplainedKeeps(s, s', e.now);
    ConsistentKeeps(c, h, h');
  }

  /** One packet leaves: with a verdict, good or bad, or late without one. */
  predicate Leaves(h: History, h': History, id: uint64, bad: bool, kick: bool, late: bool) {
    && h'.created == h.created && h'.overwritten == h.overwritten
    && h'.passed == h.passed + (if bad || late then [] else [id])
    && h'.failed == h.failed + (if bad then [id] else [])
    && h'.expired == h.expired + (if late then [id] else [])
    && h'.kicked == h.kicked + (if bad && kick then [id] else [])
  }

  lemma GoneGrows(h: History, h': History, id: uint64, bad: bool, kick: bool, late: bool)
    requires Leaves(h, h', id, bad, kick, late) && (late ==> !bad)
    ensures Gone(h') == Gone(h) + multiset{id}
  {
    if bad {
      assert multiset(h'.failed) == multiset(h.failed) + multiset{id};
    } else if late {
      assert multiset(h'.expired) == multiset(h.expired) + multiset{id};
    } else {
      assert multiset(h'.passed) == multiset(h.passed) + multiset{id};
    }
  }

  lemma KicksAreFailures(h: History, h': History, id: uint64, bad: bool, kick: bool, late: bool)
    requires Leaves(h, h', id, bad, kick, late) && multiset(h.kicked) <= multiset(h.failed)
    ensures multiset(h'.kicked) <= multiset(h'.failed)
  {
    if bad {
      assert multiset(h'.failed) == multiset(h.failed) + multiset{id};
      if kick {
        assert multiset(h'.kicked) == multiset(h.kicked) + multiset{id};
      }
    }
  }

  lemma LeaveAccounts(s: State, s': State, id: uint64, bad: bool, kick: bool, late: bool)
    requires Accounted(s) && id in s.packets && (late ==> !bad)
    requires s'.packets.Keys == s.packets.Keys - {id} && s'.total == s.total
    requires s'.ng == s.ng + (if bad then 1 else 0) + (if bad && kick then 1 else 0)
    requires Leaves(s.history, s'.history, id, bad, kick, late)
    ensures Accounted(s')
  {
    hide Gone;
    GoneGrows(s.history, s'.history, id, bad, kick, late);
    KicksAreFailures(s.history, s'.history, id, bad, kick, late);
    assert multiset(s.packets.Keys) == multiset(s'.packets.Keys) + multiset{id};
  }

  lemma FinishKeeps(c: Config, s: State, id: uint64, bad: bool, kick: bool)
    requires InvButOne(c, s, id) && (bad ==> NgJudged(s.history, id))
    ensures Inv(c, Finish(s, id, bad, kick))
  {
    hide WasJoined, WasJudged, JoinedAny, NgJudged, Explained, Consistent, Accounted;
    var s' := Finish(s, id, bad, kick);
    assert s'.packets.Keys == s.packets.Keys - {id};
    LeaveAccounts(s, s', id, bad, kick, false);
    ExplainedKeeps(s, s', id);
    if bad {
      NgPersists(s.history, s'.history, id);
    }
    ConsistentKeeps(c, s.history, s'.history);
  }

  lemma JudgeKeeps(c: Config, s: State, e: Event)
    requires Inv(c, s) && e.Verdict? && e.objectId in s.packets
    ensures var p := Judged(s.packets[e.objectId], e);
            var t := s.(packets := s.packets[e.objectId := p],
                        history := s.history.(judged := s.history.judged +
                          if e.imageId in p.images then [Judgement(e.objectId, e.imageId, e.result)] else []));
            && InvButOne(c, t, e.objectId)
            && p.results.Keys <= p.images.Keys && PacketShape(s.packets[e.objectId], e.objectId)
  {
    hide WasJoined, WasJudged, JoinedAny, NgJudged, Explained, Consistent;
    var id, q, h := e.objectId, s.packets[e.objectId], s.history;
    var p, j := Judged(q, e), Judgement(id, e.imageId, e.result);
    var h' := h.(judged := h.judged + if e.imageId in p.images then [j] else []);
    var t := s.(packets := s.packets[id := p], history := h');
    assert t.packets.Keys == s.packets.Keys;
    assert PacketShape(q, id);
    PacketExplainedOf(s, id);
    ExplainedPersists(h, h', q, id);
    if e.imageId in p.images {
      NewlyJudged(h', q, id, e, j);
    }
    ExplainedKeeps(s, t, id);
    ConsistentKeeps(c, h, h');
  }

  lemma NewlyJudged(h: History, q: Packet, id: uint64, e: Event, j: Judgement)
    requires e.Verdict? && e.imageId in q.images && PacketExplained(h, q, id)
    requires j == Judgement(id, e.imageId, e.result) && j in h.judged
    ensures JoinedAny(h, id, e.imageId) && PacketExplained(h, Judged(q, e), id)
  {
    assert WasJoined(h, id, e.imageId, q.images[e.imageId], q.firstImageTime);
    assert WasJudged(h, id, e.imageId, Stored(e.result));
  }

  lemma VerdictKeeps(c: Config, s: State, e: Event)
    requires Inv(c, s) && e.Verdict?
    ensures Inv(c, OnVerdict(s, e))
  {
    hide Explained, Consistent, Accounted, NgJudged, Stored;
    if e.objectId in s.packets {
      var id := e.objectId;
      var p := Judged(s.packets[id], e);
      var t := s.(packets := s.packets[id := p],
                  history := s.history.(judged := s.history.judged +
                    if e.imageId in p.images then [Judgement(id, e.imageId, e.result)] else []));
      JudgeKeeps(c, s, e);
      if Complete(p, e.cameras) {
        if HasNg(p) {
          NgFromResults(c, t, id);
        }
        FinishKeeps(c, t, id, HasNg(p), true);
      } else {
        assert |p.results.Keys| == |p.results| < |p.images| == |p.images.Keys|;
        assert p.results.Keys != p.images.Keys;
        assert PacketShape(p, id);
        assert Shapes(t);
      }
    }
  }

  lemma NgFromResults(c: Config, s: State, id: uint64)
    requires id in s.packets && Explained(s) && Consistent(c, s.history) && HasNg(s.packets[id])
    ensures NgJudged(s.history, id)
  {
    PacketExplainedOf(s, id);
    var p, h := s.packets[id], s.history;
    var i :| i in p.results && p.results[i] == RESULT_NG;
    assert WasJudged(h, id, i, RESULT_NG);
    var j :| j in h.judged && j.objectId == id && j.imageId == i && Stored(j.result) == RESULT_NG;
    assert JoinedAny(h, j.objectId, j.imageId);
  }

  lemma TimeoutKeeps(c: Config, s: State, e: Event)
    requires Inv(c, s) && e.Timeout? && Enabled(s, e)
    ensures Inv(c, OnTimeout(c, s, e))
  {
    hide Explained, Consistent, Accounted, NgJudged, OverdueIds;
    var due := FirstIn(e.order, OverdueIds(c, s.packets, e.now));
    if due.Some? {
      OverdueAreLive(c, s.packets, e.now);
      var id := due.value;
      var p := s.packets[id];
      if p.results == map[] {
        var s' := OnTimeout(c, s, e);
        assert s'.packets.Keys == s.packets.Keys - {id};
        LeaveAccounts(s, s', id, false, false, true);
        ExplainedKeeps(s, s', id);
        ConsistentKeeps(c, s.history, s'.history);
      } else {
        if HasNg(p) {
          NgFromResults(c, s, id);
        }
        var h := s.history.(late := s.history.late + [Late(id, |p.images|, e.cameras)]);
        var t := s.(history := h);
        LateKeeps(c, s, t);
        if HasNg(p) {
          NgPersists(s.history, h, id);
        }
        FinishKeeps(c, t, id, HasNg(p), |p.images| >= e.cameras);
      }
    }
  }

  lemma OverdueAreLive(c: Config, packets: map<uint64, Packet>, now: uint64)
    ensures forall id :: id in OverdueIds(c, packets, now) <==> id in packets && Overdue(c, packets[id], now)
  {
  }

  lemma NearAreLive(c: Config, packets: map<uint64, Packet>, time: uint64)
    ensures forall id :: id in NearIds(c, packets, time) <==> id in packets && Near(c, packets[id], time)
  {
  }

  /** The invariant does not look at the list of late packets. */
  lemma LateKeeps(c: Config, s: State, t: State)
    requires Inv(c, s) && t == s.(history := s.history.(late := t.history.late))
    ensures Inv(c, t)
  {
    hide PacketShape, WasJoined, WasJudged, NgJudged, Accounted;
    forall id | id in t.packets
      ensures PacketExplained(t.history, t.packets[id], id)
    {
      ExplainedPersists(s.history, t.history, s.packets[id], id);
    }
    ConsistentKeeps(c, s.history, t.history);
    AccountedKeeps(s, t);
  }

  lemma AccountedKeeps(s: State, t: State)
    requires Accounted(s) && t == s.(history := s.history.(late := t.history.late))
    ensures Accounted(t)
  {
  }

  lemma StepKeeps(c: Config, s: State, e: Event)
    requires Inv(c, s) && Enabled(s, e)
    ensures Inv(c, Step(c, s, e))
  {
    hide Inv, Takes, Near, NearIds;
    match e
    case Image(_, _, _, _, _, _) =>
      NearAreLive(c, s.packets, e.time);
      var near := FirstIn(e.order, NearIds(c, s.packets, e.time));
      if near.Some? && Takes(s.packets[near.value], e.cameraId, e.cameras) {
        JoinKeeps(c, s, e, near.value);
      } else {
        CreateKeeps(c, s, e);
      }
    case Verdict(_, _, _, _) => VerdictKeeps(c, s, e);
    case Timeout(_, _, _) => TimeoutKeeps(c, s, e);
  }

  lemma {:induction false} RunKeeps(c: Config, events: seq<Event>, s: State)
    requires Run(c, events, s)
    ensures Inv(c, s)
    decreases |events|
  {
    hide Inv, Step;
    if events == [] {
      InitialInv(c);
    } else {
      var n := |events| - 1;
      var t :| Run(c, events[..n], t) && Enabled(t, events[n]) && s == Step(c, t, events[n]);
      RunKeeps(c, events[..n], t);
      StepKeeps(c, t, events[n]);
    }
  }

  lemma InitialInv(c: Config)
    ensures Inv(c, INITIAL)
  {
    assert multiset(INITIAL.packets.Keys) == multiset{};
  }

  // ------------------------------------------------------- what holds over every run

  /** A live packet: cameras differ, every image came within the interval of the first,
      verdicts are on its own images only and not complete. */
  lemma LivePackets(c: Config, events: seq<Event>, s: State, id: uint64)
    requires Run(c, events, s) && id in s.packets
    ensures var p := s.packets[id];
            && Injective(p.images) && p.results.Keys < p.images.Keys
            && forall i :: i in p.images ==>
                 exists a :: a in s.history.joined && a.objectId == id && a.imageId == i && a.cameraId == p.images[i]
                             && a.time <= p.firstImageTime + c.maxInterval && p.firstImageTime <= a.time + c.maxInterval
  {
    RunKeeps(c, events, s);
    var p, h := s.packets[id], s.history;
    assert PacketShape(p, id);
    forall i | i in p.images
      ensures exists a :: a in h.joined && a.objectId == id && a.imageId == i && a.cameraId == p.images[i]
                          && a.time <= p.firstImageTime + c.maxInterval && p.firstImageTime <= a.time + c.maxInterval
    {
      PacketExplainedOf(s, id);
      assert WasJoined(h, id, i, p.images[i], p.firstImageTime);
      var a :| a in h.joined && a.objectId == id && a.imageId == i && a.cameraId == p.images[i]
        && a.firstImageTime == p.firstImageTime;
      assert a.time <= a.firstImageTime + c.maxInterval && a.firstImageTime <= a.time + c.maxInterval;
    }
  }

  /** With distinct ids, what has left has left one way and once, and is not live. */
  lemma GoneOnce(s: State)
    requires Accounted(s) && Distinct(s.history.created)
    ensures var h := s.history;
            && Distinct(h.passed + h.failed + h.expired) && Distinct(h.kicked) && h.overwritten == []
            && (forall id :: id in h.passed + h.failed + h.expired ==> id !in s.packets)
            && (forall id :: id in h.kicked ==> id in h.failed)
            && (forall id :: id in h.passed ==> id !in h.failed && id !in h.expired)
            && (forall id :: id in h.failed ==> id !in h.expired)
            && (forall id :: id in s.packets ==> id in h.created)
  {
    hide Accounted;
    var h := s.history;
    var left: seq<uint64> := h.passed + h.failed + h.expired;
    forall x
      ensures multiset(left)[x] <= 1 && multiset(h.kicked)[x] <= 1
    {
      GoneOnceAt(s, x);
    }
    DistinctCounts(left);
    DistinctCounts(h.kicked);
    forall id | id in left || id in h.kicked || id in h.overwritten || id in s.packets
      ensures (id in left ==> id !in s.packets) && (id in h.kicked ==> id in h.failed) && id !in h.overwritten
      ensures (id in h.passed ==> id !in h.failed && id !in h.expired) && (id in h.failed ==> id !in h.expired)
      ensures id in s.packets ==> id in h.created
    {
      GoneOnceAt(s, id);
    }
    if h.overwritten != [] {
      GoneOnceAt(s, h.overwritten[0]);
    }
  }

  /** The multiset equation at one id. */
  lemma GoneOnceAt(s: State, x: uint64)
    requires Accounted(s) && Distinct(s.history.created)
    ensures var h, left: seq<uint64> := s.history, s.history.passed + s.history.failed + s.history.expired;
      && multiset(left)[x] <= 1 && multiset(h.kicked)[x] <= 1 && (x in left ==> x !in s.packets)
      && multiset(h.passed)[x] + multiset(h.failed)[x] + multiset(h.expired)[x] <= 1
      && (x in h.kicked ==> x in h.failed) && x !in h.overwritten && (x in s.packets ==> x in h.created)
      && (x in h.passed ==> x !in h.failed && x !in h.expired) && (x in h.failed ==> x !in h.expired)
  {
    var h := s.history;
    var left: seq<uint64> := h.passed + h.failed + h.expired;
    DistinctCounts(h.created);
    assert multiset(h.created)[x] <= 1;
    assert multiset(left)[x] == multiset(h.passed)[x] + multiset(h.failed)[x] + multiset(h.expired)[x];
    assert multiset(h.created)[x] == multiset(s.packets.Keys)[x] + multiset(h.overwritten)[x] + multiset(left)[x];
  }

  /** With distinct ids a packet leaves at most once, is kicked at most once, is never
      overwritten, and has left only when it is not live. */
  lemma AtMostOnce(c: Config, events: seq<Event>, s: State)
    requires Run(c, events, s) && Distinct(s.history.created)
    ensures var h := s.history;
            && Distinct(h.passed + h.failed + h.expired) && Distinct(h.kicked) && h.overwritten == []
            && forall id :: id in h.passed + h.failed + h.expired ==> id !in s.packets
  {
    hide Run, Shapes, Explained, Consistent, Accounted;
    RunKeeps(c, events, s);
    GoneOnce(s);
  }

  /** Created packets are those live, finished or timed out, exactly when none was
      overwritten by a packet created in the same millisecond. */
  lemma CreatedAccounted(c: Config, events: seq<Event>, s: State)
    requires Run(c, events, s)
    ensures var h := s.history;
            |h.created| == |s.packets| + |h.passed| + |h.failed| + |h.expired| <==> h.overwritten == []
    ensures s.total == |s.history.created|
  {
    hide Run, Shapes, Explained, Consistent;
    RunKeeps(c, events, s);
    var h := s.history;
    assert |multiset(s.packets.Keys)| == |s.packets.Keys| == |s.packets|;
    assert |multiset(h.created)| == |h.created|;
    assert |Gone(h)| == |h.overwritten| + |h.passed| + |h.failed| + |h.expired|;
  }

  /** A kick has a bad verdict on an image assigned to the packet behind it. */
  lemma KickHasReason(c: Config, events: seq<Event>, s: State, id: uint64)
    requires Run(c, events, s) && id in s.history.kicked
    ensures NgJudged(s.history, id)
  {
    hide Run, Shapes, Explained, NgJudged;
    RunKeeps(c, events, s);
    assert id in multiset(s.history.kicked);
    assert id in multiset(s.history.failed);
    assert id in s.history.failed;
  }

  lemma NoMore(k: multiset<uint64>, f: multiset<uint64>)
    requires k <= f
    ensures |k| <= |f|
  {
    var rest := f - k;
    assert f == k + rest;
    assert |k + rest| == |k| + |rest|;
  }

  /** The NG counter adds one for each failed packet and one more for each kick. */
  lemma NgCountsKicksTwice(c: Config, events: seq<Event>, s: State)
    requires Run(c, events, s)
    ensures s.ng == |s.history.failed| + |s.history.kicked| && |s.history.kicked| <= |s.history.failed|
  {
    hide Run, Shapes, Explained, Consistent;
    RunKeeps(c, events, s);
    NoMore(multiset(s.history.kicked), multiset(s.history.failed));
    assert |multiset(s.history.kicked)| == |s.history.kicked| && |multiset(s.history.failed)| == |s.history.failed|;
  }

  lemma RunExtends(c: Config, events: seq<Event>, t: State, e: Event, all: seq<Event>)
    requires Run(c, events, t) && Enabled(t, e) && all == events + [e]
    ensures Run(c, all, Step(c, t, e))
  {
    hide Step, Enabled;
    assert all[..|events|] == events && all[|events|] == e;
  }

  /** The first event of a run creates a packet. */
  lemma FirstImage(c: Config, e: Event) returns (s: State)
    requires e.Image? && e.order == []
    ensures Run(c, [e], s)
    ensures s.packets == map[e.now := Packet(e.now, e.time, map[e.imageId := e.cameraId], map[])]
    ensures s.total == 1 && s.ng == 0 && s.history.created == [e.now]
    ensures s.history.judged == [] && s.history.passed == s.history.failed == s.history.expired == []
  {
    assert Run(c, [], INITIAL);
    hide Run, Step;
    s := OnImage(c, INITIAL, e);
    ImageStep(c, INITIAL, e);
    RunExtends(c, [], INITIAL, e, [e]);
    hide NearIds, Takes;
  }

  const EXAMPLE := Config(100, 1000)

  /** One packet with one bad image: the NG counter says two. */
  lemma CountedTwice() returns (s: State)
    ensures Run(EXAMPLE, [Image(1, 1, 50, 7, 1, []), Verdict(7, 1, 0, 1)], s)
    ensures |s.history.created| == 1 && s.history.failed == [7] && s.ng == 2
  {
    hide Run, Step;
    var e1, e2 := Image(1, 1, 50, 7, 1, []), Verdict(7, 1, 0, 1);
    var s1 := FirstImage(EXAMPLE, e1);
    OneBadImage(s1, s1.packets[7]);
    RunExtends(EXAMPLE, [e1], s1, e2, [e1, e2]);
    s := OnVerdict(s1, e2);
    assert s == Step(EXAMPLE, s1, e2) by { VerdictStep(EXAMPLE, s1, e2); }
  }

  lemma VerdictStep(c: Config, s: State, e: Event)
    requires e.Verdict?
    ensures Enabled(s, e) && Step(c, s, e) == OnVerdict(s, e)
  {
  }

  lemma ImageStep(c: Config, s: State, e: Event)
    requires e.Image? && Enabled(s, e)
    ensures Step(c, s, e) == OnImage(c, s, e)
  {
  }

  lemma OneBadImage(s: State, p: Packet)
    requires p == Packet(7, 50, map[1 := 1], map[]) && s.packets == map[7 := p]
    ensures OnVerdict(s, Verdict(7, 1, 0, 1)).ng == s.ng + 2
    ensures OnVerdict(s, Verdict(7, 1, 0, 1)).history.failed == s.history.failed + [7]
    ensures OnVerdict(s, Verdict(7, 1, 0, 1)).history.created == s.history.created
  {
    var q := Judged(p, Verdict(7, 1, 0, 1));
    assert q.results == map[1 := 0];
    assert q.results[1] == RESULT_NG && q.results.Keys == {1};
  }

  /** Two images of one camera in one millisecond: the second packet replaces the first,
      which has not left and is not live. */
  lemma ReplacedPacket() returns (s: State)
    ensures Run(EXAMPLE, [Image(1, 1, 50, 7, 2, []), Image(2, 1, 60, 7, 2, [7])], s)
    ensures s.history.created == [7, 7] && |s.packets| == 1 && 1 !in s.packets[7].images
    ensures s.history.passed + s.history.failed + s.history.expired == []
  {
    hide Run, Step, OnImage;
    var e1, e2 := Image(1, 1, 50, 7, 2, []), Image(2, 1, 60, 7, 2, [7]);
    var s1 := FirstImage(EXAMPLE, e1);
    SameMillisecond(s1, e2);
    RunExtends(EXAMPLE, [e1], s1, e2, [e1, e2]);
    s := OnImage(EXAMPLE, s1, e2);
    ImageStep(EXAMPLE, s1, e2);
  }

  lemma SameMillisecond(s: State, e: Event)
    requires e == Image(2, 1, 60, 7, 2, [7]) && s.packets == map[7 := Packet(7, 50, map[1 := 1], map[])]
    ensures Enabled(s, e)
    ensures OnImage(EXAMPLE, s, e).packets == map[7 := Packet(7, 60, map[2 := 1], map[])]
    ensures var h := s.history;
      OnImage(EXAMPLE, s, e).history == h.(created := h.created + [7], overwritten := h.overwritten + [7],
                                          joined := h.joined + {Assignment(7, 2, 1, 60, 60)})
  {
    NearAreLive(EXAMPLE, s.packets, 60);
    FirstInIs([7], NearIds(EXAMPLE, s.packets, 60), 0);
    hide NearIds, FirstIn;
    assert s.packets[7].images[1] == 1;
  }

  // -------------------------------------------------------------------- the object

  class CPacketResult {
    const config: Config
    var packets: map<uint64, Packet>
    var total: int
    var ng: int
    ghost var history: History

    ghost function Model(): State
      reads this
    {
      State(packets, total, ng, history)
    }

    constructor (config: Config)
      ensures Model() == INITIAL && this.config == config
    {
      this.config := config;
      packets, total, ng, history := map[], 0, 0, INITIAL.history;
    }

    /** Assigns an image to a packet, and returns the packet's id. */
    method PreInferAsync(imageId: uint64, cameraId: uint32, time: uint64, now: uint64, cameras: int,
                         order: seq<uint64>) returns (objectId: uint64)
      requires Enumerates(order, packets.Keys)
      modifies this
      ensures Model() == OnImage(config, old(Model()), Image(imageId, cameraId, time, now, cameras, order))
      ensures objectId == Target(config, old(Model()), Image(imageId, cameraId, time, now, cameras, order))
      ensures objectId in packets && imageId in packets[objectId].images
        && packets[objectId].images[imageId] == cameraId
    {
      hide Near, Takes, FirstIn, NearIds;
      NearAreLive(config, packets, time);
      var k := 0;
      while k < |order|
        invariant k <= |order| && Model() == old(Model())
        invariant forall r :: 0 <= r < k ==> !Near(config, packets[order[r]], time)
      {
        var i := packets[order[k]];
        NearIs(config, i, time);
        if Distance(time, i.firstImageTime) <= config.maxInterval {
          FirstInIs(order, NearIds(config, packets, time), k);
          TakesIs(i, cameraId, cameras);
          var bCameraIdExisted := cameraId in i.images.Values;
          if bCameraIdExisted {
            break;
          }
          if |i.images| >= cameras {
            break;
          } else {
            packets := packets[order[k] := i.(images := i.images[imageId := cameraId])];
            history :=
              history.(joined := history.joined + {Assignment(order[k], imageId, cameraId, time, i.firstImageTime)});
            return order[k];
          }
        }
        k := k + 1;
      }
      if k == |order| {
        FirstInIs(order, NearIds(config, packets, time), k);
      }
      total := total + 1;
      history := history.(
        created := history.created + [now],
        overwritten := history.overwritten + if now in packets then [now] else [],
        joined := history.joined + {Assignment(now, imageId, cameraId, time, time)});
      packets := packets[now := Packet(now, time, map[imageId := cameraId], map[])];
      return now;
    }

    /** Counts a bad packet that is acted on; the caller removes the packet. */
    method DoKickFinal(objectId: uint64, result: bool)
      modifies this`ng, this`history
      ensures ng == old(ng) + if result then 0 else 1
      ensures history == old(history).(kicked := old(history).kicked + if result then [] else [objectId])
    {
      if !result {
        ng := ng + 1;
        history := history.(kicked := history.kicked + [objectId]);
      }
    }

    /** Settles a packet's verdict, kicks it when asked to, and removes it. */
    method Settle(id: uint64, kick: bool)
      requires id in packets
      modifies this
      ensures Model() == Finish(old(Model()), id, HasNg(old(packets)[id]), kick)
    {
      var objResult := RESULT_NG !in packets[id].results.Values;
      if !objResult {
        ng := ng + 1;
      }
      history := history.(passed := history.passed + (if objResult then [id] else []),
                          failed := history.failed + (if objResult then [] else [id]));
      if kick {
        DoKickFinal(id, objResult);
      }
      packets := packets - {id};
    }

    method OnImageResult(objectId: uint64, imageId: uint64, result: int, cameras: int)
      modifies this
      ensures Model() == OnVerdict(old(Model()), Verdict(objectId, imageId, result, cameras))
    {
      hide Finish, Stored, HasNg;
      if objectId !in packets {
        return;
      }
      var record := packets[objectId];
      if imageId in record.images {
        record := record.(results := record.results[imageId := Stored(result)]);
        history := history.(judged := history.judged + [Judgement(objectId, imageId, result)]);
      }
      assert old(history.judged) + [] == old(history.judged);
      packets := packets[objectId := record];
      if |record.results| >= cameras || |record.results| >= |record.images| {
        Settle(objectId, true);
      }
    }

    /** Settles a packet at a time-out. */
    method SettleLate(id: uint64, cameras: int)
      requires id in packets
      modifies this
      ensures var s, p := old(Model()), old(packets)[id];
        Model()
          == Finish(s.(history := s.history.(late := s.history.late + [Late(id, |p.images|, cameras)])), id,
            HasNg(p), |p.images| >= cameras)
    {
      hide Finish, HasNg;
      var record := packets[id];
      history := history.(late := history.late + [Late(id, |record.images|, cameras)]);
      Settle(id, |record.images| >= cameras);
    }

    method OnTimer(now: uint64, cameras: int, order: seq<uint64>)
      requires Enumerates(order, packets.Keys)
      modifies this
      ensures Model() == OnTimeout(config, old(Model()), Timeout(now, cameras, order))
    {
      hide Finish, HasNg, Overdue, FirstIn, OverdueIds, OnTimeout;
      OverdueAreLive(config, packets, now);
      ghost var s, e := Model(), Timeout(now, cameras, order);
      TimeoutIs(config, s, e);
      var k := 0;
      while k < |order|
        invariant k <= |order| && Model() == old(Model())
        invariant forall r :: 0 <= r < k ==> !Overdue(config, packets[order[r]], now)
      {
        var id := order[k];
        var record := packets[id];
        OverdueIs(config, record, now);
        if Minus(now, record.firstImageTime) >= config.inferTimeout {
          FirstInIs(order, OverdueIds(config, packets, now), k);
          if record.results == map[] {
            packets := packets - {id};
            history := history.(expired := history.expired + [id]);
            return;
          }
          SettleLate(id, cameras);
          return;
        }
        k := k + 1;
      }
      FirstInIs(order, OverdueIds(config, packets, now), k);
    }
  }

  lemma TimeoutIs(c: Config, s: State, e: Event)
    requires e.Timeout?
    ensures var due, t := FirstIn(e.order, OverdueIds(c, s.packets, e.now)), OnTimeout(c, s, e);
      && (due.None? ==> t == s)
      && (due.Some? ==>
            var id, h := due.value, s.history;
            var p := s.packets[id];
            t == if p.results == map[] then s.(packets := s.packets - {id}, history := h.(expired := h.expired + [id]))
                 else Finish(s.(history := h.(late := h.late + [Late(id, |p.images|, e.cameras)])), id, HasNg(p),
                             |p.images| >= e.cameras))
  {
  }

  lemma NearIs(c: Config, p: Packet, time: uint64)
    ensures Near(c, p, time) <==> Distance(time, p.firstImageTime) <= c.maxInterval
  {
  }

  lemma OverdueIs(c: Config, p: Packet, now: uint64)
    ensures Overdue(c, p, now) <==> Minus(now, p.firstImageTime) >= c.inferTimeout
  {
  }

  lemma TakesIs(p: Packet, cameraId: uint32, cameras: int)
    ensures Takes(p, cameraId, cameras) <==> cameraId !in p.images.Values && |p.images| < cameras
  {
  }
}
