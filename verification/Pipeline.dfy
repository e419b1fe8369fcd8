/** The inspection pipeline put together: images are given to packets, grouped, inferred,
    merged with the results of other algorithms, and decide their packet. Results and
    verdicts are in flight for any time and arrive in any order; groups may be flushed, and
    images and packets may time out. */
module Pipeline {
  import opened Basics
  import opened GroupPlaces
  import P = PacketResult
  import D = PacketDecisions
  import M = ImageMultipler
  import G = ImageGroup

  /** `algorithms` is how many results the multiplers wait for, the batch inference's among
      them; `cameras` does not change. */
  datatype Config = Config(packet: P.Config, algorithms: nat, inferTimeout: uint64, cameras: int, batch: bool) {
    predicate Valid() {
      cameras >= 1
    }

    function ForCamera(cameraId: int): M.Config {
      M.Config(cameraId, algorithms, inferTimeout)
    }

    function Needed(): (n: nat)
      ensures n >= 1 && forall cam :: n == M.Needed(ForCamera(cam))
    {
      if algorithms <= 1 then 1 else algorithms
    }
  }

  /** `results` and `verdicts` are in flight, by image; `lost` says that a second one for the
      same image was ever sent. What follows is history: the images captured, how many results
      of other algorithms each has had, those whose own result has arrived, whether the model
      answered that they are good, and those that another algorithm rejected; those whose
      verdict has been delivered, those reported at a time-out, and of these the ones with a bad
      result afterwards, which is dropped; and those whose bad verdict came when their packet had
      left. */
  datatype State = State(
    packets: P.State, muls: map<int, M.State>, group: G.State, inferred: nat,
    results: map<uint64, G.IasResult>, verdicts: map<uint64, M.Signal>, lost: bool,
    captured: map<uint64, Owner>, extras: map<uint64, nat>, arrived: set<uint64>,
    answers: map<uint64, bool>, rejected: set<uint64>,
    delivered: set<uint64>, late: set<uint64>, dropped: set<uint64>, missed: set<uint64>)

  datatype Event =
    | Take(imageId: uint64, cameraId: uint32, time: uint64, now: uint64, order: seq<uint64>, picture: nat, later: int)
    | Flush(at: int, maxInterval: int, order: seq<uint64>)
    | Infer(initOk: bool, ai: seq<G.AiResult>)
    | Result(imageId: uint64)
    | Other(imageId: uint64, part: M.Part)
    | Verdict(imageId: uint64)
    | ImageTimeout(camera: int, now: uint64, order: seq<uint64>)
    | PacketTimeout(now: uint64, order: seq<uint64>)

  const INITIAL :=
    State(P.INITIAL, map[], G.INITIAL, 0, map[], map[], false, map[], map[], {}, map[], {}, {}, {}, {}, {})

  function MulOf(s: State, cameraId: int): M.State {
    if cameraId in s.muls then s.muls[cameraId] else M.INITIAL
  }

  function ExtrasOf(s: State, i: uint64): nat {
    if i in s.extras then s.extras[i] else 0
  }

  /** Results are kept in 16 bits. */
  predicate InRange(result: int) {
    -0x8000 < result < 0x8000
  }

  predicate Enabled(c: Config, s: State, e: Event) {
    match e
    case Take(imageId, _, _, _, order, _, _) => imageId !in s.captured && Enumerates(order, s.packets.packets.Keys)
    case Flush(_, _, order) => Enumerates(order, s.group.groups.Keys)
    case Infer(initOk, ai) =>
      s.inferred < |s.group.emitted| && s.group.emitted[s.inferred].Aligned()
      && (initOk ==> |ai| >= |s.group.emitted[s.inferred].imageIds|)
    case Result(i) => i in s.results
    case Other(i, part) => i in s.captured && ExtrasOf(s, i) + 1 < c.Needed() && InRange(part.result)
    case Verdict(i) => i in s.verdicts
    case ImageTimeout(cam, _, order) => Enumerates(order, MulOf(s, cam).pending.Keys)
    case PacketTimeout(_, order) => Enumerates(order, s.packets.packets.Keys)
  }

  function Position(ids: seq<uint64>, x: uint64): (k: nat)
    requires x in ids
    ensures k < |ids| && ids[k] == x
  {
    if ids[0] == x then 0 else 1 + Position(ids[1..], x)
  }

  function GroupResults(g: G.Group, initOk: bool, ai: seq<G.AiResult>): map<uint64, G.IasResult>
    requires g.Aligned() && (initOk ==> |ai| >= |g.imageIds|)
  {
    map x | x in IdSet(g) :: G.ResultAt(g, initOk, ai, Position(g.imageIds, x))
  }

  /** What the model says of each image of a group; nothing when it is not loaded. */
  function Answers(g: G.Group, initOk: bool, ai: seq<G.AiResult>): map<uint64, bool>
    requires g.Aligned() && (initOk ==> |ai| >= |g.imageIds|)
  {
    map x | x in IdSet(g) && initOk :: ai[Position(g.imageIds, x)].good
  }

  /** The model answered that the image is not good, or another algorithm rejected it. */
  predicate Bad(s: State, i: uint64) {
    (i in s.answers && !s.answers[i]) || i in s.rejected
  }

  /** A multipler changes, and may send the verdict on an image. */
  function Announce(s: State, cameraId: int, m': M.State): State {
    var m := MulOf(s, cameraId);
    var t := s.(muls := s.muls[cameraId := m']);
    if |m'.finished| > |m.finished| then
      var f := m'.finished[|m.finished|];
      t.(verdicts := t.verdicts[f.imageId := M.Signal(f.objectId, f.imageId, M.Verdict(f.parts))],
         lost := t.lost || f.imageId in t.verdicts,
         late := t.late + if f.timedOut then {f.imageId} else {})
    else t
  }

  /** A result reaches the multipler of its camera, which may finish the image, or not know it. */
  function Deliver(c: Config, s: State, cameraId: int, imageId: uint64, part: M.Part): State {
    var m := MulOf(s, cameraId);
    var drop := imageId !in m.pending && part.result == M.RESULT_NG;
    Announce(s.(dropped := s.dropped + if drop then {imageId} else {}), cameraId,
      M.Step(c.ForCamera(cameraId), m, M.IasResult(cameraId, imageId, part, true)))
  }

  /** The packet a verdict is for is still there and has the image. */
  predicate Reached(s: State, v: M.Signal) {
    v.objectId in s.packets.packets && v.imageId in s.packets.packets[v.objectId].images
  }

  function PacketEvent(c: Config, e: Event): P.Event
    requires e.Take?
  {
    P.Image(e.imageId, e.cameraId, e.time, e.now, c.cameras, e.order)
  }

  function OnTake(c: Config, s: State, e: Event): State
    requires e.Take?
  {
    var pe := PacketEvent(c, e);
    var o, cam := P.Target(c.packet, s.packets, pe), e.cameraId as int;
    var ge := G.ImageData(G.Image(o, cam, e.imageId, e.picture), c.cameras, G.Infer, e.later);
    s.(packets := P.OnImage(c.packet, s.packets, pe),
       muls := s.muls[cam := M.Step(c.ForCamera(cam), MulOf(s, cam), M.ImageData(e.imageId, o, e.time))],
       group := G.OnImage(c.batch, s.group, ge),
       captured := s.captured[e.imageId := Owner(o, cam)])
  }

  function OnInfer(s: State, e: Event): State
    requires e.Infer? && s.inferred < |s.group.emitted| && s.group.emitted[s.inferred].Aligned()
    requires e.initOk ==> |e.ai| >= |s.group.emitted[s.inferred].imageIds|
  {
    var g := s.group.emitted[s.inferred];
    var news := GroupResults(g, e.initOk, e.ai);
    s.(results := s.results + news, inferred := s.inferred + 1,
       lost := s.lost || !Distinct(g.imageIds) || !(news.Keys !! s.results.Keys),
       answers := s.answers + Answers(g, e.initOk, e.ai))
  }

  /** Another algorithm has judged the image. */
  function WithOther(s: State, i: uint64, part: M.Part): State {
    s.(extras := s.extras[i := ExtrasOf(s, i) + 1],
       rejected := s.rejected + if part.result == M.RESULT_NG then {i} else {})
  }

  function Step(c: Config, s: State, e: Event): State
    requires Enabled(c, s, e)
  {
    match e
    case Take(_, _, _, _, _, _, _) => OnTake(c, s, e)
    case Flush(at, maxInterval, order) => s.(group := G.Scan(s.group, at, maxInterval, order))
    case Infer(_, _) => OnInfer(s, e)
    case Result(i) =>
      var r := s.results[i];
      Deliver(c, s.(results := s.results - {i}, arrived := s.arrived + {i}), r.cameraId, r.imageId,
        M.Part(r.result, r.json))
    case Other(i, part) =>
      Deliver(c, WithOther(s, i, part), s.captured[i].cameraId, i, part)
    case Verdict(i) =>
      var v := s.verdicts[i];
      s.(packets := P.OnVerdict(s.packets, P.Verdict(v.objectId, v.imageId, v.result, c.cameras)),
        verdicts := s.verdicts - {i},
        delivered := s.delivered + {i},
        missed := s.missed + if !Reached(s, v) && v.result == M.RESULT_NG then {i} else {})
    case ImageTimeout(cam, now, order) =>
      Announce(s, cam, M.Step(c.ForCamera(cam), MulOf(s, cam), M.Timeout(now, true, order)))
    case PacketTimeout(now, order) =>
      s.(packets := P.OnTimeout(c.packet, s.packets, P.Timeout(now, c.cameras, order)))
  }

  ghost predicate Run(c: Config, events: seq<Event>, s: State)
    decreases |events|
  {
    if events == [] then s == INITIAL
    else
      var n := |events| - 1;
      exists t :: Run(c, events[..n], t) && Enabled(c, t, events[n]) && s == Step(c, t, events[n])
  }

  // ----------------------------------------------------------------- one image's way

  /** Where an image is, and what is known of it. */
  datatype View = View(
    result: Option<G.IasResult>, pending: Option<M.Pending>, verdict: Option<M.Signal>, latest: Option<uint16>,
    arrived: bool, extras: nat, bad: bool, delivered: bool, late: bool, dropped: bool, missed: bool)

  function ViewOf(s: State, i: uint64): View
    requires i in s.captured
  {
    var w := s.captured[i];
    var m := MulOf(s, w.cameraId);
    View(if i in s.results then Some(s.results[i]) else None,
         if i in m.pending then Some(m.pending[i]) else None,
         if i in s.verdicts then Some(s.verdicts[i]) else None,
         D.Latest(s.packets.history.judged, w.objectId, i),
         i in s.arrived, ExtrasOf(s, i), Bad(s, i), i in s.delivered, i in s.late, i in s.dropped, i in s.missed)
  }

  predicate PartsInRange(parts: seq<M.Part>) {
    forall k :: 0 <= k < |parts| ==> InRange(parts[k].result)
  }

  predicate BadShown(v: View) {
    || (v.result.Some? && v.result.value.result == G.RESULT_NG)
    || (v.pending.Some? && M.SaysNg(v.pending.value.parts))
    || (v.verdict.Some? && v.verdict.value.result == M.RESULT_NG)
    || v.latest == Some(P.RESULT_NG) || v.dropped || v.missed
  }

  /** An image is pending with fewer results than are needed, has its verdict in flight, or has
      had it delivered; without a time-out its own result came before. A bad result is lost only
      when it is dropped or missed. */
  predicate Good(need: nat, i: uint64, w: Owner, v: View) {
    && (v.arrived ==> v.result.None?)
    && (v.result.Some? ==>
          var r := v.result.value;
          r.imageId == i && Owner(r.objectId, r.cameraId) == w && InRange(r.result))
    && v.extras < need
    && (if v.pending.Some? then
          var p := v.pending.value;
          p.objectId == w.objectId && v.verdict.None? && v.latest.None? && PartsInRange(p.parts)
          && !v.delivered && !v.late && !v.dropped && !v.missed
          && |p.parts| == v.extras + (if v.arrived then 1 else 0) && |p.parts| < need
        else
          (v.late || (v.arrived && v.extras + 1 == need))
          && (v.verdict.Some? <==> !v.delivered) && (v.latest.Some? ==> v.delivered)
          && (v.missed ==> v.delivered && v.latest.None?)
          && (v.dropped ==> v.late)
          && (v.verdict.Some? ==>
                var g := v.verdict.value;
                g.imageId == i && g.objectId == w.objectId && InRange(g.result)))
    && (v.bad <==> BadShown(v))
  }

  // -------------------------------------------------------------------- the invariant

  ghost predicate PacketsOk(c: Config, s: P.State) {
    P.Inv(c.packet, s) && D.Decided(s) && D.Heard(s, c.cameras)
  }

  /** Captured images are those assigned to packets, each to its own. */
  ghost predicate Assigned(s: State) {
    (forall a :: a in s.packets.history.joined ==>
       a.imageId in s.captured && s.captured[a.imageId].objectId == a.objectId)
    && (forall i :: i in s.captured ==> P.JoinedAny(s.packets.history, s.captured[i].objectId, i))
  }

  predicate KeysOk(s: State) {
    s.results.Keys <= s.captured.Keys && s.verdicts.Keys <= s.captured.Keys && s.extras.Keys <= s.captured.Keys
    && s.answers.Keys <= s.captured.Keys && s.rejected <= s.captured.Keys && s.arrived <= s.captured.Keys
    && s.delivered <= s.captured.Keys
    && s.late <= s.captured.Keys && s.dropped <= s.captured.Keys && s.missed <= s.captured.Keys
    && forall cam, i :: cam in s.muls && i in s.muls[cam].pending ==> i in s.captured && s.captured[i].cameraId == cam
  }

  predicate ResultsOk(s: State) {
    s.inferred <= |s.group.emitted| && Ids(s.group.emitted[..s.inferred]) == s.results.Keys + s.arrived && !s.lost
    && s.answers.Keys <= s.results.Keys + s.arrived
  }

  predicate ViewsGood(c: Config, s: State) {
    forall i :: i in s.captured ==> Good(c.Needed(), i, s.captured[i], ViewOf(s, i))
  }

  /** A verdict that was delivered and not recorded came when the packet had left. */
  predicate GoneOk(s: State) {
    forall i :: i in s.delivered && i in s.captured ==>
      var o := s.captured[i].objectId;
      D.Latest(s.packets.history.judged, o, i) == None ==> o !in s.packets.packets
  }

  ghost predicate Inv(c: Config, s: State) {
    PacketsOk(c, s.packets) && Assigned(s) && Places(s.group, s.captured) && KeysOk(s) && ResultsOk(s)
    && ViewsGood(c, s) && GoneOk(s)
  }

  // ------------------------------------------------------------------ values of a view

  lemma NgVerdict(parts: seq<M.Part>)
    requires PartsInRange(parts)
    ensures M.Verdict(parts) == M.RESULT_NG <==> M.SaysNg(parts)
    ensures InRange(M.Verdict(parts))
  {
    M.VerdictNg(parts);
    FirstInRange(parts);
  }

  lemma {:induction false} FirstInRange(parts: seq<M.Part>)
    requires PartsInRange(parts)
    ensures InRange(M.FirstProper(parts))
  {
    if parts != [] {
      FirstInRange(parts[1..]);
    }
  }

  lemma OneMorePart(parts: seq<M.Part>, p: M.Part)
    requires PartsInRange(parts) && InRange(p.result)
    ensures PartsInRange(parts + [p]) && (M.SaysNg(parts + [p]) <==> M.SaysNg(parts) || p.result == M.RESULT_NG)
  {
    var all := parts + [p];
    assert all[|parts|] == p && forall k :: 0 <= k < |parts| ==> all[k] == parts[k];
  }

  /** The view after one more result: still pending, or finished with a verdict in flight. */
  function Merged(need: nat, i: uint64, w: Owner, v: View, part: M.Part): View
    requires v.pending.Some?
  {
    var parts := v.pending.value.parts + [part];
    if |parts| >= need then
      v.(pending := None, verdict := Some(M.Signal(v.pending.value.objectId, i, M.Verdict(parts))))
    else v.(pending := Some(v.pending.value.(parts := parts)))
  }

  /** The view after a result: merged, or dropped when the image has been reported. */
  function Handed(need: nat, i: uint64, w: Owner, v: View, part: M.Part): View {
    if v.pending.Some? then Merged(need, i, w, v, part)
    else v.(dropped := v.dropped || part.result == M.RESULT_NG)
  }

  lemma OwnResultGood(need: nat, i: uint64, w: Owner, v: View)
    requires Good(need, i, w, v) && v.result.Some?
    ensures v.pending.Some? ==> v.verdict.None?
    ensures var r := v.result.value;
      Good(need, i, w, Handed(need, i, w, v.(result := None, arrived := true), M.Part(r.result, r.json)))
  {
    if v.pending.Some? {
      var r := v.result.value;
      var parts, p := v.pending.value.parts, M.Part(r.result, r.json);
      OneMorePart(parts, p);
      NgVerdict(parts + [p]);
    }
  }

  lemma OtherResultGood(need: nat, i: uint64, w: Owner, v: View, part: M.Part)
    requires Good(need, i, w, v) && v.extras + 1 < need && InRange(part.result)
    ensures v.pending.Some? ==> v.verdict.None?
    ensures Good(need, i, w,
      Handed(need, i, w, v.(extras := v.extras + 1, bad := v.bad || part.result == M.RESULT_NG), part))
  {
    if v.pending.Some? {
      var parts := v.pending.value.parts;
      OneMorePart(parts, part);
      NgVerdict(parts + [part]);
    }
  }

  /** The view of a pending image that is reported at a time-out. */
  function Reported(i: uint64, v: View): View
    requires v.pending.Some?
  {
    var p := v.pending.value;
    v.(pending := None, verdict := Some(M.Signal(p.objectId, i, M.Verdict(p.parts))), late := true)
  }

  lemma ReportedGood(need: nat, i: uint64, w: Owner, v: View)
    requires Good(need, i, w, v) && v.pending.Some?
    ensures v.verdict.None? && Good(need, i, w, Reported(i, v))
  {
    NgVerdict(v.pending.value.parts);
  }

  lemma StoredNg(result: int)
    requires InRange(result)
    ensures P.Stored(result) == P.RESULT_NG <==> result == M.RESULT_NG
  {
  }

  /** The view after its verdict was delivered, to its packet or to none. */
  function Judged(v: View, reached: bool): View
    requires v.verdict.Some?
  {
    var result := v.verdict.value.result;
    v.(verdict := None, delivered := true, latest := if reached then Some(P.Stored(result)) else v.latest,
       missed := v.missed || (!reached && result == M.RESULT_NG))
  }

  lemma JudgedGood(need: nat, i: uint64, w: Owner, v: View, reached: bool)
    requires Good(need, i, w, v) && v.verdict.Some?
    ensures v.latest.None? && Good(need, i, w, Judged(v, reached))
  {
    StoredNg(v.verdict.value.result);
  }
}
