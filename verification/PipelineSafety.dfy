/** Over every run of the pipeline: a bad image lets its packet pass only past a time-out, and
    when nothing is in flight any more, exactly the packets with a bad image have been kicked. */
module PipelineSafety {
  import opened Basics
  import opened GroupPlaces
  import opened Pipeline
  import opened PipelineSteps
  import P = PacketResult
  import D = PacketDecisions
  import M = ImageMultipler
  import G = ImageGroup

  // -------------------------------------------------------------------------- every run

  lemma StepKeeps(c: Config, s: State, e: Event)
    requires c.Valid() && Inv(c, s) && Enabled(c, s, e) && Distinct(Step(c, s, e).packets.history.created)
    requires Distinct(s.packets.history.created)
    ensures Inv(c, Step(c, s, e))
  {
    hide Inv, Step, Enabled;
    match e
    case Take(_, _, _, _, _, _, _) => TakeKeeps(c, s, e);
    case Flush(_, _, _) => FlushKeeps(c, s, e);
    case Infer(_, _) => InferKeeps(c, s, e);
    case Result(_) => ResultKeeps(c, s, e);
    case Other(_, _) => OtherKeeps(c, s, e);
    case Verdict(_) => VerdictKeeps(c, s, e);
    case ImageTimeout(_, _, _) => ImageTimeoutKeeps(c, s, e);
    case PacketTimeout(_, _) => PacketTimeoutKeeps(c, s, e);
  }

  lemma CreatedGrows(c: Config, s: State, e: Event)
    requires Enabled(c, s, e)
    ensures s.packets.history.created <= Step(c, s, e).packets.history.created
  {
    hide P.OnImage, P.OnVerdict, P.OnTimeout, P.Target, G.OnImage, G.Scan, M.Step, GroupResults;
    match e
    case Take(_, _, _, _, _, _, _) =>
      D.CreatedGrows(c.packet, s.packets, PacketEvent(c, e));
    case Verdict(i) =>
      var v := s.verdicts[i];
      VerdictHistory(s.packets, P.Verdict(v.objectId, v.imageId, v.result, c.cameras));
    case PacketTimeout(now, order) =>
      PacketTimeoutFrame(c.packet, s.packets, P.Timeout(now, c.cameras, order));
    case _ =>
  }

  lemma {:induction false} RunKeeps(c: Config, events: seq<Event>, s: State)
    requires c.Valid() && Run(c, events, s) && Distinct(s.packets.history.created)
    ensures Inv(c, s)
    decreases |events|
  {
    hide Inv, Step, Enabled;
    if events == [] {
      InitialInv(c);
    } else {
      var n := |events| - 1;
      var t :| Run(c, events[..n], t) && Enabled(c, t, events[n]) && s == Step(c, t, events[n]);
      CreatedGrows(c, t, events[n]);
      DistinctPrefix(t.packets.history.created, s.packets.history.created);
      RunKeeps(c, events[..n], t);
      StepKeeps(c, t, events[n]);
    }
  }

  lemma InitialInv(c: Config)
    ensures Inv(c, INITIAL)
  {
    P.InitialInv(c.packet);
    D.InitialDecided();
    D.InitialHeard(c.cameras);
  }

  // --------------------------------------------------------------------- what it amounts to

  /** The image was reported at a time-out, and a bad result for it came, or comes, after that. */
  predicate Overtaken(s: State, i: uint64) {
    i in s.late && (i in s.dropped || (i in s.results && s.results[i].result == G.RESULT_NG))
  }

  /** With a verdict recorded, a bad image has a bad one, unless it was reported before. */
  lemma BadStands(need: nat, i: uint64, w: Owner, v: View)
    requires Good(need, i, w, v) && v.latest.Some?
    ensures v.latest == Some(P.RESULT_NG) ==> v.bad
    ensures v.bad && v.latest != Some(P.RESULT_NG) ==>
      v.late && (v.dropped || (v.result.Some? && v.result.value.result == G.RESULT_NG))
  {
  }

  /** What becomes of the packet of an image that some algorithm judged bad. It passes only when
      the image was reported at a time-out before its bad result came, or when the packet was
      settled by a time-out before the verdict came. Otherwise it is live, or has failed, and
      then it is kicked unless a time-out settled it. */
  lemma BadImageNeverPasses(c: Config, events: seq<Event>, s: State, i: uint64)
    requires c.Valid() && Run(c, events, s) && Distinct(s.packets.history.created) && Bad(s, i)
    ensures i in s.captured
    ensures var o, h := s.captured[i].objectId, s.packets.history;
      && (o in s.packets.packets || o in h.passed || o in h.failed || o in h.expired)
      && (o in h.passed ==>
            Overtaken(s, i) || (TimedOut(h, o) && D.Latest(h.judged, o, i) == None))
      && (o in h.failed && !TimedOut(h, o) ==> o in h.kicked)
  {
    hide Run, Good, D.Latest, D.Heard, Places, GoneOk, TimedOut;
    RunKeeps(c, events, s);
    var w := s.captured[i];
    var o, h := w.objectId, s.packets.history;
    PacketInvAccounts(c, s.packets);
    P.GoneOnce(s.packets);
    JoinedCreated(c, s, i);
    CreatedSomewhere(s.packets, o);
    NotTimedOut(h, o);
    if ViewOf(s, i).latest.None? {
      LiveOrTimedOut(c, s, i);
    } else {
      BadStands(c.Needed(), i, w, ViewOf(s, i));
      assert ViewOf(s, i).latest == Some(P.RESULT_NG) ==> D.NgStands(h.judged, o);
    }
  }

  lemma NotTimedOut(h: P.History, o: uint64)
    ensures !TimedOut(h, o) ==> o !in h.expired && D.NotLate(h, o) && D.Kickable(h, o)
  {
  }

  /** Without time-outs of its image and its packet, a bad image never lets its packet pass: the
      packet is live, or it has failed and been kicked. */
  lemma BadImageKicks(c: Config, events: seq<Event>, s: State, i: uint64)
    requires c.Valid() && Run(c, events, s) && Distinct(s.packets.history.created)
    requires Bad(s, i) && i in s.captured && i !in s.late && !TimedOut(s.packets.history, s.captured[i].objectId)
    ensures var o, h := s.captured[i].objectId, s.packets.history;
      o !in h.passed && (o in s.packets.packets || (o in h.failed && o in h.kicked))
  {
    hide Run;
    BadImageNeverPasses(c, events, s, i);
    NotTimedOut(s.packets.history, s.captured[i].objectId);
  }

  predicate Timely(events: seq<Event>) {
    forall k :: 0 <= k < |events| ==> !events[k].ImageTimeout? && !events[k].PacketTimeout?
  }

  lemma TimelyStep(c: Config, s: State, e: Event)
    requires Enabled(c, s, e) && !e.ImageTimeout? && !e.PacketTimeout?
    ensures var t := Step(c, s, e);
      t.late == s.late && t.packets.history.late == s.packets.history.late
      && t.packets.history.expired == s.packets.history.expired
  {
    hide P.OnImage, P.OnVerdict, P.Target, G.OnImage, G.Scan, GroupResults, MulOf, M.Verdict, Deliver;
    match e
    case Take(_, _, _, _, _, _, _) =>
      var a := P.TargetJoins(c.packet, s.packets, PacketEvent(c, e));
    case Verdict(i) =>
      var v := s.verdicts[i];
      VerdictHistory(s.packets, P.Verdict(v.objectId, v.imageId, v.result, c.cameras));
    case Result(i) =>
      var r := s.results[i];
      DeliverNotLate(c, s.(results := s.results - {i}, arrived := s.arrived + {i}), r.cameraId, r.imageId,
        M.Part(r.result, r.json));
    case Other(i, part) =>
      DeliverNotLate(c, WithOther(s, i, part), s.captured[i].cameraId, i, part);
    case _ =>
  }

  /** A result that arrives finishes no image at a time-out. */
  lemma DeliverNotLate(c: Config, s: State, cameraId: int, imageId: uint64, part: M.Part)
    ensures var t := Deliver(c, s, cameraId, imageId, part);
      t.late == s.late && t.packets == s.packets
  {
    hide M.Verdict, M.Step;
    var d, m, e := c.ForCamera(cameraId), MulOf(s, cameraId), M.IasResult(cameraId, imageId, part, true);
    if imageId in m.pending {
      M.ResultStep(d, m, e);
    } else {
      M.NoStep(d, m, e);
    }
  }

  /** A run without time-outs reports no image late and settles no packet so. */
  lemma TimelyRun(c: Config, events: seq<Event>, s: State)
    requires Run(c, events, s) && Timely(events)
    ensures s.late == {} && forall o :: !TimedOut(s.packets.history, o)
  {
    TimelyHistory(c, events, s);
  }

  lemma {:induction false} TimelyHistory(c: Config, events: seq<Event>, s: State)
    requires Run(c, events, s) && Timely(events)
    ensures s.late == {} && s.packets.history.late == [] && s.packets.history.expired == []
    decreases |events|
  {
    hide Step, Enabled;
    if events != [] {
      var n := |events| - 1;
      var t :| Run(c, events[..n], t) && Enabled(c, t, events[n]) && s == Step(c, t, events[n]);
      TimelyHistory(c, events[..n], t);
      TimelyStep(c, t, events[n]);
    }
  }

  /** Everything has been flushed, inferred, delivered, and the other algorithms have reported. */
  predicate Quiet(c: Config, s: State) {
    s.group.groups == map[] && s.inferred == |s.group.emitted| && s.results == map[] && s.verdicts == map[]
    && forall i :: i in s.captured ==> ExtrasOf(s, i) + 1 == c.Needed()
  }

  /** At rest every image has had its verdict delivered. */
  lemma QuietImageDelivered(c: Config, s: State, i: uint64)
    requires Inv(c, s) && Quiet(c, s) && i in s.captured
    ensures var v := ViewOf(s, i);
      v.delivered && v.result.None? && v.pending.None? && v.verdict.None?
    ensures Good(c.Needed(), i, s.captured[i], ViewOf(s, i))
  {
    hide D.Latest, PacketsOk, Assigned, GroupOk, Ids, GoneOk;
    assert s.group.emitted[..s.inferred] == s.group.emitted;
    assert !Waiting(s.group.groups, s.captured, i);
    assert i in s.arrived;
    assert Good(c.Needed(), i, s.captured[i], ViewOf(s, i));
  }

  /** Once all verdicts have been delivered, every packet has left. */
  lemma DeliveredNothingLive(c: Config, s: State)
    requires Inv(c, s) && s.captured.Keys <= s.delivered
    ensures s.packets.packets == map[]
  {
    hide PacketsOk, Assigned, Places, KeysOk, ResultsOk, ViewsGood, GoneOk;
    if o :| o in s.packets.packets {
      LiveShape(c, s, o);
      var i :| i in s.packets.packets[o].images && i !in s.packets.packets[o].results;
      DeliveredJudged(c, s, o, i);
      assert false;
    }
  }

  /** A live packet has the results of its images whose verdicts were delivered. */
  lemma DeliveredJudged(c: Config, s: State, o: uint64, i: uint64)
    requires Inv(c, s) && o in s.packets.packets && i in s.packets.packets[o].images
    ensures i in s.captured && (i in s.delivered ==> i in s.packets.packets[o].results)
  {
    hide D.Latest, D.Heard, P.Inv, Places, KeysOk, ResultsOk, ViewsGood;
    LiveImageCaptured(c, s, o, i);
    assert D.Reflects(s.packets.history.judged, s.packets.packets[o], o);
  }

  lemma QuietNothingLive(c: Config, s: State)
    requires Inv(c, s) && Quiet(c, s)
    ensures s.packets.packets == map[]
  {
    hide Inv, Quiet;
    forall i | i in s.captured
      ensures i in s.delivered
    {
      QuietImageDelivered(c, s, i);
    }
    DeliveredNothingLive(c, s);
  }

  lemma LiveShape(c: Config, s: State, o: uint64)
    requires PacketsOk(c, s.packets) && o in s.packets.packets
    ensures exists i :: i in s.packets.packets[o].images && i !in s.packets.packets[o].results
  {
    hide D.Decided, D.Heard;
    var p := s.packets.packets[o];
    assert P.PacketShape(p, o);
    assert p.results.Keys < p.images.Keys;
    var i :| i in p.images.Keys && i !in p.results.Keys;
  }

  lemma LiveImageCaptured(c: Config, s: State, o: uint64, i: uint64)
    requires PacketsOk(c, s.packets) && Assigned(s) && o in s.packets.packets && i in s.packets.packets[o].images
    ensures i in s.captured && s.captured[i].objectId == o
  {
    var p := s.packets.packets[o];
    P.PacketExplainedOf(s.packets, o);
    assert P.WasJoined(s.packets.history, o, i, p.images[i], p.firstImageTime);
  }

  /** Some image of the packet was judged bad by some algorithm. */
  ghost predicate HasBadImage(s: State, o: uint64) {
    exists i :: Bad(s, i) && i in s.captured && s.captured[i].objectId == o
  }

  /** No time-out touched the packet or one of its images. */
  ghost predicate InTime(s: State, o: uint64) {
    !TimedOut(s.packets.history, o) && forall i :: i in s.captured && s.captured[i].objectId == o ==> i !in s.late
  }

  lemma StandsIffBad(c: Config, s: State, o: uint64)
    requires Inv(c, s) && Quiet(c, s) && InTime(s, o) && Distinct(s.packets.history.created)
    ensures D.NgStands(s.packets.history.judged, o) <==> HasBadImage(s, o)
  {
    hide D.Latest, D.Heard, Places, Good, Quiet, GoneOk, TimedOut;
    var h := s.packets.history;
    if i: uint64 :| D.Latest(h.judged, o, i) == Some(P.RESULT_NG) {
      var j := D.LatestIsJudged(h.judged, o, i);
      JudgedIsJoined(c, s.packets, j);
      assert s.captured[i].objectId == o;
      QuietImageDelivered(c, s, i);
      BadStands(c.Needed(), i, s.captured[i], ViewOf(s, i));
    }
    if i :| Bad(s, i) && i in s.captured && s.captured[i].objectId == o {
      QuietImageDelivered(c, s, i);
      QuietNothingLive(c, s);
      if ViewOf(s, i).latest.None? {
        LiveOrTimedOut(c, s, i);
        assert false;
      }
      BadStands(c.Needed(), i, s.captured[i], ViewOf(s, i));
      assert D.Latest(h.judged, o, i) == Some(P.RESULT_NG);
    }
  }

  /** When nothing is in flight any more, every packet has left. One that no time-out touched was
      kicked when some algorithm judged one of its images bad, and passed otherwise, whatever
      timed out elsewhere. */
  lemma QuietDecision(c: Config, events: seq<Event>, s: State, o: uint64)
    requires c.Valid() && Run(c, events, s) && Distinct(s.packets.history.created) && Quiet(c, s)
    requires o in s.packets.history.created
    ensures s.packets.packets == map[]
    ensures InTime(s, o) ==> (o in s.packets.history.kicked <==> HasBadImage(s, o))
    ensures InTime(s, o) ==> (o in s.packets.history.passed <==> !HasBadImage(s, o))
  {
    hide Run, Good, D.Latest, D.Heard, Places, Quiet, HasBadImage, D.NgStands, GoneOk, TimedOut;
    RunKeeps(c, events, s);
    QuietNothingLive(c, s);
    PacketInvAccounts(c, s.packets);
    P.GoneOnce(s.packets);
    CreatedSomewhere(s.packets, o);
    NotTimedOut(s.packets.history, o);
    if InTime(s, o) {
      StandsIffBad(c, s, o);
    }
  }

  /** In a run without time-outs that is every packet. */
  lemma TimelyDecision(c: Config, events: seq<Event>, s: State, o: uint64)
    requires c.Valid() && Run(c, events, s) && Distinct(s.packets.history.created) && Quiet(c, s) && Timely(events)
    requires o in s.packets.history.created
    ensures o in s.packets.history.kicked <==> HasBadImage(s, o)
    ensures o in s.packets.history.passed <==> !HasBadImage(s, o)
  {
    hide Run, HasBadImage, Quiet, TimedOut;
    QuietDecision(c, events, s, o);
    TimelyRun(c, events, s);
  }
}
