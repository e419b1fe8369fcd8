/** Every step of the pipeline keeps its invariant. */
module PipelineSteps {
  import opened Basics
  import opened GroupPlaces
  import opened Pipeline
  import P = PacketResult
  import D = PacketDecisions
  import M = ImageMultipler
  import G = ImageGroup

  // ------------------------------------------------------------------ what a view reads

  predicate SameEntry<T(==)>(a: map<uint64, T>, b: map<uint64, T>, i: uint64) {
    (i in a <==> i in b) && (i in a ==> a[i] == b[i])
  }

  /** The two states say the same about image i. */
  predicate Agree(s: State, t: State, i: uint64) {
    i in s.captured && SameEntry(s.captured, t.captured, i) && SameEntry(s.results, t.results, i)
    && SameEntry(s.verdicts, t.verdicts, i)
    && SameEntry(MulOf(s, s.captured[i].cameraId).pending, MulOf(t, s.captured[i].cameraId).pending, i)
    && t.packets.history.judged == s.packets.history.judged
    && (i in s.arrived <==> i in t.arrived) && ExtrasOf(s, i) == ExtrasOf(t, i)
    && SameEntry(s.answers, t.answers, i) && (i in s.rejected <==> i in t.rejected)
    && (i in s.delivered <==> i in t.delivered) && (i in s.late <==> i in t.late)
    && (i in s.dropped <==> i in t.dropped) && (i in s.missed <==> i in t.missed)
  }

  lemma SameView(s: State, t: State, i: uint64)
    requires Agree(s, t, i)
    ensures ViewOf(t, i) == ViewOf(s, i)
  {
    hide D.Latest, MulOf, ExtrasOf;
  }

  lemma AgreeThrough(s: State, u: State, t: State, i: uint64)
    requires Agree(s, u, i) && Agree(u, t, i)
    ensures Agree(s, t, i)
  {
    hide MulOf, ExtrasOf;
  }

  /** One image's view is good again, the others agree with what they were. */
  lemma ViewsStayGood(c: Config, s: State, t: State, i: uint64)
    requires ViewsGood(c, s) && t.captured == s.captured && i in s.captured
    requires Good(c.Needed(), i, t.captured[i], ViewOf(t, i))
    requires forall j :: j in s.captured && j != i ==> Agree(s, t, j)
    ensures ViewsGood(c, t)
  {
    hide Good, ViewOf, Agree;
    forall j | j in t.captured
      ensures Good(c.Needed(), j, t.captured[j], ViewOf(t, j))
    {
      assert Good(c.Needed(), j, s.captured[j], ViewOf(s, j));
      if j != i {
        SameView(s, t, j);
      }
    }
  }

  // --------------------------------------------------------------------- taking images

  lemma TakePackets(c: Config, s: State, e: Event)
    requires c.Valid() && Inv(c, s) && e.Take? && Enabled(c, s, e) && Distinct(OnTake(c, s, e).packets.history.created)
    ensures PacketsOk(c, OnTake(c, s, e).packets)
  {
    hide P.Inv, D.Decided, D.Heard, P.OnImage, P.Target, Places, KeysOk, ResultsOk, ViewsGood;
    var pe := PacketEvent(c, e);
    var t := P.OnImage(c.packet, s.packets, pe);
    assert P.Enabled(s.packets, pe) && P.Step(c.packet, s.packets, pe) == t;
    D.CreatedGrows(c.packet, s.packets, pe);
    DistinctPrefix(s.packets.history.created, t.history.created);
    P.StepKeeps(c.packet, s.packets, pe);
    D.ImageDecides(c.packet, s.packets, pe);
    D.ImageHeard(c.packet, s.packets, pe, c.cameras);
  }

  lemma DistinctPrefix(a: seq<uint64>, b: seq<uint64>)
    requires a <= b && Distinct(b)
    ensures Distinct(a)
  {
  }

  lemma TakeAssigned(c: Config, s: State, e: Event)
    requires Assigned(s) && e.Take? && e.imageId !in s.captured
    ensures Assigned(OnTake(c, s, e))
  {
    hide P.OnImage, P.Target, P.WasJoined;
    var pe, t := PacketEvent(c, e), OnTake(c, s, e);
    var a := P.TargetJoins(c.packet, s.packets, pe);
    assert t.captured == s.captured[e.imageId := Owner(a.objectId, e.cameraId as int)];
    forall i | i in t.captured
      ensures P.JoinedAny(t.packets.history, t.captured[i].objectId, i)
    {
      if i == e.imageId {
        assert a in t.packets.history.joined;
      } else {
        assert P.JoinedAny(s.packets.history, s.captured[i].objectId, i);
      }
    }
  }

  /** No verdict was recorded on an image that has not been captured. */
  lemma NotYetJudged(c: Config, s: State, o: uint64, i: uint64)
    requires PacketsOk(c, s.packets) && Assigned(s) && i !in s.captured
    ensures D.Latest(s.packets.history.judged, o, i) == None
  {
    if D.Latest(s.packets.history.judged, o, i).Some? {
      var j := D.LatestIsJudged(s.packets.history.judged, o, i);
      JudgedIsJoined(c, s.packets, j);
    }
  }

  lemma JudgedIsJoined(c: Config, s: P.State, j: P.Judgement)
    requires PacketsOk(c, s) && j in s.history.judged
    ensures P.JoinedAny(s.history, j.objectId, j.imageId)
  {
  }

  lemma TakeMul(c: Config, s: State, e: Event)
    requires KeysOk(s) && e.Take? && e.imageId !in s.captured
    ensures var t, i, cam := OnTake(c, s, e), e.imageId, e.cameraId as int;
      && i !in MulOf(s, cam).pending && i in MulOf(t, cam).pending
      && MulOf(t, cam).pending[i].parts == []
      && MulOf(t, cam).pending[i].objectId == P.Target(c.packet, s.packets, PacketEvent(c, e))
      && (forall j, x :: j != i ==> (j in MulOf(t, x).pending <==> j in MulOf(s, x).pending))
      && (forall j, x :: j != i && j in MulOf(s, x).pending ==> MulOf(t, x).pending[j] == MulOf(s, x).pending[j])
  {
    hide P.OnImage, P.Target, G.OnImage;
  }

  lemma TakeAgrees(c: Config, s: State, e: Event)
    requires KeysOk(s) && e.Take? && e.imageId !in s.captured
    ensures forall j :: j in s.captured ==> Agree(s, OnTake(c, s, e), j)
    ensures var t, i := OnTake(c, s, e), e.imageId;
      t.captured == s.captured[i := Owner(P.Target(c.packet, s.packets, PacketEvent(c, e)), e.cameraId as int)]
      && t.packets.history.judged == s.packets.history.judged
      && i !in t.results && i !in t.verdicts && i !in t.arrived && i !in t.extras && i !in t.answers && i !in t.rejected
      && i !in t.delivered && i !in t.late && i !in t.dropped && i !in t.missed
  {
    hide P.OnImage, P.Target, G.OnImage, M.Step;
    var a := P.TargetJoins(c.packet, s.packets, PacketEvent(c, e));
    TakeMul(c, s, e);
  }

  lemma TakeViews(c: Config, s: State, e: Event)
    requires Inv(c, s) && e.Take? && Enabled(c, s, e)
    ensures ViewsGood(c, OnTake(c, s, e)) && KeysOk(OnTake(c, s, e))
  {
    hide PacketsOk, Assigned, Places, Good, OnTake, Agree, P.Target;
    var t, i := OnTake(c, s, e), e.imageId;
    TakeAgrees(c, s, e);
    TakeMul(c, s, e);
    TakeKeys(c, s, e);
    NotYetJudged(c, s, t.captured[i].objectId, i);
    NewGood(c.Needed(), i, t.captured[i], ViewOf(t, i));
    hide ViewOf;
    forall j | j in t.captured
      ensures Good(c.Needed(), j, t.captured[j], ViewOf(t, j))
    {
      if j != i {
        SameView(s, t, j);
        assert Good(c.Needed(), j, s.captured[j], ViewOf(s, j));
      }
    }
  }

  lemma TakeKeys(c: Config, s: State, e: Event)
    requires KeysOk(s) && e.Take? && e.imageId !in s.captured
    ensures KeysOk(OnTake(c, s, e))
  {
    hide P.OnImage, P.Target, G.OnImage, M.Step;
    var t := OnTake(c, s, e);
    TakeMul(c, s, e);
    forall cam, i | cam in t.muls && i in t.muls[cam].pending
      ensures i in t.captured && t.captured[i].cameraId == cam
    {
      assert MulOf(t, cam) == t.muls[cam];
      if i != e.imageId {
        assert i in MulOf(s, cam).pending;
      } else {
        assert cam != e.cameraId as int ==> MulOf(s, cam) == MulOf(t, cam);
      }
    }
  }

  lemma NewGood(need: nat, i: uint64, w: Owner, v: View)
    requires need >= 1 && v.pending.Some? && v.pending.value.parts == [] && v.pending.value.objectId == w.objectId
    requires v.result == None && v.verdict == None && v.latest == None && !v.arrived && v.extras == 0 && !v.bad
    requires !v.delivered && !v.late && !v.dropped && !v.missed
    ensures Good(need, i, w, v)
  {
  }

  lemma TakeKeeps(c: Config, s: State, e: Event)
    requires c.Valid() && Inv(c, s) && e.Take? && Enabled(c, s, e) && Distinct(Step(c, s, e).packets.history.created)
    ensures Inv(c, Step(c, s, e))
  {
    hide P.OnImage, P.Target, PacketsOk, Assigned, Places, KeysOk, ViewsGood, GoneOk;
    TakePackets(c, s, e);
    TakeAssigned(c, s, e);
    TakeViews(c, s, e);
    TakeGone(c, s, e);
    var o, cam := P.Target(c.packet, s.packets, PacketEvent(c, e)), e.cameraId as int;
    var ge := G.ImageData(G.Image(o, cam, e.imageId, e.picture), c.cameras, G.Infer, e.later);
    OnImagePlaces(c.batch, s.group, ge, s.captured);
    var t := OnTake(c, s, e);
    assert s.group.emitted <= t.group.emitted;
    assert t.group.emitted[..t.inferred] == s.group.emitted[..s.inferred];
  }

  lemma JoinedCreated(c: Config, s: State, i: uint64)
    requires PacketsOk(c, s.packets) && Assigned(s) && i in s.captured
    ensures s.captured[i].objectId in s.packets.history.created
  {
    assert P.JoinedAny(s.packets.history, s.captured[i].objectId, i);
  }

  /** Live packets after an image: those before, and perhaps a new one. */
  lemma LiveAfterImage(c: P.Config, s: P.State, e: P.Event)
    requires e.Image?
    ensures var t := P.OnImage(c, s, e);
      forall o :: o in t.packets && o !in s.packets ==> t.history.created == s.history.created + [o]
  {
    hide P.NearIds, P.Takes, FirstIn;
    P.NearAreLive(c, s.packets, e.time);
  }

  lemma LastIsNew(ids: seq<uint64>, o: uint64)
    requires Distinct(ids + [o])
    ensures o !in ids
  {
    var all := ids + [o];
    assert all[|ids|] == o && forall k :: 0 <= k < |ids| ==> all[k] == ids[k];
  }

  lemma TakeGone(c: Config, s: State, e: Event)
    requires Inv(c, s) && e.Take? && Enabled(c, s, e) && Distinct(OnTake(c, s, e).packets.history.created)
    ensures GoneOk(OnTake(c, s, e))
  {
    hide PacketsOk, Assigned, Places, ViewsGood, ResultsOk, P.OnImage, P.Target, G.OnImage, M.Step, D.Latest;
    var pe, t := PacketEvent(c, e), OnTake(c, s, e);
    var a := P.TargetJoins(c.packet, s.packets, pe);
    LiveAfterImage(c.packet, s.packets, pe);
    forall i | i in t.delivered && i in t.captured
      ensures var o := t.captured[i].objectId;
        D.Latest(t.packets.history.judged, o, i) == None ==> o !in t.packets.packets
    {
      var o := s.captured[i].objectId;
      JoinedCreated(c, s, i);
      if o in t.packets.packets && o !in s.packets.packets {
        LastIsNew(s.packets.history.created, o);
        assert false;
      }
    }
  }

  lemma FlushKeeps(c: Config, s: State, e: Event)
    requires Inv(c, s) && e.Flush? && Enabled(c, s, e)
    ensures Inv(c, Step(c, s, e))
  {
    hide PacketsOk, Places, Good, G.Scan, GoneOk, ViewOf, ViewsGood;
    var t := Step(c, s, e);
    ScanPlaces(s.group, e.at, e.maxInterval, e.order, s.captured);
    assert t.group.emitted[..t.inferred] == s.group.emitted[..s.inferred];
    GroupsOnly(c, s, t);
    AssignedDependsOn(s, t);
    GoneDependsOn(s, t);
    hide Assigned;
  }

  /** The views do not read the grouper. */
  lemma GroupsOnly(c: Config, s: State, t: State)
    requires ViewsGood(c, s) && t == s.(group := t.group)
    ensures ViewsGood(c, t)
  {
    hide Good, ViewOf;
    forall i | i in t.captured
      ensures Good(c.Needed(), i, t.captured[i], ViewOf(t, i))
    {
      SameView(s, t, i);
    }
  }

  lemma GoneDependsOn(s: State, t: State)
    requires GoneOk(s) && t.delivered == s.delivered && t.captured == s.captured
    requires t.packets.history.judged == s.packets.history.judged && t.packets.packets.Keys <= s.packets.packets.Keys
    ensures GoneOk(t)
  {
    hide D.Latest;
  }

  // ------------------------------------------------------------------------ inference

  lemma ResultsOwned(g: G.Group, owners: map<uint64, Owner>, initOk: bool, ai: seq<G.AiResult>, x: uint64)
    requires GroupOk(g, owners) && (initOk ==> |ai| >= |g.imageIds|) && x in g.imageIds
    ensures x in owners && x in GroupResults(g, initOk, ai)
    ensures var r := GroupResults(g, initOk, ai)[x];
      r.imageId == x && Owner(r.objectId, r.cameraId) == owners[x] && InRange(r.result)
  {
  }

  /** The group to be inferred next holds images whose result is not yet known. */
  lemma NextGroup(c: Config, s: State)
    requires Places(s.group, s.captured) && ResultsOk(s) && s.inferred < |s.group.emitted|
    ensures var g := s.group.emitted[s.inferred];
      GroupOk(g, s.captured) && IdSet(g) !! (s.results.Keys + s.arrived)
      && Ids(s.group.emitted[..s.inferred + 1]) == Ids(s.group.emitted[..s.inferred]) + IdSet(g)
  {
    var g := s.group.emitted[s.inferred];
    IdsOneMore(s.group.emitted[..s.inferred], g);
    assert s.group.emitted[..s.inferred + 1] == s.group.emitted[..s.inferred] + [g];
  }

  lemma InferredGood(need: nat, i: uint64, w: Owner, v: View, r: G.IasResult)
    requires Good(need, i, w, v) && v.result == None && !v.arrived
    requires r.imageId == i && Owner(r.objectId, r.cameraId) == w && InRange(r.result)
    ensures Good(need, i, w, v.(result := Some(r), bad := v.bad || r.result == G.RESULT_NG))
  {
  }

  lemma InferViews(c: Config, s: State, e: Event)
    requires Inv(c, s) && e.Infer? && Enabled(c, s, e)
    ensures ViewsGood(c, Step(c, s, e))
  {
    hide PacketsOk, Assigned, Places, Good, GroupOk, GroupResults, KeysOk, ViewOf, Agree, MulOf, IdSet, OnInfer;
    NextGroup(c, s);
    assert s.answers.Keys <= s.results.Keys + s.arrived;
    hide ResultsOk;
    var t, g := Step(c, s, e), s.group.emitted[s.inferred];
    var news := GroupResults(g, e.initOk, e.ai);
    NewKeys(g, s.captured, e.initOk, e.ai);
    assert t == OnInfer(s, e) && t.captured == s.captured by { InferFrame(s, e); }
    forall i | i in t.captured
      ensures Good(c.Needed(), i, t.captured[i], ViewOf(t, i))
    {
      assert Good(c.Needed(), i, s.captured[i], ViewOf(s, i));
      if i in news {
        InferIs(s, e, i);
        InList(g, i);
        ResultsOwned(g, s.captured, e.initOk, e.ai, i);
        InferredGood(c.Needed(), i, s.captured[i], ViewOf(s, i), news[i]);
      } else {
        InferAgrees(s, e, i);
        SameView(s, t, i);
      }
    }
  }

  lemma InList(g: G.Group, i: uint64)
    requires i in IdSet(g)
    ensures i in g.imageIds
  {
  }

  /** What an inference does to an image of the group. */
  lemma InferIs(s: State, e: Event, i: uint64)
    requires e.Infer? && s.inferred < |s.group.emitted| && s.group.emitted[s.inferred].Aligned() && i in s.captured
    requires e.initOk ==> |e.ai| >= |s.group.emitted[s.inferred].imageIds|
    requires s.answers.Keys <= s.results.Keys + s.arrived && i !in s.results && i !in s.arrived
    requires i in GroupResults(s.group.emitted[s.inferred], e.initOk, e.ai)
    ensures var t, r := OnInfer(s, e), GroupResults(s.group.emitted[s.inferred], e.initOk, e.ai)[i];
      ViewOf(s, i).result == None && !ViewOf(s, i).arrived && t.captured == s.captured
      && ViewOf(t, i) == ViewOf(s, i).(result := Some(r), bad := ViewOf(s, i).bad || r.result == G.RESULT_NG)
  {
    hide GroupResults, Answers, IdSet, D.Latest;
    AnswersSay(s.group.emitted[s.inferred], e.initOk, e.ai);
  }

  /** And that it does nothing to the others. */
  lemma InferAgrees(s: State, e: Event, i: uint64)
    requires e.Infer? && s.inferred < |s.group.emitted| && s.group.emitted[s.inferred].Aligned() && i in s.captured
    requires e.initOk ==> |e.ai| >= |s.group.emitted[s.inferred].imageIds|
    requires i !in GroupResults(s.group.emitted[s.inferred], e.initOk, e.ai)
    ensures Agree(s, OnInfer(s, e), i)
  {
    hide GroupResults, Answers, IdSet;
    AnswersSay(s.group.emitted[s.inferred], e.initOk, e.ai);
  }

  /** The results of a group say what the model answered. */
  lemma AnswersSay(g: G.Group, initOk: bool, ai: seq<G.AiResult>)
    requires g.Aligned() && (initOk ==> |ai| >= |g.imageIds|)
    ensures var news, answers := GroupResults(g, initOk, ai), Answers(g, initOk, ai);
      && answers.Keys <= news.Keys
      && forall x :: x in news ==> (news[x].result == G.RESULT_NG <==> x in answers && !answers[x])
  {
    forall x | x in GroupResults(g, initOk, ai)
      ensures GroupResults(g, initOk, ai)[x].result == G.RESULT_NG <==>
        x in Answers(g, initOk, ai) && !Answers(g, initOk, ai)[x]
    {
      G.ResultSays(g, initOk, ai, Position(g.imageIds, x));
    }
  }

  lemma InferKeeps(c: Config, s: State, e: Event)
    requires Inv(c, s) && e.Infer? && Enabled(c, s, e)
    ensures Inv(c, Step(c, s, e))
  {
    hide PacketsOk, Places, ViewsGood, Assigned, KeysOk, GoneOk, ResultsOk, GroupResults, OnInfer;
    var t := Step(c, s, e);
    InferFrame(s, e);
    InferViews(c, s, e);
    InferResults(c, s, e);
    AssignedDependsOn(s, t);
    GoneDependsOn(s, t);
  }

  /** The results of the next group are new, and after it are those of the groups so far. */
  lemma InferResults(c: Config, s: State, e: Event)
    requires Places(s.group, s.captured) && ResultsOk(s) && KeysOk(s) && e.Infer? && Enabled(c, s, e)
    ensures ResultsOk(OnInfer(s, e)) && KeysOk(OnInfer(s, e))
  {
    hide Places, GroupOk, Ids, GroupResults, Answers, IdSet, KeysOk, OnInfer;
    NextGroup(c, s);
    var g := s.group.emitted[s.inferred];
    NewKeys(g, s.captured, e.initOk, e.ai);
    InferKeys(s, e);
    InferFrame(s, e);
  }

  /** What an inference leaves as it is. */
  lemma InferFrame(s: State, e: Event)
    requires e.Infer? && s.inferred < |s.group.emitted| && s.group.emitted[s.inferred].Aligned()
    requires e.initOk ==> |e.ai| >= |s.group.emitted[s.inferred].imageIds|
    ensures var t := OnInfer(s, e);
      && t.packets == s.packets && t.group == s.group && t.captured == s.captured && t.delivered == s.delivered
      && t.arrived == s.arrived && t.inferred == s.inferred + 1 && t.rejected == s.rejected
      && t.answers == s.answers + Answers(s.group.emitted[s.inferred], e.initOk, e.ai)
      && var g := s.group.emitted[s.inferred];
         var keys := GroupResults(g, e.initOk, e.ai).Keys;
         t.lost == (s.lost || !Distinct(g.imageIds) || !(keys !! s.results.Keys))
  {
    hide GroupResults, Answers;
  }

  lemma InferKeys(s: State, e: Event)
    requires KeysOk(s) && e.Infer? && s.inferred < |s.group.emitted| && s.group.emitted[s.inferred].Aligned()
    requires e.initOk ==> |e.ai| >= |s.group.emitted[s.inferred].imageIds|
    requires GroupResults(s.group.emitted[s.inferred], e.initOk, e.ai).Keys <= s.captured.Keys
    requires Answers(s.group.emitted[s.inferred], e.initOk, e.ai).Keys <= s.captured.Keys
    ensures KeysOk(OnInfer(s, e))
    ensures OnInfer(s, e).results.Keys
         == s.results.Keys + GroupResults(s.group.emitted[s.inferred], e.initOk, e.ai).Keys
    ensures OnInfer(s, e).answers.Keys == s.answers.Keys + Answers(s.group.emitted[s.inferred], e.initOk, e.ai).Keys
  {
    hide GroupResults, Answers;
  }

  lemma NewKeys(g: G.Group, owners: map<uint64, Owner>, initOk: bool, ai: seq<G.AiResult>)
    requires GroupOk(g, owners) && (initOk ==> |ai| >= |g.imageIds|)
    ensures GroupResults(g, initOk, ai).Keys == IdSet(g) && IdSet(g) <= owners.Keys && Distinct(g.imageIds)
    ensures Answers(g, initOk, ai).Keys <= IdSet(g)
  {
  }

  // -------------------------------------------------------------------------- merging

  /** A delivery in full. */
  lemma DeliverIs(c: Config, s: State, cam: int, i: uint64, part: M.Part)
    requires i in MulOf(s, cam).pending ==> i !in s.verdicts
    ensures var m, t := MulOf(s, cam), Deliver(c, s, cam, i, part);
      if i in m.pending then
        var p := m.pending[i];
        var parts := p.parts + [part];
        if |parts| >= c.Needed()
        then t == s.(muls := s.muls[cam := M.Finish(m, i, parts, false, true)],
                     verdicts := s.verdicts[i := M.Signal(p.objectId, i, M.Verdict(parts))])
        else t == s.(muls := s.muls[cam := m.(pending := m.pending[i := p.(parts := parts)])])
      else t == s.(muls := s.muls[cam := m], dropped := s.dropped + if part.result == M.RESULT_NG then {i} else {})
  {
    var m, e := MulOf(s, cam), M.IasResult(cam, i, part, true);
    if i in m.pending {
      M.ResultStep(c.ForCamera(cam), m, e);
    } else {
      M.NoStep(c.ForCamera(cam), m, e);
    }
    assert c.Needed() == M.Needed(c.ForCamera(cam));
    assert s.dropped + {} == s.dropped && s.late + {} == s.late;
    hide M.Step, M.Verdict, MulOf;
  }

  /** What changes in a state when a multipler does. */
  ghost predicate OnlyMuls(s: State, t: State, i: uint64) {
    t == s.(muls := t.muls, verdicts := t.verdicts, dropped := t.dropped, late := t.late)
    && t.verdicts.Keys <= s.verdicts.Keys + {i} && t.dropped <= s.dropped + {i} && t.late <= s.late + {i}
    && forall cam, j :: j in MulOf(t, cam).pending ==> j in MulOf(s, cam).pending
  }

  /** An image that one multipler's change does not touch. */
  lemma OthersAgree(s: State, t: State, cam: int, j: uint64)
    requires j in s.captured && cam in t.muls
    requires t == s.(muls := s.muls[cam := t.muls[cam]], verdicts := t.verdicts, dropped := t.dropped, late := t.late)
    requires SameEntry(s.verdicts, t.verdicts, j) && SameEntry(MulOf(s, cam).pending, t.muls[cam].pending, j)
    requires (j in s.dropped <==> j in t.dropped) && (j in s.late <==> j in t.late)
    ensures Agree(s, t, j)
  {
  }

  /** The other images are as they were. */
  lemma DeliveredOther(c: Config, s: State, i: uint64, part: M.Part, j: uint64)
    requires i in s.captured && (i in MulOf(s, s.captured[i].cameraId).pending ==> i !in s.verdicts)
    requires j in s.captured && j != i
    ensures Agree(s, Deliver(c, s, s.captured[i].cameraId, i, part), j)
  {
    hide Deliver, M.Verdict, Agree, MulOf;
    var cam := s.captured[i].cameraId;
    DeliverIs(c, s, cam, i, part);
    OthersAgree(s, Deliver(c, s, cam, i, part), cam, j);
  }

  lemma DeliveredRest(c: Config, s: State, i: uint64, part: M.Part)
    requires i in s.captured && (i in MulOf(s, s.captured[i].cameraId).pending ==> i !in s.verdicts)
    ensures OnlyMuls(s, Deliver(c, s, s.captured[i].cameraId, i, part), i)
  {
    hide Deliver, M.Verdict;
    DeliverIs(c, s, s.captured[i].cameraId, i, part);
  }

  /** What of a view the multipler and its verdicts are. */
  function PendingOf(s: State, i: uint64): Option<M.Pending>
    requires i in s.captured
  {
    var m := MulOf(s, s.captured[i].cameraId);
    if i in m.pending then Some(m.pending[i]) else None
  }

  function VerdictOf(s: State, i: uint64): Option<M.Signal> {
    if i in s.verdicts then Some(s.verdicts[i]) else None
  }

  lemma ViewOfMuls(s: State, t: State, i: uint64)
    requires i in s.captured && t == s.(muls := t.muls, verdicts := t.verdicts, dropped := t.dropped, late := t.late)
    ensures ViewOf(t, i)
         == ViewOf(s, i).(pending := PendingOf(t, i), verdict := VerdictOf(t, i), dropped := i in t.dropped,
                          late := i in t.late)
    ensures ViewOf(s, i).pending == PendingOf(s, i) && ViewOf(s, i).verdict == VerdictOf(s, i)
    ensures ViewOf(s, i).dropped == (i in s.dropped) && ViewOf(s, i).late == (i in s.late)
  {
    hide D.Latest;
  }

  /** The image has one more result, or has been reported already. */
  lemma DeliveredOne(c: Config, s: State, i: uint64, part: M.Part)
    requires i in s.captured && (i in MulOf(s, s.captured[i].cameraId).pending ==> i !in s.verdicts)
    ensures var t := Deliver(c, s, s.captured[i].cameraId, i, part);
      t.captured == s.captured && ViewOf(t, i) == Handed(c.Needed(), i, s.captured[i], ViewOf(s, i), part)
  {
    hide Deliver, M.Verdict, ViewOf;
    var t := Deliver(c, s, s.captured[i].cameraId, i, part);
    DeliverIs(c, s, s.captured[i].cameraId, i, part);
    ViewOfMuls(s, t, i);
  }

  lemma OnlyMulsKeys(s: State, t: State, i: uint64)
    requires KeysOk(s) && OnlyMuls(s, t, i) && i in s.captured
    ensures KeysOk(t)
  {
    forall cam, j | cam in t.muls && j in t.muls[cam].pending
      ensures j in t.captured && t.captured[j].cameraId == cam
    {
      assert j in MulOf(t, cam).pending;
      assert j in MulOf(s, cam).pending;
    }
  }

  /** From s by way of u, which differs from s only in image i, to a delivery for it. */
  lemma DeliveryViews(c: Config, s: State, u: State, i: uint64, part: M.Part)
    requires ViewsGood(c, s) && u.captured == s.captured && i in s.captured
    requires i in MulOf(u, u.captured[i].cameraId).pending ==> i !in u.verdicts
    requires forall j :: j in s.captured && j != i ==> Agree(s, u, j)
    requires Good(c.Needed(), i, u.captured[i], Handed(c.Needed(), i, u.captured[i], ViewOf(u, i), part))
    ensures ViewsGood(c, Deliver(c, u, u.captured[i].cameraId, i, part))
  {
    hide ViewsGood, Good, Deliver, Handed, ViewOf, Agree, MulOf;
    var t := Deliver(c, u, u.captured[i].cameraId, i, part);
    DeliveredOne(c, u, i, part);
    forall j | j in s.captured && j != i
      ensures Agree(s, t, j)
    {
      DeliveredOther(c, u, i, part, j);
      AgreeThrough(s, u, t, j);
    }
    ViewsStayGood(c, s, t, i);
  }

  lemma PendingView(s: State, i: uint64)
    requires i in s.captured
    ensures i in MulOf(s, s.captured[i].cameraId).pending <==> ViewOf(s, i).pending.Some?
    ensures i in s.verdicts <==> ViewOf(s, i).verdict.Some?
    ensures i in s.results ==> ViewOf(s, i).result == Some(s.results[i])
    ensures i in s.verdicts ==> ViewOf(s, i).verdict == Some(s.verdicts[i])
    ensures ViewOf(s, i).extras == ExtrasOf(s, i)
  {
    hide D.Latest, MulOf, ExtrasOf;
  }

  lemma ResultTaken(s: State, i: uint64, u: State)
    requires i in s.captured && u == s.(results := s.results - {i}, arrived := s.arrived + {i})
    ensures ViewOf(u, i) == ViewOf(s, i).(result := None, arrived := true)
    ensures forall j :: j in s.captured && j != i ==> Agree(s, u, j)
  {
    hide D.Latest;
  }

  lemma ResultShape(need: nat, i: uint64, w: Owner, v: View)
    requires Good(need, i, w, v) && v.result.Some?
    ensures var r := v.result.value; r.imageId == i && r.objectId == w.objectId && r.cameraId == w.cameraId
  {
  }

  lemma ResultViews(c: Config, s: State, i: uint64) returns (u: State)
    requires Inv(c, s) && i in s.results
    ensures u == s.(results := s.results - {i}, arrived := s.arrived + {i})
    ensures var r, w := s.results[i], s.captured[i];
      && r.imageId == i && r.cameraId == w.cameraId && (i in MulOf(u, w.cameraId).pending ==> i !in u.verdicts)
      && ViewsGood(c, Deliver(c, u, w.cameraId, i, M.Part(r.result, r.json)))
  {
    hide PacketsOk, Assigned, Places, Good, Deliver, Handed, ResultsOk, ViewOf, Agree, MulOf, GoneOk;
    var r, w, v := s.results[i], s.captured[i], ViewOf(s, i);
    assert Good(c.Needed(), i, w, v);
    u := s.(results := s.results - {i}, arrived := s.arrived + {i});
    PendingView(s, i);
    PendingView(u, i);
    ResultTaken(s, i, u);
    ResultShape(c.Needed(), i, w, v);
    OwnResultGood(c.Needed(), i, w, v);
    DeliveryViews(c, s, u, i, M.Part(r.result, r.json));
  }

  lemma ResultKeeps(c: Config, s: State, e: Event)
    requires Inv(c, s) && e.Result? && Enabled(c, s, e)
    ensures Inv(c, Step(c, s, e))
  {
    hide PacketsOk, Assigned, Places, ViewsGood, Deliver, Ids, GoneOk;
    var i := e.imageId;
    var u := ResultViews(c, s, i);
    DeliveredRest(c, u, i, M.Part(s.results[i].result, s.results[i].json));
    var t := Step(c, s, e);
    assert KeysOk(u);
    OnlyMulsKeys(u, t, i);
    hide KeysOk, Agree;
    AssignedDependsOn(s, t);
    GoneDependsOn(s, t);
    assert u.results.Keys + u.arrived == s.results.Keys + s.arrived;
    ResultsDependOn(u, t);
  }

  /** What must be said of results does not look at the multiplers, but nothing may be lost. */
  lemma ResultsDependOn(s: State, t: State)
    requires ResultsOk(s) && t.group == s.group && t.inferred == s.inferred && t.results == s.results
    requires t.arrived == s.arrived && t.lost == s.lost && t.answers == s.answers
    ensures ResultsOk(t)
  {
  }

  lemma AssignedDependsOn(s: State, t: State)
    requires Assigned(s) && t.packets.history.joined == s.packets.history.joined && t.captured == s.captured
    ensures Assigned(t)
  {
    forall i | i in t.captured
      ensures P.JoinedAny(t.packets.history, t.captured[i].objectId, i)
    {
      assert P.JoinedAny(s.packets.history, s.captured[i].objectId, i);
    }
  }

  lemma OtherCounted(s: State, i: uint64, part: M.Part, u: State)
    requires i in s.captured && u == WithOther(s, i, part)
    ensures u.captured == s.captured
    ensures ViewOf(u, i)
         == ViewOf(s, i).(extras := ViewOf(s, i).extras + 1, bad := ViewOf(s, i).bad || part.result == M.RESULT_NG)
    ensures forall j :: j in s.captured && j != i ==> Agree(s, u, j)
  {
    hide D.Latest;
  }

  lemma OtherViews(c: Config, s: State, i: uint64, part: M.Part, u: State)
    requires ViewsGood(c, s) && i in s.captured && ExtrasOf(s, i) + 1 < c.Needed() && InRange(part.result)
    requires u == WithOther(s, i, part)
    ensures i in MulOf(u, s.captured[i].cameraId).pending ==> i !in u.verdicts
    ensures ViewsGood(c, Deliver(c, u, s.captured[i].cameraId, i, part))
  {
    hide Good, Deliver, Handed, ViewOf, Agree, MulOf, ExtrasOf, WithOther;
    var w, v := s.captured[i], ViewOf(s, i);
    assert Good(c.Needed(), i, w, v);
    hide ViewsGood;
    PendingView(s, i);
    OtherCounted(s, i, part, u);
    PendingView(u, i);
    OtherResultGood(c.Needed(), i, w, v, part);
    DeliveryViews(c, s, u, i, part);
  }

  lemma OtherKeeps(c: Config, s: State, e: Event)
    requires Inv(c, s) && e.Other? && Enabled(c, s, e)
    ensures Inv(c, Step(c, s, e))
  {
    hide PacketsOk, Assigned, Places, ViewsGood, Deliver, Ids, GoneOk;
    var u := WithOther(s, e.imageId, e.part);
    OtherViews(c, s, e.imageId, e.part, u);
    DeliveredRest(c, u, e.imageId, e.part);
    var t := Step(c, s, e);
    assert KeysOk(u);
    OnlyMulsKeys(u, t, e.imageId);
    hide KeysOk, Agree;
    AssignedDependsOn(s, t);
    GoneDependsOn(s, t);
  }

  // ------------------------------------------------------------------------ time-outs

  /** A time-out of an image in full: nothing, or one image is reported with what it has. */
  lemma ReportIs(c: Config, s: State, e: Event) returns (due: Option<uint64>)
    requires e.ImageTimeout? && Enabled(c, s, e)
    requires forall i :: i in MulOf(s, e.camera).pending ==> i !in s.verdicts
    ensures due.Some? ==> due.value in MulOf(s, e.camera).pending
    ensures var m, t := MulOf(s, e.camera), Step(c, s, e);
      if due.None? then t == s.(muls := s.muls[e.camera := m])
      else
        var i := due.value;
        var p := m.pending[i];
        t == s.(muls := s.muls[e.camera := M.Finish(m, i, p.parts, true, true)],
                verdicts := s.verdicts[i := M.Signal(p.objectId, i, M.Verdict(p.parts))],
                late := s.late + {i})
  {
    var cfg, m := c.ForCamera(e.camera), MulOf(s, e.camera);
    M.OverdueArePending(cfg, m.pending, e.now);
    due := FirstIn(e.order, M.OverdueIds(cfg, m.pending, e.now));
    hide M.Verdict, M.OverdueIds, MulOf, FirstIn;
  }

  lemma PendingSilent(c: Config, s: State, cam: int, i: uint64)
    requires Inv(c, s) && i in MulOf(s, cam).pending
    ensures i in s.captured && s.captured[i].cameraId == cam && i !in s.verdicts
    ensures Good(c.Needed(), i, s.captured[i], ViewOf(s, i)) && ViewOf(s, i).pending.Some?
  {
    hide PacketsOk, Assigned, Places, ResultsOk, GoneOk, D.Latest;
    assert cam in s.muls;
    assert Good(c.Needed(), i, s.captured[i], ViewOf(s, i));
  }

  /** Nothing was due. */
  lemma SameMuls(s: State, t: State, cam: int)
    requires t == s.(muls := s.muls[cam := MulOf(s, cam)])
    ensures forall j :: j in s.captured ==> Agree(s, t, j)
    ensures KeysOk(s) ==> KeysOk(t)
  {
    if KeysOk(s) {
      forall x, j | x in t.muls && j in t.muls[x].pending
        ensures j in t.captured && t.captured[j].cameraId == x
      {
        assert j in MulOf(s, x).pending;
      }
    }
  }

  /** One image was reported. */
  lemma OneReported(s: State, t: State, i: uint64)
    requires i in s.captured && i !in s.verdicts && i in MulOf(s, s.captured[i].cameraId).pending
    requires var m := MulOf(s, s.captured[i].cameraId);
      var p := m.pending[i];
      t == s.(muls := s.muls[s.captured[i].cameraId := M.Finish(m, i, p.parts, true, true)],
              verdicts := s.verdicts[i := M.Signal(p.objectId, i, M.Verdict(p.parts))],
              late := s.late + {i})
    ensures OnlyMuls(s, t, i) && ViewOf(s, i).pending.Some? && ViewOf(t, i) == Reported(i, ViewOf(s, i))
  {
    hide M.Verdict, ViewOf;
    ViewOfMuls(s, t, i);
  }

  lemma OthersUnreported(s: State, t: State, i: uint64, j: uint64)
    requires i in s.captured && i !in s.verdicts && i in MulOf(s, s.captured[i].cameraId).pending
    requires var m := MulOf(s, s.captured[i].cameraId);
      var p := m.pending[i];
      t == s.(muls := s.muls[s.captured[i].cameraId := M.Finish(m, i, p.parts, true, true)],
              verdicts := s.verdicts[i := M.Signal(p.objectId, i, M.Verdict(p.parts))],
              late := s.late + {i})
    requires j in s.captured && j != i
    ensures Agree(s, t, j)
  {
    hide M.Verdict, Agree, MulOf;
    OthersAgree(s, t, s.captured[i].cameraId, j);
  }

  lemma ImageTimeoutKeeps(c: Config, s: State, e: Event)
    requires Inv(c, s) && e.ImageTimeout? && Enabled(c, s, e)
    ensures Inv(c, Step(c, s, e))
  {
    hide PacketsOk, Assigned, Places, Good, Ids, ViewOf, Agree, GoneOk, OnlyMuls, MulOf;
    forall i | i in MulOf(s, e.camera).pending
      ensures i !in s.verdicts
    {
      PendingSilent(c, s, e.camera, i);
    }
    var t := Step(c, s, e);
    var due := ReportIs(c, s, e);
    hide Step;
    if due.None? {
      SameMuls(s, t, e.camera);
      AllStayGood(c, s, t);
    } else {
      var i := due.value;
      PendingSilent(c, s, e.camera, i);
      ReportedGood(c.Needed(), i, s.captured[i], ViewOf(s, i));
      OneReported(s, t, i);
      forall j | j in s.captured && j != i
        ensures Agree(s, t, j)
      {
        OthersUnreported(s, t, i, j);
      }
      ViewsStayGood(c, s, t, i);
      OnlyMulsKeys(s, t, i);
    }
    hide ViewsGood, KeysOk;
    AssignedDependsOn(s, t);
    GoneDependsOn(s, t);
  }

  lemma AllStayGood(c: Config, s: State, t: State)
    requires ViewsGood(c, s) && t.captured == s.captured && forall j :: j in s.captured ==> Agree(s, t, j)
    ensures ViewsGood(c, t)
  {
    hide Good, ViewOf, Agree;
    forall j | j in t.captured
      ensures Good(c.Needed(), j, t.captured[j], ViewOf(t, j))
    {
      assert Good(c.Needed(), j, s.captured[j], ViewOf(s, j));
      SameView(s, t, j);
    }
  }

  lemma PacketTimeoutPackets(c: Config, s: P.State, e: P.Event)
    requires PacketsOk(c, s) && e.Timeout? && P.Enabled(s, e) && Distinct(s.history.created)
    ensures PacketsOk(c, P.OnTimeout(c.packet, s, e))
  {
    hide P.Inv, D.Decided, D.Heard, P.OnTimeout;
    assert P.Step(c.packet, s, e) == P.OnTimeout(c.packet, s, e);
    P.StepKeeps(c.packet, s, e);
    D.TimeoutDecides(c.packet, s, e);
    D.TimeoutHeard(c.packet, s, e, c.cameras);
  }

  lemma PacketTimeoutFrame(c: P.Config, s: P.State, e: P.Event)
    requires e.Timeout?
    ensures var t := P.OnTimeout(c, s, e);
      && t.history.judged == s.history.judged && t.history.joined == s.history.joined
      && t.history.created == s.history.created && t.packets.Keys <= s.packets.Keys
  {
    hide P.HasNg, P.OverdueIds, FirstIn;
  }

  lemma PacketTimeoutKeeps(c: Config, s: State, e: Event)
    requires Inv(c, s) && e.PacketTimeout? && Enabled(c, s, e) && Distinct(s.packets.history.created)
    ensures Inv(c, Step(c, s, e))
  {
    hide PacketsOk, Assigned, Places, Ids, ViewsGood, GoneOk, P.OnTimeout;
    var pe, t := P.Timeout(e.now, c.cameras, e.order), Step(c, s, e);
    PacketTimeoutPackets(c, s.packets, pe);
    PacketTimeoutFrame(c.packet, s.packets, pe);
    AllStayGood(c, s, t);
    AssignedDependsOn(s, t);
    GoneDependsOn(s, t);
  }

  // ------------------------------------------------------------------------- deciding

  lemma CreatedSomewhere(s: P.State, o: uint64)
    requires P.Accounted(s) && o in s.history.created
    ensures var h := s.history;
      o in s.packets || o in h.overwritten || o in h.passed || o in h.failed || o in h.expired
  {
    var h := s.history;
    assert o in multiset(h.created);
    assert o in multiset(s.packets.Keys) + P.Gone(h);
  }

  /** The packet left by a time-out, with or without verdicts. */
  predicate TimedOut(h: P.History, o: uint64) {
    o in h.expired || !D.NotLate(h, o)
  }

  /** A packet with an image that has not been judged is still live, or has timed out. */
  lemma LiveOrTimedOut(c: Config, s: State, i: uint64)
    requires Inv(c, s) && Distinct(s.packets.history.created) && i in s.captured && ViewOf(s, i).latest == None
    ensures var o := s.captured[i].objectId;
      TimedOut(s.packets.history, o) || o in s.packets.packets
  {
    hide D.Latest, D.Decided, Places, KeysOk, ResultsOk, ViewsGood, GoneOk;
    var p, o := s.packets, s.captured[i].objectId;
    assert P.JoinedAny(p.history, o, i);
    var a :| a in p.history.joined && a.objectId == o && a.imageId == i;
    PacketInvAccounts(c, p);
    P.GoneOnce(p);
    CreatedSomewhere(p, o);
    if o !in p.packets && !TimedOut(p.history, o) {
      LeftIsJudged(c, p, a);
      assert false;
    }
  }

  /** A live packet has the images assigned to it. */
  lemma LiveHasImage(c: Config, s: State, i: uint64)
    requires PacketsOk(c, s.packets) && Assigned(s) && i in s.captured
    ensures var o := s.captured[i].objectId;
      o in s.packets.packets ==> i in s.packets.packets[o].images
  {
    hide D.Latest, D.Decided, P.Inv;
    assert P.JoinedAny(s.packets.history, s.captured[i].objectId, i);
  }

  lemma LeftIsJudged(c: Config, s: P.State, a: P.Assignment)
    requires PacketsOk(c, s) && a in s.history.joined && D.NotLate(s.history, a.objectId)
      && (a.objectId in s.history.passed || a.objectId in s.history.failed)
    ensures D.Latest(s.history.judged, a.objectId, a.imageId).Some?
  {
    hide D.Latest, P.Inv, D.Decided;
    assert D.AllJudged(s.history, a.objectId);
  }

  lemma PacketInvAccounts(c: Config, s: P.State)
    requires PacketsOk(c, s)
    ensures P.Accounted(s)
  {
  }

  lemma VerdictPackets(c: Config, s: State, e: Event)
    requires Inv(c, s) && e.Verdict? && Enabled(c, s, e) && Distinct(s.packets.history.created)
    ensures PacketsOk(c, Step(c, s, e).packets)
  {
    hide P.Inv, D.Decided, D.Heard, P.OnVerdict, Places, KeysOk, ResultsOk, ViewsGood;
    var v := s.verdicts[e.imageId];
    var pe := P.Verdict(v.objectId, v.imageId, v.result, c.cameras);
    P.VerdictStep(c.packet, s.packets, pe);
    P.StepKeeps(c.packet, s.packets, pe);
    D.VerdictDecides(c.packet, s.packets, pe);
    D.VerdictHeard(c.packet, s.packets, pe, c.cameras);
    VerdictHistory(s.packets, pe);
  }

  lemma VerdictHistory(s: P.State, e: P.Event)
    requires e.Verdict?
    ensures var t := P.OnVerdict(s, e);
      && t.history.late == s.history.late && t.history.expired == s.history.expired
        && t.history.joined == s.history.joined
      && t.history.created == s.history.created
      && (e.objectId in s.packets && e.imageId in s.packets[e.objectId].images ==>
            t.history.judged == s.history.judged + [P.Judgement(e.objectId, e.imageId, e.result)])
  {
    hide P.HasNg, P.Complete, P.Stored;
  }

  /** A verdict for a packet that is gone changes nothing there. */
  lemma UnreachedVerdict(s: P.State, e: P.Event)
    requires e.Verdict? && e.objectId !in s.packets
    ensures P.OnVerdict(s, e) == s
  {
  }

  lemma VerdictShrinks(s: P.State, e: P.Event)
    requires e.Verdict?
    ensures P.OnVerdict(s, e).packets.Keys <= s.packets.Keys
  {
    hide P.HasNg, P.Complete, P.Stored;
  }

  /** The standing verdicts after one on image i. */
  lemma LatestAfter(c: Config, s: State, i: uint64, t: P.State, k: uint64)
    requires i in s.verdicts && i in s.captured && k in s.captured && s.verdicts[i].imageId == i
      && s.verdicts[i].objectId == s.captured[i].objectId
    requires Reached(s, s.verdicts[i]) || s.captured[i].objectId !in s.packets.packets
    requires var g := s.verdicts[i];
      t == P.OnVerdict(s.packets, P.Verdict(g.objectId, g.imageId, g.result, c.cameras))
    ensures D.Latest(t.history.judged, s.captured[k].objectId, k)
         == if k == i && Reached(s, s.verdicts[i]) then Some(P.Stored(s.verdicts[i].result))
            else D.Latest(s.packets.history.judged, s.captured[k].objectId, k)
  {
    hide P.OnVerdict, D.Latest, P.Stored;
    var g := s.verdicts[i];
    var pe := P.Verdict(g.objectId, g.imageId, g.result, c.cameras);
    if Reached(s, g) {
      VerdictHistory(s.packets, pe);
      D.LatestOneMore(s.packets.history.judged, P.Judgement(g.objectId, i, g.result), s.captured[k].objectId, k);
    } else {
      UnreachedVerdict(s.packets, pe);
    }
  }

  /** What a verdict does to each image. */
  lemma VerdictIs(c: Config, s: State, i: uint64, k: uint64)
    requires i in s.verdicts && i in s.captured && k in s.captured && s.verdicts[i].imageId == i
      && s.verdicts[i].objectId == s.captured[i].objectId
    requires Reached(s, s.verdicts[i]) || s.captured[i].objectId !in s.packets.packets
    ensures var t := Step(c, s, Verdict(i));
      t.captured == s.captured && ViewOf(s, i).verdict == Some(s.verdicts[i])
      && ViewOf(t, k) == if k == i then Judged(ViewOf(s, i), Reached(s, s.verdicts[i])) else ViewOf(s, k)
  {
    hide P.OnVerdict, D.Latest, P.Stored, Reached;
    var g := s.verdicts[i];
    LatestAfter(c, s, i, P.OnVerdict(s.packets, P.Verdict(g.objectId, g.imageId, g.result, c.cameras)), k);
  }

  lemma VerdictGone(c: Config, s: State, i: uint64)
    requires GoneOk(s) && i in s.verdicts && i in s.captured && s.verdicts[i].imageId == i
      && s.verdicts[i].objectId == s.captured[i].objectId
    requires Reached(s, s.verdicts[i]) || s.captured[i].objectId !in s.packets.packets
    ensures GoneOk(Step(c, s, Verdict(i)))
  {
    hide P.OnVerdict, D.Latest, P.Stored;
    var t, g := Step(c, s, Verdict(i)), s.verdicts[i];
    VerdictShrinks(s.packets, P.Verdict(g.objectId, g.imageId, g.result, c.cameras));
    forall k | k in t.delivered && k in t.captured
      ensures var o := t.captured[k].objectId;
        D.Latest(t.packets.history.judged, o, k) == None ==> o !in t.packets.packets
    {
      LatestAfter(c, s, i, t.packets, k);
    }
  }

  lemma VerdictKeys(c: Config, s: State, i: uint64)
    requires KeysOk(s) && i in s.verdicts && i in s.captured
    ensures KeysOk(Step(c, s, Verdict(i)))
  {
    hide P.OnVerdict;
  }

  lemma VerdictKeeps(c: Config, s: State, e: Event)
    requires Inv(c, s) && e.Verdict? && Enabled(c, s, e) && Distinct(s.packets.history.created)
    ensures Inv(c, Step(c, s, e))
  {
    hide PacketsOk, Assigned, Places, Good, P.OnVerdict, Ids, ViewOf, MulOf, GoneOk, Reached;
    var i := e.imageId;
    var w, v, g := s.captured[i], ViewOf(s, i), s.verdicts[i];
    PendingView(s, i);
    VerdictShape(c.Needed(), i, w, v);
    LiveHasImage(c, s, i);
    assert Reached(s, g) || w.objectId !in s.packets.packets by { ReachedIs(s, g); }
    VerdictPackets(c, s, e);
    JudgedGood(c.Needed(), i, w, v, Reached(s, g));
    var t := Step(c, s, e);
    VerdictHistory(s.packets, P.Verdict(g.objectId, g.imageId, g.result, c.cameras));
    forall k | k in t.captured
      ensures Good(c.Needed(), k, t.captured[k], ViewOf(t, k))
    {
      VerdictIs(c, s, i, k);
      assert Good(c.Needed(), k, s.captured[k], ViewOf(s, k));
    }
    VerdictGone(c, s, i);
    VerdictKeys(c, s, i);
    hide KeysOk;
    AssignedDependsOn(s, t);
  }

  lemma ReachedIs(s: State, v: M.Signal)
    ensures Reached(s, v) <==> v.objectId in s.packets.packets && v.imageId in s.packets.packets[v.objectId].images
  {
  }

  lemma VerdictShape(need: nat, i: uint64, w: Owner, v: View)
    requires Good(need, i, w, v) && v.verdict.Some?
    ensures v.verdict.value.imageId == i && v.verdict.value.objectId == w.objectId && v.latest.None?
  {
  }
}
