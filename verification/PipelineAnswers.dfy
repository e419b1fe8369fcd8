/** What the pipeline calls a bad image, said of the events of the run: what the model answered
    when the image's group was inferred, and what the other algorithms sent. */
module PipelineAnswers {
  import opened Basics
  import opened GroupPlaces
  import opened Pipeline
  import opened PipelineSteps
  import opened PipelineSafety
  import P = PacketResult
  import M = ImageMultipler
  import G = ImageGroup

  /** The model, loaded, answers for the image at its place in the group that is next. */
  predicate AnswersAt(t: State, e: Event, i: uint64, good: bool) {
    e.Infer? && e.initOk && t.inferred < |t.group.emitted|
    && var ids := t.group.emitted[t.inferred].imageIds;
       exists j :: 0 <= j < |ids| && j < |e.ai| && ids[j] == i && e.ai[j].good == good
  }

  ghost predicate Answered(c: Config, events: seq<Event>, i: uint64, good: bool) {
    exists k, t :: 0 <= k < |events| && Run(c, events[..k], t) && AnswersAt(t, events[k], i, good)
  }

  /** Another algorithm sent that the image is bad. */
  predicate Rejects(e: Event, i: uint64) {
    e.Other? && e.imageId == i && e.part.result == M.RESULT_NG
  }

  predicate Rejected(events: seq<Event>, i: uint64) {
    exists k :: 0 <= k < |events| && Rejects(events[k], i)
  }

  /** A run of events ends in one state. */
  lemma {:induction false} RunIsUnique(c: Config, events: seq<Event>, s: State, t: State)
    requires Run(c, events, s) && Run(c, events, t)
    ensures s == t
    decreases |events|
  {
    hide Step, Enabled;
    if events != [] {
      var n := |events| - 1;
      var s' :| Run(c, events[..n], s') && Enabled(c, s', events[n]) && s == Step(c, s', events[n]);
      var t' :| Run(c, events[..n], t') && Enabled(c, t', events[n]) && t == Step(c, t', events[n]);
      RunIsUnique(c, events[..n], s', t');
    }
  }

  lemma PositionOf(ids: seq<uint64>, j: nat)
    requires Distinct(ids) && j < |ids|
    ensures ids[j] in ids && Position(ids, ids[j]) == j
  {
    var k := Position(ids, ids[j]);
    assert k < j || j < k || k == j;
  }

  /** One inference: the images of the next group get their answers, the others keep theirs. */
  lemma InferAnswers(c: Config, s: State, e: Event, i: uint64, good: bool)
    requires Inv(c, s) && e.Infer? && Enabled(c, s, e)
    ensures var t := Step(c, s, e);
      i in t.answers && t.answers[i] == good <==> (i in s.answers && s.answers[i] == good) || AnswersAt(s, e, i, good)
  {
    hide PacketsOk, Assigned, Places, GroupOk, Ids, GroupResults, Answers, IdSet, KeysOk, ViewsGood, GoneOk, OnInfer;
    NextGroup(c, s);
    var g := s.group.emitted[s.inferred];
    NewKeys(g, s.captured, e.initOk, e.ai);
    NextAnswers(g, s.captured, e.initOk, e.ai, i, good);
    InferFrame(s, e);
    assert i in IdSet(g) ==> i !in s.answers;
  }

  lemma NextAnswers(g: G.Group, owners: map<uint64, Owner>, initOk: bool, ai: seq<G.AiResult>, i: uint64, good: bool)
    requires GroupOk(g, owners) && (initOk ==> |ai| >= |g.imageIds|)
    ensures var a := Answers(g, initOk, ai);
      i in a && a[i] == good <==>
        initOk && exists j :: 0 <= j < |g.imageIds| && j < |ai| && g.imageIds[j] == i && ai[j].good == good
  {
    var a := Answers(g, initOk, ai);
    if i in a {
      var k := Position(g.imageIds, i);
      assert g.imageIds[k] == i;
    }
    if j :| initOk && 0 <= j < |g.imageIds| && g.imageIds[j] == i && ai[j].good == good {
      PositionOf(g.imageIds, j);
      assert i in IdSet(g);
    }
  }

  lemma DeliverFrame(c: Config, s: State, cameraId: int, imageId: uint64, part: M.Part)
    ensures var t := Deliver(c, s, cameraId, imageId, part);
      t.answers == s.answers && t.rejected == s.rejected
  {
    hide M.Step, M.Verdict, MulOf;
  }

  lemma AnnounceFrame(s: State, cameraId: int, m: M.State)
    ensures Announce(s, cameraId, m).answers == s.answers && Announce(s, cameraId, m).rejected == s.rejected
  {
    hide M.Verdict, MulOf;
  }

  lemma TakeFrame(c: Config, s: State, e: Event)
    requires e.Take?
    ensures OnTake(c, s, e).answers == s.answers && OnTake(c, s, e).rejected == s.rejected
  {
    hide P.OnImage, P.Target, G.OnImage, M.Step, MulOf;
  }

  /** Only inferences answer, and only other algorithms reject. */
  lemma StepFrame(c: Config, s: State, e: Event)
    requires Enabled(c, s, e)
    ensures !e.Infer? ==> Step(c, s, e).answers == s.answers
    ensures Step(c, s, e).rejected ==
      s.rejected + if e.Other? && e.part.result == M.RESULT_NG then {e.imageId} else {}
  {
    hide P.OnImage, P.OnVerdict, P.OnTimeout, G.Scan, M.Step, MulOf, OnTake, OnInfer, Deliver, Announce, GroupResults,
      Answers;
    match e
    case Take(_, _, _, _, _, _, _) => TakeFrame(c, s, e);
    case Infer(_, _) => InferFrame(s, e);
    case Result(i) =>
      var r := s.results[i];
      DeliverFrame(c, s.(results := s.results - {i}, arrived := s.arrived + {i}), r.cameraId, r.imageId,
        M.Part(r.result, r.json));
    case Other(i, part) => DeliverFrame(c, WithOther(s, i, part), s.captured[i].cameraId, i, part);
    case ImageTimeout(cam, now, order) =>
      AnnounceFrame(s, cam, M.Step(c.ForCamera(cam), MulOf(s, cam), M.Timeout(now, true, order)));
    case _ =>
  }

  /** The answers of a run are those of the model, and no others. */
  lemma {:induction false} AnswersOfRun(c: Config, events: seq<Event>, s: State, i: uint64, good: bool)
    requires c.Valid() && Run(c, events, s) && Distinct(s.packets.history.created)
    ensures i in s.answers && s.answers[i] == good <==> Answered(c, events, i, good)
    decreases |events|
  {
    hide Inv, Step, Enabled, AnswersAt;
    if events != [] {
      var n := |events| - 1;
      var t :| Run(c, events[..n], t) && Enabled(c, t, events[n]) && s == Step(c, t, events[n]);
      CreatedGrows(c, t, events[n]);
      DistinctPrefix(t.packets.history.created, s.packets.history.created);
      AnswersOfRun(c, events[..n], t, i, good);
      RunKeeps(c, events[..n], t);
      AnswersOfLast(c, events, t, i, good);
      if events[n].Infer? {
        InferAnswers(c, t, events[n], i, good);
      } else {
        StepFrame(c, t, events[n]);
        NoAnswer(t, events[n], i, good);
      }
    }
  }

  lemma NoAnswer(t: State, e: Event, i: uint64, good: bool)
    requires !e.Infer?
    ensures !AnswersAt(t, e, i, good)
  {
  }

  lemma AnswersOfLast(c: Config, events: seq<Event>, t: State, i: uint64, good: bool)
    requires events != [] && Run(c, events[..|events| - 1], t)
    ensures Answered(c, events, i, good) <==>
      Answered(c, events[..|events| - 1], i, good) || AnswersAt(t, events[|events| - 1], i, good)
  {
    hide Run, AnswersAt;
    var n := |events| - 1;
    var front := events[..n];
    if k, u :| 0 <= k < |events| && Run(c, events[..k], u) && AnswersAt(u, events[k], i, good) {
      if k == n {
        RunIsUnique(c, front, t, u);
      } else {
        assert front[..k] == events[..k] && front[k] == events[k];
      }
    }
    if k, u :| 0 <= k < n && Run(c, front[..k], u) && AnswersAt(u, front[k], i, good) {
      assert front[..k] == events[..k] && front[k] == events[k];
    }
  }

  lemma RejectsIs(e: Event, i: uint64)
    ensures Rejects(e, i) <==> i in if e.Other? && e.part.result == M.RESULT_NG then {e.imageId} else {}
  {
  }

  lemma {:induction false} RejectedOfRun(c: Config, events: seq<Event>, s: State, i: uint64)
    requires Run(c, events, s)
    ensures i in s.rejected <==> Rejected(events, i)
    decreases |events|
  {
    hide Step, Enabled, Rejects;
    if events != [] {
      var n := |events| - 1;
      var t :| Run(c, events[..n], t) && Enabled(c, t, events[n]) && s == Step(c, t, events[n]);
      RejectedOfRun(c, events[..n], t, i);
      StepFrame(c, t, events[n]);
      RejectsIs(events[n], i);
      assert forall k :: 0 <= k < n ==> events[..n][k] == events[k];
      if k :| 0 <= k < |events| && Rejects(events[k], i) {
        assert k == n || Rejects(events[..n][k], i);
      }
      if k :| 0 <= k < n && Rejects(events[..n][k], i) {
        assert Rejects(events[k], i);
      }
    }
  }

  /** An image is bad exactly when the model, inferring its group, answered that it is not
      good, or another algorithm sent that it is bad. */
  lemma BadIff(c: Config, events: seq<Event>, s: State, i: uint64)
    requires c.Valid() && Run(c, events, s) && Distinct(s.packets.history.created)
    ensures Bad(s, i) <==> Answered(c, events, i, false) || Rejected(events, i)
  {
    hide Run, Answered, Rejected;
    AnswersOfRun(c, events, s, i, false);
    RejectedOfRun(c, events, s, i);
  }

  /** Some image of the packet got a bad answer or was rejected. */
  ghost predicate SawBad(c: Config, events: seq<Event>, s: State, o: uint64) {
    exists i :: i in s.captured && s.captured[i].objectId == o && (Answered(c, events, i, false) || Rejected(events, i))
  }

  /** At rest, a packet that no time-out touched was kicked exactly when the model answered that
      one of its images is not good or another algorithm rejected one, and passed otherwise. */
  lemma QuietAnswers(c: Config, events: seq<Event>, s: State, o: uint64)
    requires c.Valid() && Run(c, events, s) && Distinct(s.packets.history.created) && Quiet(c, s)
    requires o in s.packets.history.created && InTime(s, o)
    ensures o in s.packets.history.kicked <==> SawBad(c, events, s, o)
    ensures o in s.packets.history.passed <==> !SawBad(c, events, s, o)
  {
    hide Run, Quiet, InTime, Bad, Answered, Rejected;
    QuietDecision(c, events, s, o);
    forall i ensures Bad(s, i) <==> Answered(c, events, i, false) || Rejected(events, i) {
      BadIff(c, events, s, i);
    }
  }
}
