/** Runs of the pipeline with one image: kicked, passed, and passed past a time-out. */
module PipelineExamples {
  import opened Basics
  import opened GroupPlaces
  import opened Pipeline
  import opened PipelineSteps
  import opened PipelineSafety
  import P = PacketResult
  import D = PacketDecisions
  import M = ImageMultipler
  import G = ImageGroup

  const EXAMPLE := Config(P.Config(100, 1000), 1, 1000, 1, false)

  lemma RunExtends(c: Config, events: seq<Event>, t: State, e: Event, all: seq<Event>)
    requires Run(c, events, t) && Enabled(c, t, e) && all == events + [e]
    ensures Run(c, all, Step(c, t, e))
  {
    hide Step, Enabled;
    assert all[..|events|] == events && all[|events|] == e;
  }

  lemma ExampleTaken(e: Event) returns (s: State)
    requires e == Take(1, 1, 50, 7, [], 0, 0)
    ensures Run(EXAMPLE, [e], s) && s.captured == map[1 := Owner(7, 1)] && s.packets.history.created == [7]
    ensures s.packets.history.judged == [] && s.extras == map[] && s.results == map[] && s.verdicts == map[]
    ensures s.group.groups == map[] && s.inferred == 0 && s.arrived == {} && s.late == {} && s.delivered == {}
    ensures s.group.emitted == [G.Group(7, [1], [1], [0], 0)]
    ensures MulOf(s, 1).pending == map[1 := M.Pending(7, 50, [])]
    ensures 7 in s.packets.packets && 1 in s.packets.packets[7].images
    ensures s.packets.history.late == [] && s.packets.history.expired == [] && s.rejected == {}
  {
    assert Run(EXAMPLE, [], INITIAL);
    s := Step(EXAMPLE, INITIAL, e);
    RunExtends(EXAMPLE, [], INITIAL, e, [e]);
  }

  lemma ExampleInferred(s: State, e: Event, good: bool)
    requires e == Infer(true, [G.AiResult(good, "x")])
    requires s.group.emitted == [G.Group(7, [1], [1], [0], 0)] && s.inferred == 0 && s.results == map[]
    ensures Enabled(EXAMPLE, s, e)
    ensures var t := Step(EXAMPLE, s, e);
      t == s.(results := t.results, inferred := 1, lost := t.lost, answers := t.answers)
      && t.results.Keys == {1} && 1 in t.answers && t.answers[1] == good && Enabled(EXAMPLE, t, Result(1))
  {
    var g := s.group.emitted[0];
    NewKeys(g, map[1 := Owner(7, 1)], true, e.ai);
    assert 1 in g.imageIds;
    assert IdSet(g) == {1};
  }

  /** One image, one camera, one algorithm: the run comes to rest, and the packet was kicked or
      passed as the model answered. */
  lemma ExampleRun(good: bool) returns (s: State)
    ensures exists events :: Run(EXAMPLE, events, s)
    ensures Quiet(EXAMPLE, s)
    ensures (7 in s.packets.history.kicked <==> !good) && (7 in s.packets.history.passed <==> good)
  {
    hide Run, Inv, D.Latest, Step, Enabled, Quiet, HasBadImage;
    var e1, e2, e3, e4 := Take(1, 1, 50, 7, [], 0, 0), Infer(true, [G.AiResult(good, "x")]), Result(1), Verdict(1);
    var s1 := ExampleTaken(e1);
    ExampleInferred(s1, e2, good);
    var s2 := Step(EXAMPLE, s1, e2);
    RunExtends(EXAMPLE, [e1], s1, e2, [e1, e2]);
    RunKeeps(EXAMPLE, [e1, e2], s2);
    var s3 := Step(EXAMPLE, s2, e3);
    RunExtends(EXAMPLE, [e1, e2], s2, e3, [e1, e2, e3]);
    ExampleDelivered(s2, s3);
    RunKeeps(EXAMPLE, [e1, e2, e3], s3);
    TimelyHistory(EXAMPLE, [e1, e2, e3], s3);
    ExampleFinished(s3);
    ExampleJudged(s3, e4);
    s := Step(EXAMPLE, s3, e4);
    RunExtends(EXAMPLE, [e1, e2, e3], s3, e4, [e1, e2, e3, e4]);
    TimelyDecision(EXAMPLE, [e1, e2, e3, e4], s, 7);
    BadImage(s, good);
  }

  lemma BadImage(s: State, good: bool)
    requires s.captured == map[1 := Owner(7, 1)] && 1 in s.answers && s.answers[1] == good && s.rejected == {}
    ensures HasBadImage(s, 7) <==> !good
  {
    assert Bad(s, 1) <==> !good;
  }

  lemma KickedExample() returns (s: State)
    ensures exists events :: Run(EXAMPLE, events, s)
    ensures Quiet(EXAMPLE, s) && 7 in s.packets.history.kicked
  {
    s := ExampleRun(false);
  }

  /** A good image, and its packet passes. */
  lemma PassedExample() returns (s: State)
    ensures exists events :: Run(EXAMPLE, events, s)
    ensures Quiet(EXAMPLE, s) && 7 in s.packets.history.passed && 7 !in s.packets.history.kicked
  {
    s := ExampleRun(true);
  }

  lemma ExampleJudged(s: State, e: Event)
    requires e == Verdict(1) && 1 in s.verdicts && s.verdicts.Keys <= {1} && s.results == map[]
    requires s.captured == map[1 := Owner(7, 1)] && s.extras == map[]
    requires s.group.groups == map[] && s.inferred == |s.group.emitted|
    ensures Enabled(EXAMPLE, s, e)
    ensures var t := Step(EXAMPLE, s, e);
      Quiet(EXAMPLE, t) && t.answers == s.answers && t.rejected == s.rejected && t.captured == s.captured
      && t.packets.history.created == s.packets.history.created
  {
    hide P.OnVerdict;
    var v := s.verdicts[1];
    VerdictHistory(s.packets, P.Verdict(v.objectId, v.imageId, v.result, 1));
    assert Step(EXAMPLE, s, e).verdicts == map[];
  }

  lemma ExampleDelivered(s: State, t: State)
    requires Inv(EXAMPLE, s) && s.results.Keys == {1} && s.verdicts == map[] && s.captured == map[1 := Owner(7, 1)]
    requires s.late == {} && t == Step(EXAMPLE, s, Result(1))
    ensures t == s.(results := map[], arrived := s.arrived + {1}, muls := t.muls, verdicts := t.verdicts,
                    dropped := t.dropped, late := t.late)
    ensures t.verdicts.Keys <= {1}
  {
    hide PacketsOk, Assigned, Places, ViewsGood, Deliver, Agree, GoneOk;
    var u := ResultViews(EXAMPLE, s, 1);
    assert u.results == map[];
    DeliveredRest(EXAMPLE, u, 1, M.Part(s.results[1].result, s.results[1].json));
  }

  lemma ExampleFinished(s: State)
    requires Inv(EXAMPLE, s) && s.captured == map[1 := Owner(7, 1)] && s.extras == map[] && 1 in s.arrived
    requires s.packets.history.judged == [] && s.late == {} && s.delivered == {}
    ensures 1 in s.verdicts
  {
    hide PacketsOk, Assigned, Places, GoneOk;
    assert Good(EXAMPLE.Needed(), 1, s.captured[1], ViewOf(s, 1));
  }

  /** The way past a time-out: the image is reported before its inference, its packet passes on
      the empty verdict, and then the inference judges the image bad. */
  lemma PassedLateExample() returns (s: State)
    ensures exists events :: Run(EXAMPLE, events, s)
    ensures Bad(s, 1) && 1 in s.captured && s.captured[1].objectId == 7
    ensures 7 in s.packets.history.passed && Overtaken(s, 1)
  {
    hide Run, Inv, D.Latest, Step, Enabled, Overtaken;
    var e1, e2 := Take(1, 1, 50, 7, [], 0, 0), ImageTimeout(1, 2000, [1]);
    var e3, e4 := Verdict(1), Infer(true, [G.AiResult(false, "x")]);
    var s1 := ExampleTaken(e1);
    RunKeeps(EXAMPLE, [e1], s1);
    var s2 := ExampleReported(s1, e2);
    RunExtends(EXAMPLE, [e1], s1, e2, [e1, e2]);
    var s3 := ExampleEmptyVerdict(s2, e3);
    RunExtends(EXAMPLE, [e1, e2], s2, e3, [e1, e2, e3]);
    RunKeeps(EXAMPLE, [e1, e2, e3], s3);
    ExamplePassed(s3);
    ExampleInferred(s3, e4, false);
    s := Step(EXAMPLE, s3, e4);
    RunExtends(EXAMPLE, [e1, e2, e3], s3, e4, [e1, e2, e3, e4]);
    ExampleOvertaken(s3, e4);
  }

  lemma ExampleReported(s: State, e: Event) returns (t: State)
    requires Inv(EXAMPLE, s) && e == ImageTimeout(1, 2000, [1])
    requires MulOf(s, 1).pending == map[1 := M.Pending(7, 50, [])] && s.late == {} && s.verdicts == map[]
    ensures Enabled(EXAMPLE, s, e) && t == Step(EXAMPLE, s, e)
    ensures t == s.(muls := t.muls, verdicts := map[1 := M.Signal(7, 1, M.RESULT_INIT)], late := {1})
  {
    hide Inv;
    t := Step(EXAMPLE, s, e);
    var due := ReportIs(EXAMPLE, s, e);
    ExampleDue(EXAMPLE.ForCamera(1), MulOf(s, 1).pending);
  }

  lemma ExampleDue(c: M.Config, pending: map<uint64, M.Pending>)
    requires c.inferTimeout == 1000 && pending == map[1 := M.Pending(7, 50, [])]
    ensures FirstIn([1], M.OverdueIds(c, pending, 2000)) == Some(1)
  {
    assert M.Overdue(c, pending[1], 2000);
  }

  lemma ExampleEmptyVerdict(s: State, e: Event) returns (t: State)
    requires e == Verdict(1) && s.verdicts == map[1 := M.Signal(7, 1, M.RESULT_INIT)]
    requires 7 in s.packets.packets && 1 in s.packets.packets[7].images
    requires s.packets.history.late == [] && s.packets.history.expired == [] && s.packets.history.judged == []
    ensures Enabled(EXAMPLE, s, e) && t == Step(EXAMPLE, s, e)
    ensures t == s.(packets := t.packets, verdicts := map[], delivered := s.delivered + {1}, missed := t.missed)
    ensures var h := t.packets.history;
      h.late == [] && h.expired == [] && h.judged == [P.Judgement(7, 1, M.RESULT_INIT)]
      && h.created == s.packets.history.created
  {
    hide P.OnVerdict;
    t := Step(EXAMPLE, s, e);
    VerdictHistory(s.packets, P.Verdict(7, 1, M.RESULT_INIT, 1));
  }

  lemma ExamplePassed(s: State)
    requires Inv(EXAMPLE, s) && s.captured.Keys <= s.delivered && 7 in s.packets.history.created
    requires var h := s.packets.history;
      h.late == [] && h.expired == [] && h.judged == [P.Judgement(7, 1, M.RESULT_INIT)] && Distinct(h.created)
    ensures 7 in s.packets.history.passed
  {
    hide Places, KeysOk, ResultsOk, ViewsGood, D.Heard, P.Inv;
    var h := s.packets.history;
    DeliveredNothingLive(EXAMPLE, s);
    PacketInvAccounts(EXAMPLE, s.packets);
    P.GoneOnce(s.packets);
    CreatedSomewhere(s.packets, 7);
    assert h.judged[..0] == [];
    forall i: uint64 ensures D.Latest(h.judged, 7, i) != Some(P.RESULT_NG) {
    }
    assert !D.NgStands(h.judged, 7);
  }

  lemma ExampleOvertaken(s: State, e: Event)
    requires e == Infer(true, [G.AiResult(false, "x")]) && Enabled(EXAMPLE, s, e) && s.late == {1}
    requires s.group.emitted == [G.Group(7, [1], [1], [0], 0)] && s.inferred == 0
    ensures Overtaken(Step(EXAMPLE, s, e), 1) && Step(EXAMPLE, s, e).packets == s.packets
  {
    var g := s.group.emitted[0];
    NewKeys(g, map[1 := Owner(7, 1)], true, e.ai);
    assert 1 in g.imageIds;
  }
}
