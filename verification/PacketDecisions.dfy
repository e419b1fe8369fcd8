/** What the verdicts on a packet's images decide, over every run: which verdict stands for
    an image, that a packet passes exactly without a bad one, and when it is kicked. */
module PacketDecisions {
  import opened Basics
  import opened PacketResult

  /** The verdict that stands for an image of a packet: the last one recorded. */
  function Latest(log: seq<Judgement>, id: uint64, imageId: uint64): Option<uint16> {
    if log == [] then None
    else
      var j := log[|log| - 1];
      if j.objectId == id && j.imageId == imageId then Some(Stored(j.result))
      else Latest(log[..|log| - 1], id, imageId)
  }

  ghost predicate NgStands(log: seq<Judgement>, id: uint64) {
    exists i: uint64 :: Latest(log, id, i) == Some(RESULT_NG)
  }

  ghost predicate Unjudged(log: seq<Judgement>, id: uint64) {
    forall i: uint64 :: Latest(log, id, i) == None
  }

  /** The packet's results are the verdicts that stand. */
  ghost predicate Reflects(log: seq<Judgement>, p: Packet, id: uint64) {
    forall i: uint64 :: Latest(log, id, i) == if i in p.results then Some(p.results[i]) else None
  }

  /** A packet settled by a time-out is kicked only with an image from every camera. */
  predicate Kickable(h: History, id: uint64) {
    forall l :: l in h.late && l.objectId == id ==> l.images >= l.cameras
  }

  /** How packets left, and why. */
  ghost predicate Outcomes(h: History) {
    && (forall id :: id in h.passed ==> !NgStands(h.judged, id))
    && (forall id :: id in h.failed ==> NgStands(h.judged, id) && (id in h.kicked <==> Kickable(h, id)))
    && (forall id :: id in h.expired ==> Unjudged(h.judged, id))
    && (forall j :: j in h.judged ==> j.objectId in h.created)
    && (forall l :: l in h.late ==> l.objectId in h.passed || l.objectId in h.failed)
    && (forall id :: id in h.kicked ==> id in h.failed)
  }

  ghost predicate Decided(s: State) {
    Outcomes(s.history) && forall id :: id in s.packets ==> Reflects(s.history.judged, s.packets[id], id)
  }

  // ------------------------------------------------------------------------ the log

  lemma LatestOneMore(log: seq<Judgement>, j: Judgement, id: uint64, i: uint64)
    ensures Latest(log + [j], id, i)
         == if j.objectId == id && j.imageId == i then Some(Stored(j.result)) else Latest(log, id, i)
  {
    assert (log + [j])[..|log|] == log;
  }

  lemma {:induction false} LatestIsJudged(log: seq<Judgement>, id: uint64, i: uint64) returns (j: Judgement)
    requires Latest(log, id, i).Some?
    ensures j in log && j.objectId == id && j.imageId == i && Latest(log, id, i) == Some(Stored(j.result))
  {
    j := log[|log| - 1];
    if j.objectId != id || j.imageId != i {
      j := LatestIsJudged(log[..|log| - 1], id, i);
    }
  }

  lemma {:induction false} JudgedHasLatest(log: seq<Judgement>, j: Judgement)
    requires j in log
    ensures Latest(log, j.objectId, j.imageId).Some?
  {
    var last := log[|log| - 1];
    if last.objectId != j.objectId || last.imageId != j.imageId {
      assert j in log[..|log| - 1];
      JudgedHasLatest(log[..|log| - 1], j);
    }
  }

  lemma NeverJudged(log: seq<Judgement>, id: uint64)
    requires forall j :: j in log ==> j.objectId != id
    ensures Unjudged(log, id)
  {
    forall i: uint64
      ensures Latest(log, id, i) == None
    {
      if Latest(log, id, i).Some? {
        var j := LatestIsJudged(log, id, i);
      }
    }
  }

  /** A verdict on one packet changes nothing for the others. */
  lemma OthersStand(log: seq<Judgement>, j: Judgement, id: uint64)
    requires j.objectId != id
    ensures NgStands(log + [j], id) == NgStands(log, id)
    ensures Unjudged(log + [j], id) == Unjudged(log, id)
    ensures forall p :: Reflects(log + [j], p, id) == Reflects(log, p, id)
  {
    forall i: uint64
      ensures Latest(log + [j], id, i) == Latest(log, id, i)
    {
      LatestOneMore(log, j, id, i);
    }
    if i: uint64 :| Latest(log, id, i) == Some(RESULT_NG) {
      assert Latest(log + [j], id, i) == Some(RESULT_NG);
    }
  }

  lemma NgFromReflected(log: seq<Judgement>, p: Packet, id: uint64)
    requires Reflects(log, p, id)
    ensures HasNg(p) <==> NgStands(log, id)
    ensures p.results == map[] ==> Unjudged(log, id)
  {
    hide Latest;
    if HasNg(p) {
      var i :| i in p.results && p.results[i] == RESULT_NG;
      assert Latest(log, id, i) == Some(RESULT_NG);
    }
    if i: uint64 :| Latest(log, id, i) == Some(RESULT_NG) {
      assert p.results[i] == RESULT_NG;
    }
  }

  // ---------------------------------------------------------------------- every step

  lemma OutcomesJudge(h: History, j: Judgement)
    requires Outcomes(h) && j.objectId in h.created
    requires j.objectId !in h.passed && j.objectId !in h.failed && j.objectId !in h.expired
    ensures Outcomes(h.(judged := h.judged + [j]))
  {
    hide NgStands, Unjudged, Reflects;
    var h' := h.(judged := h.judged + [j]);
    forall id | id in h.passed || id in h.failed || id in h.expired
      ensures NgStands(h'.judged, id) == NgStands(h.judged, id) && Unjudged(h'.judged, id) == Unjudged(h.judged, id)
    {
      OthersStand(h.judged, j, id);
    }
    assert forall id :: Kickable(h', id) == Kickable(h, id);
  }

  lemma LeavesOutcomes(h: History, id: uint64, bad: bool, kick: bool, late: seq<Late>)
    requires Outcomes(h) && id !in h.passed && id !in h.failed && id !in h.expired
    requires bad <==> NgStands(h.judged, id)
    requires
      if kick then forall l :: l in late ==> l.images >= l.cameras
      else exists l :: l in late && l.images < l.cameras
    requires forall l :: l in late ==> l.objectId == id
    ensures Outcomes(h.(passed := h.passed + (if bad then [] else [id]),
                        failed := h.failed + (if bad then [id] else []),
                        kicked := h.kicked + (if bad && kick then [id] else []), late := h.late + late))
  {
    hide NgStands, Unjudged;
    var h' := h.(passed := h.passed + (if bad then [] else [id]), failed := h.failed + (if bad then [id] else []),
                 kicked := h.kicked + (if bad && kick then [id] else []), late := h.late + late);
    forall x | x in h'.failed
      ensures x in h'.kicked <==> Kickable(h', x)
    {
      if x != id {
        assert x in h.failed;
        assert Kickable(h', x) == Kickable(h, x);
      } else {
        assert forall l :: l in h'.late && l.objectId == id <==> l in late;
      }
    }
  }

  lemma JudgedReflects(log: seq<Judgement>, p: Packet, id: uint64, e: Event)
    requires e.Verdict? && e.imageId in p.images && e.objectId == id && Reflects(log, p, id)
    ensures Reflects(log + [Judgement(id, e.imageId, e.result)], Judged(p, e), id)
  {
    var j := Judgement(id, e.imageId, e.result);
    forall i: uint64
      ensures Latest(log + [j], id, i) == if i in Judged(p, e).results then Some(Judged(p, e).results[i]) else None
    {
      LatestOneMore(log, j, id, i);
    }
  }

  lemma VerdictDecides(c: Config, s: State, e: Event)
    requires Inv(c, s) && Decided(s) && e.Verdict? && Distinct(s.history.created)
    ensures Decided(OnVerdict(s, e))
  {
    hide Inv, Outcomes, Reflects, HasNg, Stored;
    if e.objectId in s.packets {
      InvAccounts(c, s);
      GoneOnce(s);
      hide Accounted;
      var id, log := e.objectId, s.history.judged;
      var q := s.packets[id];
      var p := Judged(q, e);
      var j := Judgement(id, e.imageId, e.result);
      var log' := log + if e.imageId in q.images then [j] else [];
      var h := s.history.(judged := log');
      if e.imageId in q.images {
        JudgedReflects(log, q, id, e);
        OutcomesJudge(s.history, j);
      } else {
        assert log' == log && h == s.history;
      }
      assert Outcomes(h) && Reflects(log', p, id);
      forall x | x in s.packets && x != id
        ensures Reflects(log', s.packets[x], x)
      {
        OthersStand(log, j, x);
      }
      if Complete(p, e.cameras) {
        NgFromReflected(log', p, id);
        LeavesOutcomes(h, id, HasNg(p), true, []);
        assert h.late + [] == h.late;
      }
    }
  }

  lemma InvAccounts(c: Config, s: State)
    requires Inv(c, s)
    ensures Accounted(s)
  {
  }

  lemma ImageDecides(c: Config, s: State, e: Event)
    requires Decided(s) && e.Image? && Distinct(OnImage(c, s, e).history.created)
    ensures Decided(OnImage(c, s, e))
  {
    hide Latest, NgStands, Unjudged, Near, NearIds, FirstIn;
    NearAreLive(c, s.packets, e.time);
    var t := OnImage(c, s, e);
    assert forall id :: Kickable(t.history, id) == Kickable(s.history, id);
    if |t.history.created| > |s.history.created| {
      assert t.history.created == s.history.created + [e.now];
      assert forall k :: 0 <= k < |s.history.created| ==> t.history.created[k] == s.history.created[k];
      assert t.history.created[|s.history.created|] == e.now;
      assert e.now !in s.history.created;
      NeverJudged(s.history.judged, e.now);
      UnjudgedReflects(s.history.judged, t.packets[e.now], e.now);
    }
  }

  lemma UnjudgedReflects(log: seq<Judgement>, p: Packet, id: uint64)
    requires Unjudged(log, id) && p.results == map[]
    ensures Reflects(log, p, id)
  {
  }

  lemma TimeoutDecides(c: Config, s: State, e: Event)
    requires Inv(c, s) && Decided(s) && e.Timeout? && Distinct(s.history.created)
    ensures Decided(OnTimeout(c, s, e))
  {
    hide Inv, Reflects, HasNg, Overdue, OverdueIds, FirstIn, NgStands, Unjudged;
    OverdueAreLive(c, s.packets, e.now);
    var due := FirstIn(e.order, OverdueIds(c, s.packets, e.now));
    if due.Some? {
      InvAccounts(c, s);
      GoneOnce(s);
      hide Accounted;
      var id, h := due.value, s.history;
      var p := s.packets[id];
      NgFromReflected(h.judged, p, id);
      if p.results == map[] {
        var h' := h.(expired := h.expired + [id]);
        assert forall x :: Kickable(h', x) == Kickable(h, x);
      } else {
        var l := Late(id, |p.images|, e.cameras);
        hide Outcomes;
        assert l in [l];
        LeavesOutcomes(h, id, HasNg(p), |p.images| >= e.cameras, [l]);
      }
    }
  }

  lemma CreatedGrows(c: Config, s: State, e: Event)
    requires Enabled(s, e)
    ensures s.history.created <= Step(c, s, e).history.created
  {
  }

  lemma {:induction false} RunDecides(c: Config, events: seq<Event>, s: State)
    requires Run(c, events, s) && Distinct(s.history.created)
    ensures Decided(s)
    decreases |events|
  {
    hide Decided, Inv, OnImage, OnVerdict, OnTimeout;
    if events == [] {
      InitialDecided();
    } else {
      var n := |events| - 1;
      var e := events[n];
      var t :| Run(c, events[..n], t) && Enabled(t, e) && s == Step(c, t, e);
      CreatedGrows(c, t, e);
      RunKeeps(c, events[..n], t);
      RunDecides(c, events[..n], t);
      match e
      case Image(_, _, _, _, _, _) => ImageDecides(c, t, e);
      case Verdict(_, _, _, _) => VerdictDecides(c, t, e);
      case Timeout(_, _, _) => TimeoutDecides(c, t, e);
    }
  }

  lemma InitialDecided()
    ensures Decided(INITIAL)
  {
  }

  // ------------------------------------------------------------------- the decisions

  /** No bad packet passes and no good one fails: a packet that left with a verdict failed
      exactly when a bad verdict stands for one of its images. It was kicked exactly then,
      unless a time-out settled it with images missing. */
  lemma FailedIffNgStands(c: Config, events: seq<Event>, s: State, id: uint64)
    requires Run(c, events, s) && Distinct(s.history.created) && id in s.history.passed + s.history.failed
    ensures id in s.history.failed <==> NgStands(s.history.judged, id)
    ensures id in s.history.kicked <==> NgStands(s.history.judged, id) && Kickable(s.history, id)
  {
    hide Run, Inv, NgStands, Unjudged, Reflects;
    RunDecides(c, events, s);
  }

  /** A packet that left on a verdict was kicked exactly when a bad verdict stands. */
  lemma KickedIffNgStands(c: Config, events: seq<Event>, s: State, id: uint64)
    requires Run(c, events, s) && Distinct(s.history.created) && id in s.history.passed + s.history.failed
    requires forall l :: l in s.history.late ==> l.objectId != id
    ensures id in s.history.kicked <==> NgStands(s.history.judged, id)
  {
    hide Run, NgStands;
    FailedIffNgStands(c, events, s, id);
  }

  /** No image was given two different verdicts. */
  predicate OneVerdictEach(log: seq<Judgement>) {
    forall j, k :: j in log && k in log && j.objectId == k.objectId && j.imageId == k.imageId ==>
      Stored(j.result) == Stored(k.result)
  }

  lemma NgStandsIffJudged(c: Config, s: State, id: uint64)
    requires Inv(c, s) && OneVerdictEach(s.history.judged)
    ensures NgStands(s.history.judged, id) <==> NgJudged(s.history, id)
  {
    var h := s.history;
    if NgStands(h.judged, id) {
      var i: uint64 :| Latest(h.judged, id, i) == Some(RESULT_NG);
      var j := LatestIsJudged(h.judged, id, i);
      assert JoinedAny(h, j.objectId, j.imageId);
    }
    if NgJudged(h, id) {
      var j :| j in h.judged && j.objectId == id && Stored(j.result) == RESULT_NG && JoinedAny(h, id, j.imageId);
      JudgedHasLatest(h.judged, j);
      var k := LatestIsJudged(h.judged, id, j.imageId);
      assert Latest(h.judged, id, j.imageId) == Some(RESULT_NG);
    }
  }

  /** With one verdict for each image, a packet fails exactly when some image was judged bad. */
  lemma FailedIffNgJudged(c: Config, events: seq<Event>, s: State, id: uint64)
    requires Run(c, events, s) && Distinct(s.history.created) && id in s.history.passed + s.history.failed
    requires OneVerdictEach(s.history.judged)
    ensures id in s.history.failed <==> NgJudged(s.history, id)
    ensures (forall l :: l in s.history.late ==> l.objectId != id) ==>
      (id in s.history.kicked <==> NgJudged(s.history, id))
  {
    hide Run, Inv, NgStands, NgJudged, OneVerdictEach;
    FailedIffNgStands(c, events, s, id);
    RunKeeps(c, events, s);
    NgStandsIffJudged(c, s, id);
  }

  /** A second verdict on an image replaces the first: a packet with an image judged bad and
      then good passes. */
  lemma SecondVerdictReplaces() returns (s: State)
    ensures Run(EXAMPLE,
      [Image(1, 1, 50, 7, 2, []), Image(2, 2, 50, 8, 2, [7]), Verdict(7, 1, 0, 2), Verdict(7, 1, 1, 2),
        Verdict(7, 2, 1, 2)], s)
    ensures Judgement(7, 1, RESULT_NG as int) in s.history.judged && s.history.passed == [7] && s.history.failed == []
  {
    hide Run, Step, OnImage, OnVerdict;
    var e1, e2 := Image(1, 1, 50, 7, 2, []), Image(2, 2, 50, 8, 2, [7]);
    var v1, v2, v3 := Verdict(7, 1, 0, 2), Verdict(7, 1, 1, 2), Verdict(7, 2, 1, 2);
    var s1 := FirstImage(EXAMPLE, e1);
    SecondCamera(s1, e2);
    var s2 := OnImage(EXAMPLE, s1, e2);
    ImageStep(EXAMPLE, s1, e2);
    RunExtends(EXAMPLE, [e1], s1, e2, [e1, e2]);
    s := ReplacedFrom(s2, s2.packets[7], v1, v2, v3);
    var s3 := OnVerdict(s2, v1);
    var s4 := OnVerdict(s3, v2);
    VerdictStep(EXAMPLE, s2, v1);
    VerdictStep(EXAMPLE, s3, v2);
    VerdictStep(EXAMPLE, s4, v3);
    RunExtends(EXAMPLE, [e1, e2], s2, v1, [e1, e2, v1]);
    RunExtends(EXAMPLE, [e1, e2, v1], s3, v2, [e1, e2, v1, v2]);
    RunExtends(EXAMPLE, [e1, e2, v1, v2], s4, v3, [e1, e2, v1, v2, v3]);
  }

  lemma SecondCamera(s: State, e: Event)
    requires e == Image(2, 2, 50, 8, 2, [7]) && s.packets == map[7 := Packet(7, 50, map[1 := 1], map[])]
    ensures Enabled(s, e)
    ensures OnImage(EXAMPLE, s, e).packets == map[7 := Packet(7, 50, map[1 := 1, 2 := 2], map[])]
    ensures OnImage(EXAMPLE, s, e).history == s.history.(joined := s.history.joined + {Assignment(7, 2, 2, 50, 50)})
  {
    NearAreLive(EXAMPLE, s.packets, 50);
    FirstInIs([7], NearIds(EXAMPLE, s.packets, 50), 0);
    hide NearIds, FirstIn;
    OneCamera();
  }

  lemma OneCamera()
    ensures Takes(Packet(7, 50, map[1 := 1], map[]), 2, 2)
  {
    var m: map<uint64, uint32> := map[1 := 1];
    assert forall x :: x in m.Values ==> x == 1;
    assert m.Keys == {1} && |m| == 1;
  }

  lemma ReplacedFrom(s: State, p: Packet, v1: Event, v2: Event, v3: Event) returns (t: State)
    requires p == Packet(7, 50, map[1 := 1, 2 := 2], map[]) && s.packets == map[7 := p]
    requires s.history.judged == [] && s.history.passed == [] && s.history.failed == []
    requires v1 == Verdict(7, 1, 0, 2) && v2 == Verdict(7, 1, 1, 2) && v3 == Verdict(7, 2, 1, 2)
    ensures t == OnVerdict(OnVerdict(OnVerdict(s, v1), v2), v3)
    ensures Judgement(7, 1, 0) in t.history.judged && t.history.passed == [7] && t.history.failed == []
  {
    hide OnVerdict;
    var p1 := StillOpen(s, p, v1);
    var s1 := OnVerdict(s, v1);
    var p2 := StillOpen(s1, p1, v2);
    var s2 := OnVerdict(s1, v2);
    assert p2.results == map[1 := 1];
    t := OnVerdict(s2, v3);
    LastVerdict(s2, p2, v3);
  }

  lemma StillOpen(s: State, p: Packet, v: Event) returns (q: Packet)
    requires s.packets == map[7 := p] && p.images == map[1 := 1, 2 := 2] && p.results.Keys <= {1}
    requires v.Verdict? && v.objectId == 7 && v.imageId == 1 && v.cameras == 2
    ensures q == p.(results := map[1 := Stored(v.result)]) && OnVerdict(s, v).packets == map[7 := q]
    ensures OnVerdict(s, v).history == s.history.(judged := s.history.judged + [Judgement(7, 1, v.result)])
  {
    hide Finish, Stored, HasNg;
    q := Judged(p, v);
    assert q.results == map[1 := Stored(v.result)];
    assert q.results.Keys == {1} && |q.results| == 1;
    assert q.images.Keys == {1, 2} && |q.images| == 2;
  }

  lemma LastVerdict(s: State, p: Packet, v: Event)
    requires s.packets == map[7 := p] && p.images == map[1 := 1, 2 := 2] && p.results == map[1 := 1]
    requires v == Verdict(7, 2, 1, 2)
    ensures OnVerdict(s, v).history.judged == s.history.judged + [Judgement(7, 2, 1)]
    ensures OnVerdict(s, v).history.passed == s.history.passed + [7]
      && OnVerdict(s, v).history.failed == s.history.failed
  {
    var q := Judged(p, v);
    assert q.results == map[1 := 1, 2 := 1];
    assert q.results.Keys == {1, 2} && |q.results| == 2;
    assert !HasNg(q);
  }

  // ---------------------------------------------------- every image has had its say

  predicate SameCameras(events: seq<Event>, n: int) {
    forall k :: 0 <= k < |events| && (events[k].Image? || events[k].Verdict?) ==> events[k].cameras == n
  }

  ghost predicate AllJudged(h: History, id: uint64) {
    forall a :: a in h.joined && a.objectId == id ==> Latest(h.judged, id, a.imageId).Some?
  }

  predicate NotLate(h: History, id: uint64) {
    forall l :: l in h.late ==> l.objectId != id
  }

  /** Images stay with their packet, which has at most one for each camera. */
  ghost predicate Heard(s: State, n: int) {
    var h := s.history;
    && (forall a :: a in h.joined ==> a.objectId in h.created)
    && (forall a :: a in h.joined && a.objectId in s.packets ==> a.imageId in s.packets[a.objectId].images)
    && (forall id :: id in s.packets ==> |s.packets[id].images| <= n)
    && (forall id :: (id in h.passed || id in h.failed) && NotLate(h, id) ==> AllJudged(h, id))
    && (forall id :: id in h.passed || id in h.failed ==> id in h.created)
  }

  lemma LatestPersists(h: History, h': History, id: uint64)
    requires AllJudged(h, id) && h'.joined == h.joined
    requires h'.judged == h.judged || exists j :: h'.judged == h.judged + [j]
    ensures AllJudged(h', id)
  {
    if h'.judged != h.judged {
      var j :| h'.judged == h.judged + [j];
      forall a | a in h'.joined && a.objectId == id
        ensures Latest(h'.judged, id, a.imageId).Some?
      {
        LatestOneMore(h.judged, j, id, a.imageId);
      }
    }
  }

  lemma ImageHeard(c: Config, s: State, e: Event, n: int)
    requires Inv(c, s) && Heard(s, n) && e.Image? && e.cameras == n >= 1 && Distinct(OnImage(c, s, e).history.created)
    requires Distinct(s.history.created)
    ensures Heard(OnImage(c, s, e), n)
  {
    hide Latest, Near, NearIds, FirstIn, Inv;
    NearAreLive(c, s.packets, e.time);
    InvAccounts(c, s);
    GoneOnce(s);
    hide Accounted;
    var t := OnImage(c, s, e);
    if |t.history.created| > |s.history.created| {
      assert t.history.created == s.history.created + [e.now];
      assert forall k :: 0 <= k < |s.history.created| ==> t.history.created[k] == s.history.created[k];
      assert t.history.created[|s.history.created|] == e.now;
      assert e.now !in s.history.created;
    }
    forall id | (id in t.history.passed || id in t.history.failed) && NotLate(t.history, id)
      ensures AllJudged(t.history, id)
    {
      assert NotLate(s.history, id) && AllJudged(s.history, id) && id !in s.packets;
    }
  }

  lemma VerdictHeard(c: Config, s: State, e: Event, n: int)
    requires Inv(c, s) && Decided(s) && Heard(s, n) && e.Verdict? && e.cameras == n && Distinct(s.history.created)
    ensures Heard(OnVerdict(s, e), n)
  {
    hide Latest, Inv, Outcomes, HasNg, Stored, OnVerdict, Judged, Complete, AllJudged;
    if e.objectId in s.packets {
      InvAccounts(c, s);
      GoneOnce(s);
      hide Accounted;
      var id, t := e.objectId, OnVerdict(s, e);
      VerdictFrame(s, e);
      VerdictLog(s, e);
      forall x | (x in t.history.passed || x in t.history.failed) && NotLate(t.history, x)
        ensures AllJudged(t.history, x)
      {
        if x != id {
          assert NotLate(s.history, x);
          LatestPersists(s.history, t.history, x);
        } else {
          LeaverHeard(c, s, e, n);
        }
      }
    } else {
      assert OnVerdict(s, e) == s by { UnknownPacket(s, e); }
    }
  }

  lemma UnknownPacket(s: State, e: Event)
    requires e.Verdict? && e.objectId !in s.packets
    ensures OnVerdict(s, e) == s
  {
  }

  /** What a verdict does apart from the log. */
  lemma VerdictFrame(s: State, e: Event)
    requires e.Verdict? && e.objectId in s.packets
    ensures var id, t := e.objectId, OnVerdict(s, e);
      && t.history.joined == s.history.joined && t.history.created == s.history.created
        && t.history.late == s.history.late
      && (forall x :: x in t.packets ==> x in s.packets && t.packets[x].images == s.packets[x].images)
      && (forall x :: x in t.history.passed && x !in s.history.passed ==> x == id && id !in t.packets)
      && (forall x :: x in t.history.failed && x !in s.history.failed ==> x == id && id !in t.packets)
      && (id !in t.packets ==> Complete(Judged(s.packets[id], e), e.cameras))
  {
    hide Complete, HasNg, Stored;
  }

  lemma LeaverHeard(c: Config, s: State, e: Event, n: int)
    requires Inv(c, s) && Decided(s) && Heard(s, n) && e.Verdict? && e.cameras == n
    requires e.objectId in s.packets && e.objectId !in OnVerdict(s, e).packets
    ensures AllJudged(OnVerdict(s, e).history, e.objectId)
  {
    hide Latest, Inv, Outcomes, HasNg, Stored, OnVerdict;
    var id, q, t := e.objectId, s.packets[e.objectId], OnVerdict(s, e);
    var p := Judged(q, e);
    InvShape(c, s, id);
    VerdictFrame(s, e);
    VerdictLog(s, e);
    if e.imageId in q.images {
      JudgedReflects(s.history.judged, q, id, e);
    }
    assert Reflects(t.history.judged, p, id);
    SameKeys(p.results, p.images, n);
  }

  lemma VerdictLog(s: State, e: Event)
    requires e.Verdict? && e.objectId in s.packets
    ensures var q, log := s.packets[e.objectId], s.history.judged;
      OnVerdict(s, e).history.judged == if e.imageId in q.images
        then log + [Judgement(e.objectId, e.imageId, e.result)] else log
  {
  }

  /** At least n results among at most n images are results for all of them. */
  lemma SameKeys(results: map<uint64, uint16>, images: map<uint64, uint32>, n: int)
    requires results.Keys <= images.Keys && |images| <= n && (|results| >= n || |results| >= |images|)
    ensures results.Keys == images.Keys
  {
    var missing := images.Keys - results.Keys;
    assert |results.Keys| == |results| && |images.Keys| == |images|;
    assert images.Keys == results.Keys + missing && results.Keys !! missing;
    assert |images.Keys| == |results.Keys| + |missing|;
  }

  lemma InvShape(c: Config, s: State, id: uint64)
    requires Inv(c, s) && id in s.packets
    ensures PacketShape(s.packets[id], id)
  {
  }

  lemma TimeoutHeard(c: Config, s: State, e: Event, n: int)
    requires Inv(c, s) && Heard(s, n) && e.Timeout? && Distinct(s.history.created)
    ensures Heard(OnTimeout(c, s, e), n)
  {
    hide Inv, Latest, HasNg, Overdue, OverdueIds, FirstIn, AllJudged;
    OverdueAreLive(c, s.packets, e.now);
    InvAccounts(c, s);
    GoneOnce(s);
    hide Accounted;
    var t := OnTimeout(c, s, e);
    forall x | (x in t.history.passed || x in t.history.failed) && NotLate(t.history, x)
      ensures AllJudged(t.history, x)
    {
      assert NotLate(s.history, x);
      if |t.history.late| > |s.history.late| {
        var l := t.history.late[|s.history.late|];
        assert l in t.history.late;
      }
      assert AllJudged(s.history, x);
      LatestPersists(s.history, t.history, x);
    }
  }

  lemma {:induction false} RunHeard(c: Config, events: seq<Event>, s: State, n: int)
    requires Run(c, events, s) && Distinct(s.history.created) && SameCameras(events, n) && n >= 1
    ensures Heard(s, n)
    decreases |events|
  {
    hide Heard, Decided, Inv, OnImage, OnVerdict, OnTimeout;
    if events == [] {
      InitialHeard(n);
    } else {
      var m := |events| - 1;
      var e := events[m];
      var t :| Run(c, events[..m], t) && Enabled(t, e) && s == Step(c, t, e);
      CreatedGrows(c, t, e);
      RunKeeps(c, events[..m], t);
      RunDecides(c, events[..m], t);
      RunHeard(c, events[..m], t, n);
      match e
      case Image(_, _, _, _, _, _) => ImageHeard(c, t, e, n);
      case Verdict(_, _, _, _) => VerdictHeard(c, t, e, n);
      case Timeout(_, _, _) => TimeoutHeard(c, t, e, n);
    }
  }

  lemma InitialHeard(n: int)
    ensures Heard(INITIAL, n)
  {
  }

  /** While the number of cameras does not change, a packet that left on a verdict had a
      verdict for every image that was ever assigned to it. */
  lemma EveryImageJudged(c: Config, events: seq<Event>, s: State, n: int, a: Assignment)
    requires Run(c, events, s) && Distinct(s.history.created) && SameCameras(events, n) && n >= 1
    requires a in s.history.joined && a.objectId in s.history.passed + s.history.failed
      && NotLate(s.history, a.objectId)
    ensures Latest(s.history.judged, a.objectId, a.imageId).Some?
  {
    hide Run, Latest;
    RunHeard(c, events, s, n);
    assert AllJudged(s.history, a.objectId);
  }
}
