/** Merging the results of several algorithms into one verdict per image. The object keeps,
    for each pending image, only the merged verdict and text and a count; the model keeps
    the results themselves, in order of arrival, and says what the merged form must be. */
module ImageMultipler {
  import opened Basics

  const RESULT_INIT := -1
  const RESULT_NG := 0

  /** One algorithm's result for an image. */
  datatype Part = Part(result: int, json: string)

  // ------------------------------------------------------- what the parts amount to

  /** NG if any part is NG, otherwise the first result that is not the initial value. */
  function Verdict(parts: seq<Part>): int {
    if exists k :: 0 <= k < |parts| && parts[k].result == RESULT_NG then RESULT_NG else FirstProper(parts)
  }

  function FirstProper(parts: seq<Part>): int {
    if parts == [] then RESULT_INIT
    else if parts[0].result != RESULT_INIT then parts[0].result
    else FirstProper(parts[1..])
  }

  /** How the object folds one more result into its verdict. */
  function Merge(verdict: int, result: int): int {
    if verdict == RESULT_INIT then result else if result == RESULT_NG then RESULT_NG else verdict
  }

  lemma {:induction false} FirstProperSnoc(parts: seq<Part>, p: Part)
    ensures FirstProper(parts + [p]) == if FirstProper(parts) == RESULT_INIT then p.result else FirstProper(parts)
  {
    if parts != [] {
      assert (parts + [p])[1..] == parts[1..] + [p];
      FirstProperSnoc(parts[1..], p);
    } else {
      assert ([] + [p])[1..] == [];
    }
  }

  lemma MergeFolds(parts: seq<Part>, p: Part)
    ensures Verdict(parts + [p]) == Merge(Verdict(parts), p.result)
  {
    FirstProperSnoc(parts, p);
    var all := parts + [p];
    assert all[|parts|] == p;
    assert forall k :: 0 <= k < |parts| ==> all[k] == parts[k];
  }

  /** Without initial results it is the first result that counts. */
  lemma VerdictIsFirst(parts: seq<Part>)
    requires parts != [] && parts[0].result != RESULT_INIT
    ensures Verdict(parts)
      == if exists k :: 0 <= k < |parts| && parts[k].result == RESULT_NG then RESULT_NG else parts[0].result
  {
  }

  /** The texts joined by commas. */
  function Joined(parts: seq<Part>): string {
    if parts == [] then "" else if |parts| == 1 then parts[0].json
    else Joined(parts[..|parts| - 1]) + "," + parts[|parts| - 1].json
  }

  /** The array the comment at the append promises. */
  function Promised(parts: seq<Part>): string {
    "[" + Joined(parts) + "]"
  }

  /** What the original builds: each further text goes in front of the closing bracket and
      brings one of its own, and the old one stays. */
  function Appended(json: string, text: string): string {
    if json == "" then "[" + text + "]"
    else json[..|json| - 1] + ("," + text + "]") + json[|json| - 1..]
  }

  function Built(parts: seq<Part>): string {
    if parts == [] then "" else Appended(Built(parts[..|parts| - 1]), parts[|parts| - 1].json)
  }

  lemma BuiltSnoc(parts: seq<Part>, p: Part)
    ensures Built(parts + [p]) == Appended(Built(parts), p.json)
  {
    assert (parts + [p])[..|parts|] == parts;
  }

  /** Every text but the first with a comma before and a bracket behind it. */
  function Tail(parts: seq<Part>): string {
    if |parts| <= 1 then "" else Tail(parts[..|parts| - 1]) + ("," + parts[|parts| - 1].json + "]")
  }

  /** What is sent for one or more results: each further text has closed the array again. */
  lemma {:induction false} BuiltIs(parts: seq<Part>)
    requires parts != []
    ensures Built(parts) == "[" + parts[0].json + Tail(parts) + "]"
    decreases |parts|
  {
    hide Appended, Tail, Built;
    var front, last := parts[..|parts| - 1], parts[|parts| - 1].json;
    TailIs(parts);
    BuiltSnoc(front, parts[|parts| - 1]);
    assert front + [parts[|parts| - 1]] == parts;
    if |parts| == 1 {
      assert Built(front) == "" by { NothingBuilt(); }
      AppendedFirst(last);
    } else {
      BuiltIs(front);
      var head := "[" + front[0].json + Tail(front);
      AppendedNext(head, last);
      assert head + ("," + last + "]") == "[" + parts[0].json + Tail(parts);
    }
  }

  lemma TailIs(parts: seq<Part>)
    ensures |parts| == 1 ==> Tail(parts) == ""
    ensures |parts| > 1 ==> Tail(parts) == Tail(parts[..|parts| - 1]) + ("," + parts[|parts| - 1].json + "]")
  {
  }

  lemma NothingBuilt()
    ensures Built([]) == ""
  {
  }

  lemma AppendedFirst(text: string)
    ensures Appended("", text) == "[" + text + "]"
  {
  }

  lemma AppendedNext(head: string, text: string)
    ensures Appended(head + "]", text) == head + ("," + text + "]") + "]"
  {
    var json := head + "]";
    assert json[..|json| - 1] == head && json[|json| - 1..] == "]";
  }

  lemma {:induction false} BuiltLength(parts: seq<Part>)
    requires parts != []
    ensures |Built(parts)| == |Promised(parts)| + |parts| - 1 && Built(parts)[|Built(parts)| - 1] == ']'
    decreases |parts|
  {
    if |parts| == 1 {
      assert parts[..0] == [];
    } else {
      BuiltLength(parts[..|parts| - 1]);
    }
  }

  /** The text sent for an image; a time-out turns the empty text into an empty array. */
  function Sent(parts: seq<Part>, timedOut: bool): string {
    if timedOut && Built(parts) == "" then "[]" else Built(parts)
  }

  /** The promised array is sent exactly when at most one result came, and in the case of
      none when the image timed out. Two results already leave a bracket too many. */
  lemma SentAsPromisedIff(parts: seq<Part>, timedOut: bool)
    ensures Sent(parts, timedOut) == Promised(parts) <==> |parts| == 1 || (parts == [] && timedOut)
  {
    if parts != [] {
      BuiltLength(parts);
    }
    if |parts| == 1 {
      assert parts[..0] == [];
    }
  }

  lemma TwoResultsExample()
    ensures Built([Part(1, "a"), Part(1, "b")]) == "[a,b]]" && Promised([Part(1, "a"), Part(1, "b")]) == "[a,b]"
  {
    var a, b := Part(1, "a"), Part(1, "b");
    JoinedTwo(a, b);
    hide Built, Appended, Joined;
    NothingBuilt();
    BuiltSnoc([], a);
    BuiltSnoc([a], b);
    assert [] + [a] == [a] && [a] + [b] == [a, b];
    AppendedFirst("a");
    assert "[" + "a" + "]" == "[a" + "]";
    AppendedNext("[a", "b");
    assert "[a" + ("," + "b" + "]") + "]" == "[a,b]]";
  }

  lemma JoinedTwo(a: Part, b: Part)
    ensures Joined([a, b]) == a.json + "," + b.json
  {
    assert [a, b][..1] == [a];
  }

  // ------------------------------------------------------------------------ model

  datatype Config = Config(cameraId: int, iasCount: nat, inferTimeout: uint64)
  datatype Pending = Pending(objectId: uint64, genTime: uint64, parts: seq<Part>)
  datatype Finished = Finished(imageId: uint64, objectId: uint64, parts: seq<Part>, timedOut: bool, infer: bool)

  /** `readTotal` and `readNg` are what the statistics reader has taken so far. */
  datatype State = State(
    pending: map<uint64, Pending>, admitted: seq<uint64>, finished: seq<Finished>, readTotal: int, readNg: int)

  /** `infer` is the run type at that moment; `order` the order of the hash iteration. */
  datatype Event =
    | ImageData(imageId: uint64, objectId: uint64, genTime: uint64)
    | IasResult(cameraId: int, imageId: uint64, part: Part, infer: bool)
    | Timeout(now: uint64, infer: bool, order: seq<uint64>)
    | Statistic

  predicate Enabled(s: State, e: Event) {
    e.Timeout? ==> Enumerates(e.order, s.pending.Keys)
  }

  const INITIAL := State(map[], [], [], 0, 0)

  /** Results needed: one per algorithm, and one even when no algorithm is configured. */
  function Needed(c: Config): nat {
    if c.iasCount <= 1 then 1 else c.iasCount
  }

  function Finish(s: State, imageId: uint64, parts: seq<Part>, timedOut: bool, infer: bool): State
    requires imageId in s.pending
  {
    s.(pending := s.pending - {imageId},
       finished := s.finished + [Finished(imageId, s.pending[imageId].objectId, parts, timedOut, infer)])
  }

  predicate Overdue(c: Config, p: Pending, now: uint64) {
    Minus(now, p.genTime) >= c.inferTimeout
  }

  function OverdueIds(c: Config, pending: map<uint64, Pending>, now: uint64): set<uint64> {
    set id | id in pending && Overdue(c, pending[id], now)
  }

  lemma OverdueArePending(c: Config, pending: map<uint64, Pending>, now: uint64)
    ensures forall id :: id in OverdueIds(c, pending, now) <==> id in pending && Overdue(c, pending[id], now)
  {
  }

  function NgCount(finished: seq<Finished>): nat {
    if finished == [] then 0
    else NgCount(finished[..|finished| - 1]) + if Verdict(finished[|finished| - 1].parts) == RESULT_NG then 1 else 0
  }

  function Step(c: Config, s: State, e: Event): State
    requires Enabled(s, e)
  {
    match e
    case ImageData(imageId, objectId, genTime) =>
      if imageId in s.pending then s
      else s.(pending := s.pending[imageId := Pending(objectId, genTime, [])], admitted := s.admitted + [imageId])
    case IasResult(cameraId, imageId, part, infer) =>
      if cameraId != c.cameraId || imageId !in s.pending then s
      else
        var parts := s.pending[imageId].parts + [part];
        if |parts| >= Needed(c) then Finish(s, imageId, parts, false, infer)
        else s.(pending := s.pending[imageId := s.pending[imageId].(parts := parts)])
    case Timeout(now, infer, order) =>
      var due := FirstIn(order, OverdueIds(c, s.pending, now));
      if due.None? then s else Finish(s, due.value, s.pending[due.value].parts, true, infer)
    case Statistic => s.(readTotal := |s.admitted|, readNg := NgCount(s.finished))
  }

  /** The first pending image in iteration order that is the time-out old is finished with the
      results it has. */
  lemma TimeoutInFull(c: Config, s: State, e: Event, k: nat)
    requires e.Timeout? && Enabled(s, e) && k < |e.order|
    requires Elapsed(s.pending[e.order[k]].genTime, e.now, c.inferTimeout)
    requires forall r :: 0 <= r < k ==> !Elapsed(s.pending[e.order[r]].genTime, e.now, c.inferTimeout)
    ensures var i := e.order[k];
      var p := s.pending[i];
      Step(c, s, e) == s.(pending := s.pending - {i},
                          finished := s.finished + [Finished(i, p.objectId, p.parts, true, e.infer)])
  {
    OverdueAre(c, s.pending, e.now);
    FirstInIs(e.order, OverdueIds(c, s.pending, e.now), k);
    hide OverdueIds, FirstIn;
  }

  lemma NothingOverdue(c: Config, s: State, e: Event)
    requires e.Timeout? && Enabled(s, e)
    requires forall i :: i in s.pending ==> !Elapsed(s.pending[i].genTime, e.now, c.inferTimeout)
    ensures Step(c, s, e) == s
  {
    OverdueAre(c, s.pending, e.now);
    hide OverdueIds;
  }

  lemma OverdueAre(c: Config, pending: map<uint64, Pending>, now: uint64)
    ensures forall i ::
      i in OverdueIds(c, pending, now) <==> i in pending && Elapsed(pending[i].genTime, now, c.inferTimeout)
  {
    forall i | i in pending
      ensures Overdue(c, pending[i], now) <==> Elapsed(pending[i].genTime, now, c.inferTimeout)
    {
      ElapsedIff(pending[i].genTime, now, c.inferTimeout);
    }
    hide Overdue, Elapsed;
  }

  /** A result for a pending image of this camera is added to it, and finishes it when it is the
      last one that is waited for. Other results, and images that are pending, change nothing. */
  lemma ResultInFull(c: Config, s: State, e: Event)
    requires e.IasResult? && Inv(c, s)
    ensures var t := Step(c, s, e);
      if e.cameraId != c.cameraId || e.imageId !in s.pending then t == s
      else
        var p := s.pending[e.imageId];
        if |p.parts| + 1 == c.iasCount || c.iasCount <= 1 then
          t == s.(pending := s.pending - {e.imageId},
                  finished := s.finished + [Finished(e.imageId, p.objectId, p.parts + [e.part], false, e.infer)])
        else t == s.(pending := s.pending[e.imageId := Pending(p.objectId, p.genTime, p.parts + [e.part])])
  {
    if e.cameraId == c.cameraId && e.imageId in s.pending {
      PartsBelow(c, s, e.imageId);
    }
  }

  lemma ImageInFull(c: Config, s: State, e: Event)
    requires e.ImageData?
    ensures Step(c, s, e) == if e.imageId in s.pending then s
      else s.(pending := s.pending[e.imageId := Pending(e.objectId, e.genTime, [])],
              admitted := s.admitted + [e.imageId])
  {
  }

  /** States reachable by a run of events. */
  ghost predicate Run(c: Config, events: seq<Event>, s: State)
    decreases |events|
  {
    if events == [] then s == INITIAL
    else
      var n := |events| - 1;
      exists t :: Run(c, events[..n], t) && Enabled(t, events[n]) && s == Step(c, t, events[n])
  }

  function FinishedIds(finished: seq<Finished>): (ids: seq<uint64>)
    ensures |ids| == |finished|
  {
    seq(|finished|, k requires 0 <= k < |finished| => finished[k].imageId)
  }

  predicate Inv(c: Config, s: State) {
    multiset(s.admitted) == multiset(s.pending.Keys) + multiset(FinishedIds(s.finished))
    && (forall i :: i in s.pending ==> |s.pending[i].parts| < Needed(c))
    && (forall k :: 0 <= k < |s.finished| ==>
          var f := s.finished[k]; if f.timedOut then |f.parts| < Needed(c) else |f.parts| == Needed(c))
  }

  lemma FinishKeeps(c: Config, s: State, imageId: uint64, parts: seq<Part>, timedOut: bool, infer: bool)
    requires Inv(c, s) && imageId in s.pending
    requires if timedOut then |parts| < Needed(c) else |parts| == Needed(c)
    ensures Inv(c, Finish(s, imageId, parts, timedOut, infer))
  {
    var t := Finish(s, imageId, parts, timedOut, infer);
    assert FinishedIds(t.finished) == FinishedIds(s.finished) + [imageId];
    assert t.pending.Keys == s.pending.Keys - {imageId};
    assert multiset(s.pending.Keys) == multiset(t.pending.Keys) + multiset{imageId};
  }

  lemma AdmitKeeps(c: Config, s: State, imageId: uint64, objectId: uint64, genTime: uint64)
    requires Inv(c, s) && imageId !in s.pending
    ensures Inv(c,
      s.(pending := s.pending[imageId := Pending(objectId, genTime, [])], admitted := s.admitted + [imageId]))
  {
    var t := s.(pending := s.pending[imageId := Pending(objectId, genTime, [])], admitted := s.admitted + [imageId]);
    assert t.pending.Keys == s.pending.Keys + {imageId};
    assert multiset(t.pending.Keys) == multiset(s.pending.Keys) + multiset{imageId};
    assert multiset(t.admitted) == multiset(s.admitted) + multiset{imageId};
  }

  lemma MoreKeeps(c: Config, s: State, imageId: uint64, parts: seq<Part>)
    requires Inv(c, s) && imageId in s.pending && |parts| < Needed(c)
    ensures Inv(c, s.(pending := s.pending[imageId := s.pending[imageId].(parts := parts)]))
  {
    var t := s.(pending := s.pending[imageId := s.pending[imageId].(parts := parts)]);
    assert t.pending.Keys == s.pending.Keys;
  }

  lemma StepKeeps(c: Config, s: State, e: Event)
    requires Inv(c, s) && Enabled(s, e)
    ensures Inv(c, Step(c, s, e))
  {
    match e
    case ImageData(imageId, objectId, genTime) =>
      if imageId !in s.pending {
        AdmitKeeps(c, s, imageId, objectId, genTime);
      }
    case IasResult(cameraId, imageId, part, infer) =>
      if cameraId == c.cameraId && imageId in s.pending {
        var parts := s.pending[imageId].parts + [part];
        if |parts| >= Needed(c) {
          FinishKeeps(c, s, imageId, parts, false, infer);
        } else {
          MoreKeeps(c, s, imageId, parts);
        }
      }
    case Timeout(now, infer, order) =>
      hide Overdue, OverdueIds;
      OverdueArePending(c, s.pending, now);
      var due := FirstIn(order, OverdueIds(c, s.pending, now));
      if due.Some? {
        FinishKeeps(c, s, due.value, s.pending[due.value].parts, true, infer);
      }
    case Statistic =>
      StatisticKeeps(c, s);
  }

  lemma StatisticKeeps(c: Config, s: State)
    requires Inv(c, s)
    ensures Inv(c, Step(c, s, Statistic))
  {
  }

  /** Every admitted image is pending or has been finished, as often as it was admitted; it
      was finished with a result from every algorithm, or late with fewer. */
  lemma {:induction false} RunKeeps(c: Config, events: seq<Event>, s: State)
    requires Run(c, events, s)
    ensures Inv(c, s)
    decreases |events|
  {
    hide Step, Inv;
    if events == [] {
      InitialInv(c);
    } else {
      var n := |events| - 1;
      var t :| Run(c, events[..n], t) && Enabled(t, events[n]) && s == Step(c, t, events[n]);
      RunKeeps(c, events[..n], t);
      StepKeeps(c, t, events[n]);
    }
  }

  lemma InitialInv(c: Config)
    ensures Inv(c, INITIAL)
  {
    assert multiset(INITIAL.pending.Keys) == multiset{} && FinishedIds(INITIAL.finished) == [];
  }

  /** With distinct image ids, an image is finished at most once and never while pending. */
  lemma FinishedOnce(c: Config, events: seq<Event>, s: State)
    requires Run(c, events, s) && Distinct(s.admitted)
    ensures Distinct(FinishedIds(s.finished)) && forall k :: 0 <= k < |s.finished| ==>
      s.finished[k].imageId !in s.pending
    ensures |s.admitted| == |s.pending| + |s.finished|
  {
    hide Run;
    RunKeeps(c, events, s);
    var ids := FinishedIds(s.finished);
    assert |multiset(s.pending.Keys)| == |s.pending.Keys| == |s.pending|;
    assert |multiset(s.admitted)| == |s.admitted| && |multiset(ids)| == |ids|;
    DistinctCounts(s.admitted);
    forall x
      ensures multiset(ids)[x] <= 1
    {
      assert multiset(s.admitted)[x] <= 1;
    }
    DistinctCounts(ids);
    forall k | 0 <= k < |s.finished|
      ensures s.finished[k].imageId !in s.pending
    {
      var x := ids[k];
      assert multiset(s.admitted)[x] <= 1;
      assert x in ids && multiset(ids)[x] >= 1;
      assert x in s.pending ==> multiset(s.pending.Keys)[x] == 1;
    }
  }

  // ------------------------------------------------------------------- the object

  datatype Record = Record(objectId: uint64, genTime: uint64, result: int, json: string)
  datatype Report = Report(imageId: uint64, objectId: uint64, result: int, json: string)
  datatype Signal = Signal(objectId: uint64, imageId: uint64, result: int)

  function ReportOf(f: Finished): Report {
    Report(f.imageId, f.objectId, Verdict(f.parts), Sent(f.parts, f.timedOut))
  }

  function Reports(finished: seq<Finished>): seq<Report> {
    if finished == [] then [] else Reports(finished[..|finished| - 1]) + [ReportOf(finished[|finished| - 1])]
  }

  /** Verdicts are signalled only in inference mode. */
  function Signals(finished: seq<Finished>): seq<Signal> {
    if finished == [] then []
    else
      var f := finished[|finished| - 1];
      Signals(finished[..|finished| - 1]) + if f.infer then [Signal(f.objectId, f.imageId, Verdict(f.parts))] else []
  }

  predicate SaysNg(parts: seq<Part>) {
    exists k :: 0 <= k < |parts| && parts[k].result == 0
  }

  /** Every finished image is reported in its turn under its own ids, bad exactly when some
      result was bad, and with the text built from its results. */
  lemma {:induction false} ReportsSay(finished: seq<Finished>)
    ensures |Reports(finished)| == |finished|
    ensures forall k :: 0 <= k < |finished| ==>
      var f, r := finished[k], Reports(finished)[k];
      && r.imageId == f.imageId && r.objectId == f.objectId
      && r.json == (if f.timedOut && f.parts == [] then "[]" else Built(f.parts))
      && (SaysNg(f.parts) ==> r.result == 0) && (f.parts == [] ==> r.result == -1)
      && (f.parts != [] && !SaysNg(f.parts) && f.parts[0].result != -1 ==> r.result == f.parts[0].result)
    decreases |finished|
  {
    hide Verdict, Built, Sent, FirstProper;
    if finished != [] {
      var n := |finished| - 1;
      ReportsSay(finished[..n]);
      var f := finished[n];
      VerdictSays(f.parts);
      SentSays(f.parts, f.timedOut);
      assert finished == finished[..n] + [f];
    }
  }

  lemma VerdictSays(parts: seq<Part>)
    ensures (SaysNg(parts) ==> Verdict(parts) == 0) && (parts == [] ==> Verdict(parts) == -1)
    ensures parts != [] && !SaysNg(parts) && parts[0].result != -1 ==> Verdict(parts) == parts[0].result
  {
  }

  lemma SentSays(parts: seq<Part>, timedOut: bool)
    ensures Sent(parts, timedOut) == if timedOut && parts == [] then "[]" else Built(parts)
  {
    if parts != [] {
      BuiltLength(parts);
    }
  }

  /** The signals are those of the images finished in inference mode, in order. */
  lemma SignalsSay(finished: seq<Finished>, f: Finished)
    ensures Signals([]) == []
    ensures !f.infer ==> Signals(finished + [f]) == Signals(finished)
    ensures f.infer ==>
      var s := Signals(finished + [f]);
      && |s| == |Signals(finished)| + 1 && s[..|s| - 1] == Signals(finished)
      && s[|s| - 1].imageId == f.imageId && s[|s| - 1].objectId == f.objectId
      && s[|s| - 1].result == ReportOf(f).result
  {
    hide Verdict, Sent;
    assert (finished + [f])[..|finished|] == finished;
  }

  /** The NG count is the number of finished images with a bad result. */
  lemma {:induction false} NgCountIs(finished: seq<Finished>)
    ensures NgCount(finished) == |set k | 0 <= k < |finished| && SaysNg(finished[k].parts)|
    decreases |finished|
  {
    hide Verdict, SaysNg;
    var ng := set k | 0 <= k < |finished| && SaysNg(finished[k].parts);
    if finished == [] {
      assert ng == {};
    } else {
      var n := |finished| - 1;
      var front := set k | 0 <= k < n && SaysNg(finished[..n][k].parts);
      NgCountIs(finished[..n]);
      VerdictNg(finished[n].parts);
      assert ng == if SaysNg(finished[n].parts) then front + {n} else front;
    }
  }

  lemma {:induction false} VerdictNg(parts: seq<Part>)
    ensures Verdict(parts) == RESULT_NG <==> SaysNg(parts)
  {
    if !SaysNg(parts) {
      FirstIsNotNg(parts);
    }
  }

  lemma {:induction false} FirstIsNotNg(parts: seq<Part>)
    requires !SaysNg(parts)
    ensures FirstProper(parts) != RESULT_NG
  {
    if parts != [] {
      assert forall k :: 0 <= k < |parts| - 1 ==> parts[1..][k] == parts[k + 1];
      FirstIsNotNg(parts[1..]);
    }
  }

  function RecordOf(p: Pending): Record {
    Record(p.objectId, p.genTime, Verdict(p.parts), Built(p.parts))
  }

  lemma OneMoreFinished(finished: seq<Finished>, f: Finished)
    ensures var all := finished + [f];
            && Reports(all) == Reports(finished) + [ReportOf(f)]
            && Signals(all)
              == Signals(finished) + (if f.infer then [Signal(f.objectId, f.imageId, Verdict(f.parts))] else [])
            && NgCount(all) == NgCount(finished) + if Verdict(f.parts) == RESULT_NG then 1 else 0
  {
    assert (finished + [f])[..|finished|] == finished;
  }

  /** The merged records stand for the model's lists of results. One image may be amiss. */
  predicate RecordsMatchBut(records: map<uint64, Record>, s: State, x: uint64) {
    records.Keys == s.pending.Keys && forall i :: i in records && i != x ==> records[i] == RecordOf(s.pending[i])
  }

  predicate RecordsMatch(records: map<uint64, Record>, s: State) {
    records.Keys == s.pending.Keys && forall i :: i in records ==> records[i] == RecordOf(s.pending[i])
  }

  /** A count is kept for exactly the images that have a result already. */
  predicate CountsMatch(counts: map<uint64, nat>, s: State) {
    counts.Keys <= s.pending.Keys
    && (forall i :: i in s.pending ==> (i in counts <==> s.pending[i].parts != []))
    && (forall i :: i in counts ==> counts[i] == |s.pending[i].parts|)
  }

  predicate OutputsMatch(reports: seq<Report>, signals: seq<Signal>, total: int, ng: int, s: State) {
    reports == Reports(s.finished) && signals == Signals(s.finished)
    && total == |s.admitted| - s.readTotal && ng == NgCount(s.finished) - s.readNg
  }

  lemma AdmitMatches(records: map<uint64, Record>, counts: map<uint64, nat>, c: Config, s: State, e: Event)
    requires e.ImageData? && e.imageId !in s.pending && RecordsMatch(records, s) && CountsMatch(counts, s)
    ensures RecordsMatch(records[e.imageId := Record(e.objectId, e.genTime, RESULT_INIT, "")], Step(c, s, e))
    ensures CountsMatch(counts, Step(c, s, e))
  {
    assert RecordOf(Pending(e.objectId, e.genTime, [])) == Record(e.objectId, e.genTime, RESULT_INIT, "");
  }

  lemma MoreMatches(records: map<uint64, Record>, counts: map<uint64, nat>, s: State, imageId: uint64,
                    parts: seq<Part>, r: Record)
    requires RecordsMatch(records, s) && CountsMatch(counts, s) && imageId in s.pending && parts != []
    requires r == RecordOf(s.pending[imageId].(parts := parts))
    ensures var t := s.(pending := s.pending[imageId := s.pending[imageId].(parts := parts)]);
            RecordsMatch(records[imageId := r], t) && CountsMatch(counts[imageId := |parts|], t)
  {
    hide Verdict, Built;
  }

  lemma FinishMatches(records: map<uint64, Record>, counts: map<uint64, nat>, s: State, imageId: uint64,
                      parts: seq<Part>, timedOut: bool, infer: bool)
    requires RecordsMatchBut(records, s, imageId) && CountsMatch(counts, s) && imageId in s.pending
    ensures var t := Finish(s, imageId, parts, timedOut, infer);
            RecordsMatch(records - {imageId}, t) && CountsMatch(counts - {imageId}, t)
  {
    hide Verdict, Built;
  }

  lemma InitialMatches()
    ensures RecordsMatch(map[], INITIAL) && CountsMatch(map[], INITIAL) && OutputsMatch([], [], 0, 0, INITIAL)
  {
  }

  lemma ResultStep(c: Config, s: State, e: Event)
    requires e.IasResult? && e.cameraId == c.cameraId && e.imageId in s.pending
    ensures var parts := s.pending[e.imageId].parts + [e.part];
            Step(c, s, e) == if |parts| >= Needed(c) then Finish(s, e.imageId, parts, false, e.infer)
                             else s.(pending := s.pending[e.imageId := s.pending[e.imageId].(parts := parts)])
  {
  }

  class CImageMultipler {
    const config: Config
    var imageResultRecord: map<uint64, Record>
    var imageIasIdRecord: map<uint64, nat>
    var detectTotalCount: int
    var detectNgCount: int
    var reports: seq<Report>
    var signals: seq<Signal>
    ghost var model: State

    ghost predicate Valid()
      reads this
    {
      Inv(config, model) && RecordsMatch(imageResultRecord, model) && CountsMatch(imageIasIdRecord, model)
      && OutputsMatch(reports, signals, detectTotalCount, detectNgCount, model)
    }

    constructor (config: Config)
      ensures Valid() && model == INITIAL && this.config == config
    {
      this.config := config;
      imageResultRecord, imageIasIdRecord, detectTotalCount, detectNgCount, reports, signals :=
        map[], map[], 0, 0, [], [];
      model := INITIAL;
      new;
      hide Inv, RecordsMatch, CountsMatch, OutputsMatch;
      InitialInv(config);
      InitialMatches();
    }

    method OnImageData(imageId: uint64, objectId: uint64, genTime: uint64)
      requires Valid()
      modifies this
      ensures Valid() && model == Step(config, old(model), ImageData(imageId, objectId, genTime))
    {
      hide Inv, RecordsMatchBut, CountsMatch;
      ghost var e := ImageData(imageId, objectId, genTime);
      StepKeeps(config, model, e);
      if imageId in imageResultRecord {
        return;
      }
      AdmitMatches(imageResultRecord, imageIasIdRecord, config, model, e);
      detectTotalCount := detectTotalCount + 1;
      imageResultRecord := imageResultRecord[imageId := Record(objectId, genTime, RESULT_INIT, "")];
      model := Step(config, model, e);
    }

    /** Reports and signals an image and forgets it. */
    method Conclude(imageId: uint64, record: Record, ghost parts: seq<Part>, timedOut: bool, infer: bool)
      requires RecordsMatchBut(imageResultRecord, model, imageId) && CountsMatch(imageIasIdRecord, model)
      requires OutputsMatch(reports, signals, detectTotalCount, detectNgCount, model)
      requires imageId in model.pending && record.objectId == model.pending[imageId].objectId
      requires record.result == Verdict(parts) && record.json == Sent(parts, timedOut)
      modifies this
      ensures model == Finish(old(model), imageId, parts, timedOut, infer)
      ensures RecordsMatch(imageResultRecord, model) && CountsMatch(imageIasIdRecord, model)
      ensures OutputsMatch(reports, signals, detectTotalCount, detectNgCount, model)
    {
      hide Verdict, Built, Sent, RecordsMatch, RecordsMatchBut, CountsMatch;
      OneMoreFinished(model.finished, Finished(imageId, model.pending[imageId].objectId, parts, timedOut, infer));
      FinishMatches(imageResultRecord, imageIasIdRecord, model, imageId, parts, timedOut, infer);
      reports := reports + [Report(imageId, record.objectId, record.result, record.json)];
      if record.result == RESULT_NG {
        detectNgCount := detectNgCount + 1;
      }
      if infer {
        signals := signals + [Signal(record.objectId, imageId, record.result)];
      }
      imageIasIdRecord := imageIasIdRecord - {imageId};
      imageResultRecord := imageResultRecord - {imageId};
      model := Finish(model, imageId, parts, timedOut, infer);
    }

    /** One more result in the record of a pending image. */
    method MergePart(was: Record, ghost p: Pending, result: int, json: string) returns (record: Record)
      requires was == RecordOf(p)
      ensures record == RecordOf(p.(parts := p.parts + [Part(result, json)]))
    {
      hide Verdict, Built;
      record := was;
      MergeFolds(p.parts, Part(result, json));
      BuiltSnoc(p.parts, Part(result, json));
      if record.json == "" {
        record := record.(json := "[" + json + "]");
      } else {
        record :=
          record.(json := record.json[..|record.json| - 1] + ("," + json + "]") + record.json[|record.json| - 1..]);
      }
      if record.result == RESULT_INIT {
        record := record.(result := result);
      } else if result == RESULT_NG {
        record := record.(result := result);
      }
    }

    method OnImageIasResult(cameraId: int, imageId: uint64, result: int, json: string, infer: bool)
      requires Valid()
      modifies this
      ensures Valid() && model == Step(config, old(model), IasResult(cameraId, imageId, Part(result, json), infer))
    {
      hide Verdict, Built, Inv, Step, Finish, OutputsMatch;
      ghost var e, s := IasResult(cameraId, imageId, Part(result, json), infer), model;
      StepKeeps(config, s, e);
      if cameraId != config.cameraId || imageId !in imageResultRecord {
        NoStep(config, s, e);
        return;
      }
      var record := imageResultRecord[imageId];
      ghost var was := s.pending[imageId].parts;
      ghost var parts := was + [Part(result, json)];
      PartsBelow(config, s, imageId);
      ResultStep(config, s, e);
      record := MergePart(record, s.pending[imageId], result, json);
      if config.iasCount <= 1 {
        Conclude(imageId, record, parts, false, infer);
        return;
      }
      if imageId !in imageIasIdRecord {
        MoreMatches(imageResultRecord, imageIasIdRecord, s, imageId, parts, record);
        imageResultRecord := imageResultRecord[imageId := record];
        imageIasIdRecord := imageIasIdRecord[imageId := 1];
        model := Step(config, s, e);
        SameOutputs(s, model, reports, signals, detectTotalCount, detectNgCount);
      } else {
        var receivedCount := imageIasIdRecord[imageId] + 1;
        if receivedCount < config.iasCount {
          MoreMatches(imageResultRecord, imageIasIdRecord, s, imageId, parts, record);
          imageResultRecord := imageResultRecord[imageId := record];
          imageIasIdRecord := imageIasIdRecord[imageId := receivedCount];
          model := Step(config, s, e);
          SameOutputs(s, model, reports, signals, detectTotalCount, detectNgCount);
        } else {
          imageResultRecord := imageResultRecord[imageId := record];
          Conclude(imageId, record, parts, false, infer);
        }
      }
    }

    method OnTimeout(now: uint64, infer: bool, order: seq<uint64>)
      requires Valid() && Enumerates(order, imageResultRecord.Keys)
      modifies this
      ensures Valid() && model == Step(config, old(model), Timeout(now, infer, order))
    {
      hide Verdict, Built, Inv, Overdue, OverdueIds, FirstIn, CountsMatch, OutputsMatch;
      OverdueArePending(config, model.pending, now);
      StepKeeps(config, model, Timeout(now, infer, order));
      var k := 0;
      while k < |order|
        invariant k <= |order| && Valid() && model == old(model) && imageResultRecord == old(imageResultRecord)
        invariant forall r :: 0 <= r < k ==> !Overdue(config, model.pending[order[r]], now)
      {
        var imageId := order[k];
        var record := imageResultRecord[imageId];
        OverdueIs(config, model.pending[imageId], now);
        if Minus(now, record.genTime) >= config.inferTimeout {
          FirstInIs(order, OverdueIds(config, model.pending, now), k);
          if record.json == "" {
            record := record.(json := "[]");
          }
          Conclude(imageId, record, model.pending[imageId].parts, true, infer);
          return;
        }
        k := k + 1;
      }
      FirstInIs(order, OverdueIds(config, model.pending, now), k);
    }

    method GetStatistic() returns (totalCount: int, ngCount: int)
      requires Valid()
      modifies this
      ensures Valid() && model == Step(config, old(model), Statistic)
      ensures totalCount == |model.admitted| - old(model.readTotal)
        && ngCount == NgCount(model.finished) - old(model.readNg)
      ensures model.readTotal == |model.admitted| && model.readNg == NgCount(model.finished)
      ensures model.admitted == old(model.admitted) && model.finished == old(model.finished)
    {
      totalCount, ngCount := detectTotalCount, detectNgCount;
      detectTotalCount, detectNgCount := 0, 0;
      model := Step(config, model, Statistic);
    }
  }

  lemma NoStep(c: Config, s: State, e: Event)
    requires e.IasResult? && (e.cameraId != c.cameraId || e.imageId !in s.pending)
    ensures Step(c, s, e) == s
  {
  }

  lemma SameOutputs(s: State, t: State, reports: seq<Report>, signals: seq<Signal>, total: int, ng: int)
    requires t.finished == s.finished && t.admitted == s.admitted && t.readTotal == s.readTotal && t.readNg == s.readNg
    ensures OutputsMatch(reports, signals, total, ng, s) == OutputsMatch(reports, signals, total, ng, t)
  {
  }

  lemma PartsBelow(c: Config, s: State, i: uint64)
    requires Inv(c, s) && i in s.pending
    ensures |s.pending[i].parts| < Needed(c)
  {
  }

  lemma OverdueIs(c: Config, p: Pending, now: uint64)
    ensures Overdue(c, p, now) <==> Minus(now, p.genTime) >= c.inferTimeout
  {
  }
}
