/** Grouping of images by object, so that one inference serves a whole object, and the
    inference agent that turns a group into one result per image. */
module ImageGroup {
  import opened Basics

  const RESULT_NG := 0
  const RESULT_OK := 1
  const RESULT_TIMEOUT := 2

  datatype RunType = Infer | Spot

  /** `picture` stands for the pixels. */
  datatype Image = Image(objectId: uint64, cameraId: int, imageId: uint64, picture: nat)

  datatype Group = Group(
    objectId: uint64, cameraIds: seq<int>, imageIds: seq<uint64>, pictures: seq<nat>, genTime: int) {
    predicate Aligned() {
      |cameraIds| == |imageIds| == |pictures|
    }

    /** The images of a group whose three vectors are aligned. */
    function Images(): (r: seq<Image>)
      requires Aligned()
      ensures |r| == |imageIds|
    {
      seq(|imageIds|, i requires 0 <= i < |imageIds| => Image(objectId, cameraIds[i], imageIds[i], pictures[i]))
    }

    function With(image: Image): Group {
      this.(cameraIds := cameraIds + [image.cameraId],
            imageIds := imageIds + [image.imageId],
            pictures := pictures + [image.picture])
    }
  }

  lemma WithAppends(g: Group, image: Image)
    requires g.Aligned() && image.objectId == g.objectId
    ensures g.With(image).Aligned() && g.With(image).Images() == g.Images() + [image]
  {
  }

  datatype State = State(groups: map<uint64, Group>, emitted: seq<Group>, received: seq<Image>)

  /** `cameras` is the number of the group's cameras online, `order` the hash's iteration. */
  datatype Event =
    | ImageData(image: Image, cameras: int, runType: RunType, now: int)
    | Timeout(now: int, maxInterval: int, order: seq<uint64>)

  predicate Enabled(s: State, e: Event) {
    e.Timeout? ==> Enumerates(e.order, s.groups.Keys)
  }

  const INITIAL := State(map[], [], [])

  function OnImage(batch: bool, s: State, e: Event): State
    requires e.ImageData?
  {
    var o := e.image.objectId;
    var t := s.(received := s.received + [e.image]);
    if o in s.groups then
      var g := s.groups[o].With(e.image);
      if e.runType.Infer? && |g.imageIds| >= e.cameras then t.(groups := s.groups - {o}, emitted := s.emitted + [g])
      else t.(groups := s.groups[o := g])
    else
      var g := Group(o, [e.image.cameraId], [e.image.imageId], [e.image.picture], e.now);
      if !batch || e.cameras <= 1 || e.runType.Spot? then t.(emitted := s.emitted + [g])
      else t.(groups := s.groups[o := g])
  }

  predicate Overdue(g: Group, now: int, maxInterval: int) {
    now - g.genTime >= maxInterval
  }

  /** The scan emits and erases every overdue group it meets. */
  function Scan(s: State, now: int, maxInterval: int, order: seq<uint64>): State
    decreases |order|
  {
    if order == [] then s
    else
      var o := order[0];
      var t := if o in s.groups && Overdue(s.groups[o], now, maxInterval)
               then s.(groups := s.groups - {o}, emitted := s.emitted + [s.groups[o]]) else s;
      Scan(t, now, maxInterval, order[1..])
  }

  function Step(batch: bool, s: State, e: Event): State
    requires Enabled(s, e)
  {
    match e
    case ImageData(_, _, _, _) => OnImage(batch, s, e)
    case Timeout(now, maxInterval, order) => Scan(s, now, maxInterval, order)
  }

  ghost predicate Run(batch: bool, events: seq<Event>, s: State)
    decreases |events|
  {
    if events == [] then s == INITIAL
    else
      var n := |events| - 1;
      exists t :: Run(batch, events[..n], t) && Enabled(t, events[n]) && s == Step(batch, t, events[n])
  }

  // ------------------------------------------------------------------ conservation

  function ReceivedOf(images: seq<Image>, o: uint64): seq<Image> {
    if images == [] then []
    else
      var last := images[|images| - 1];
      ReceivedOf(images[..|images| - 1], o) + if last.objectId == o then [last] else []
  }

  function EmittedOf(groups: seq<Group>, o: uint64): seq<Image>
    requires forall k :: 0 <= k < |groups| ==> groups[k].Aligned()
  {
    if groups == [] then []
    else
      var last := groups[|groups| - 1];
      EmittedOf(groups[..|groups| - 1], o) + if last.objectId == o then last.Images() else []
  }

  predicate WellFormed(s: State) {
    (forall o :: o in s.groups ==> s.groups[o].Aligned() && s.groups[o].objectId == o && s.groups[o].imageIds != [])
    && forall k :: 0 <= k < |s.emitted| ==> s.emitted[k].Aligned() && s.emitted[k].imageIds != []
  }

  function PendingOf(s: State, o: uint64): seq<Image>
    requires WellFormed(s)
  {
    if o in s.groups then s.groups[o].Images() else []
  }

  /** Per object, in order of arrival: the images received are those of the emitted groups
      followed by those still pending. */
  predicate Conserved(s: State, o: uint64)
    requires WellFormed(s)
  {
    ReceivedOf(s.received, o) == EmittedOf(s.emitted, o) + PendingOf(s, o)
  }

  ghost predicate Inv(s: State) {
    WellFormed(s) && forall o :: Conserved(s, o)
  }

  lemma EmittedOneMore(groups: seq<Group>, g: Group, o: uint64)
    requires forall k :: 0 <= k < |groups| ==> groups[k].Aligned()
    requires g.Aligned()
    ensures EmittedOf(groups + [g], o) == EmittedOf(groups, o) + if g.objectId == o then g.Images() else []
  {
    assert (groups + [g])[..|groups|] == groups;
  }

  lemma ReceivedOneMore(images: seq<Image>, i: Image, o: uint64)
    ensures ReceivedOf(images + [i], o) == ReceivedOf(images, o) + if i.objectId == o then [i] else []
  {
    assert (images + [i])[..|images|] == images;
  }

  /** The group that an arriving image ends up in. */
  function GroupWith(s: State, i: Image, now: int): Group {
    if i.objectId in s.groups then s.groups[i.objectId].With(i)
    else Group(i.objectId, [i.cameraId], [i.imageId], [i.picture], now)
  }

  lemma GroupWithImages(s: State, i: Image, now: int)
    requires WellFormed(s)
    ensures var g := GroupWith(s, i, now);
            g.Aligned() && g.objectId == i.objectId && g.imageIds != [] && g.Images() == PendingOf(s, i.objectId) + [i]
  {
    if i.objectId in s.groups {
      WithAppends(s.groups[i.objectId], i);
    }
  }

  /** The image is received and its group kept, or emitted. */
  lemma ReceivedKeeps(s: State, i: Image, g: Group, t: State, emit: bool)
    requires Inv(s) && g.Aligned() && g.objectId == i.objectId && g.imageIds != []
      && g.Images() == PendingOf(s, i.objectId) + [i]
    requires t.received == s.received + [i]
    requires emit ==> t.groups == s.groups - {i.objectId} && t.emitted == s.emitted + [g]
    requires !emit ==> t.groups == s.groups[i.objectId := g] && t.emitted == s.emitted
    ensures Inv(t)
  {
    hide ReceivedOf, EmittedOf;
    assert WellFormed(t);
    forall x
      ensures Conserved(t, x)
    {
      ReceivedOneMore(s.received, i, x);
      EmittedOneMore(s.emitted, g, x);
      assert Conserved(s, x);
      if x == i.objectId {
        assert EmittedOf(s.emitted, x) + g.Images() == EmittedOf(s.emitted, x) + PendingOf(s, x) + [i];
      }
    }
  }

  lemma OnImageKeeps(batch: bool, s: State, e: Event)
    requires Inv(s) && e.ImageData?
    ensures Inv(OnImage(batch, s, e))
  {
    var t, i := OnImage(batch, s, e), e.image;
    var g := GroupWith(s, i, e.now);
    GroupWithImages(s, i, e.now);
    var emit := if i.objectId in s.groups then e.runType.Infer? && |g.imageIds| >= e.cameras
                else !batch || e.cameras <= 1 || e.runType.Spot?;
    hide Inv;
    if emit && i.objectId !in s.groups {
      assert s.groups - {i.objectId} == s.groups;
    }
    ReceivedKeeps(s, i, g, t, emit);
  }

  lemma EmitKeeps(s: State, o: uint64)
    requires Inv(s) && o in s.groups
    ensures Inv(s.(groups := s.groups - {o}, emitted := s.emitted + [s.groups[o]]))
  {
    var g := s.groups[o];
    var t := s.(groups := s.groups - {o}, emitted := s.emitted + [g]);
    forall x
      ensures Conserved(t, x)
    {
      hide ReceivedOf, EmittedOf;
      EmittedOneMore(s.emitted, g, x);
      assert Conserved(s, x);
      if x == o {
        assert EmittedOf(s.emitted, x) + g.Images() + [] == EmittedOf(t.emitted, x) + PendingOf(t, x);
      }
    }
  }

  lemma {:induction false} ScanKeeps(s: State, now: int, maxInterval: int, order: seq<uint64>)
    requires Inv(s)
    ensures Inv(Scan(s, now, maxInterval, order))
    decreases |order|
  {
    hide Inv;
    if order != [] {
      var o := order[0];
      if o in s.groups && Overdue(s.groups[o], now, maxInterval) {
        EmitKeeps(s, o);
        ScanKeeps(s.(groups := s.groups - {o}, emitted := s.emitted + [s.groups[o]]), now, maxInterval, order[1..]);
      } else {
        ScanKeeps(s, now, maxInterval, order[1..]);
      }
    }
  }

  /** After a scan exactly the groups that were not overdue are left, as they were. */
  lemma {:induction false} ScanLeaves(s: State, now: int, maxInterval: int, order: seq<uint64>)
    ensures var t := Scan(s, now, maxInterval, order);
            forall o :: (o in t.groups <==> o in s.groups && !(o in order && Overdue(s.groups[o], now, maxInterval)))
                        && (o in t.groups ==> t.groups[o] == s.groups[o])
    decreases |order|
  {
    hide Overdue;
    if order != [] {
      var o := order[0];
      var t := if o in s.groups && Overdue(s.groups[o], now, maxInterval)
               then s.(groups := s.groups - {o}, emitted := s.emitted + [s.groups[o]]) else s;
      ScanLeaves(t, now, maxInterval, order[1..]);
      assert forall x :: x in order <==> x == o || x in order[1..];
    }
  }

  lemma NoOverdueSurvives(batch: bool, s: State, e: Event)
    requires e.Timeout? && Enabled(s, e)
    ensures forall o ::
      o in Step(batch, s, e).groups <==> o in s.groups && e.now < s.groups[o].genTime + e.maxInterval
  {
    ScanLeaves(s, e.now, e.maxInterval, e.order);
  }

  lemma {:induction false} RunConserves(batch: bool, events: seq<Event>, s: State)
    requires Run(batch, events, s)
    ensures Inv(s)
    decreases |events|
  {
    hide Inv, OnImage, Scan;
    if events == [] {
      InitialInv();
    } else {
      var n := |events| - 1;
      var t :| Run(batch, events[..n], t) && Enabled(t, events[n]) && s == Step(batch, t, events[n]);
      RunConserves(batch, events[..n], t);
      match events[n]
      case ImageData(_, _, _, _) => OnImageKeeps(batch, t, events[n]);
      case Timeout(now, maxInterval, order) => ScanKeeps(t, now, maxInterval, order);
    }
  }

  lemma InitialInv()
    ensures Inv(INITIAL)
  {
  }

  /** What an arriving image does. A group that waits is emitted with it in inference mode when
      it then has as many images as there are cameras; a first image is emitted at once without
      batching, with a single camera or on spot checks. Otherwise the group waits, from the time
      of its first image on. */
  lemma ArrivalInFull(batch: bool, s: State, e: Event)
    requires WellFormed(s) && e.ImageData?
    ensures var o, t := e.image.objectId, OnImage(batch, s, e);
      var was := if o in s.groups then s.groups[o].Images() else [];
      var emits := if o in s.groups then e.runType == Infer && |was| + 1 >= e.cameras
                   else !batch || e.cameras <= 1 || e.runType == Spot;
      && t.received == s.received + [e.image] && t.groups - {o} == s.groups - {o}
      && if emits then
           exists g: Group :: g.Aligned() && g.objectId == o && g.Images() == was + [e.image]
             && t.emitted == s.emitted + [g] && o !in t.groups
         else
           t.emitted == s.emitted && o in t.groups && t.groups[o].Aligned() && t.groups[o].objectId == o
           && t.groups[o].Images() == was + [e.image]
           && t.groups[o].genTime == if o in s.groups then s.groups[o].genTime else e.now
  {
    var o, t := e.image.objectId, OnImage(batch, s, e);
    if o in s.groups {
      WithAppends(s.groups[o], e.image);
      var g := s.groups[o].With(e.image);
      assert |t.emitted| == |s.emitted| || t.emitted == s.emitted + [g];
    } else {
      var g := Group(o, [e.image.cameraId], [e.image.imageId], [e.image.picture], e.now);
      assert g.Images() == [] + [e.image];
      assert |t.emitted| == |s.emitted| || t.emitted == s.emitted + [g];
    }
  }

  /** In inference mode with a fixed number of cameras, a complete group does not wait. */
  lemma {:induction false} PendingIncomplete(batch: bool, events: seq<Event>, s: State, n: int)
    requires Run(batch, events, s) && n >= 2
    requires forall k :: 0 <= k < |events| && events[k].ImageData? ==>
      events[k].runType.Infer? && events[k].cameras == n
    ensures forall o :: o in s.groups ==> |s.groups[o].imageIds| < n
    decreases |events|
  {
    if events != [] {
      var m := |events| - 1;
      var t :| Run(batch, events[..m], t) && Enabled(t, events[m]) && s == Step(batch, t, events[m]);
      PendingIncomplete(batch, events[..m], t, n);
      if events[m].Timeout? {
        ScanLeaves(t, events[m].now, events[m].maxInterval, events[m].order);
      }
    }
  }

  // -------------------------------------------------------------------- inference

  datatype IasResult = IasResult(objectId: uint64, cameraId: int, imageId: uint64, result: int, json: string)
  datatype AiResult = AiResult(good: bool, json: string)

  /** Without a loaded model every image gets a time-out, otherwise its own result. */
  function ResultAt(g: Group, initOk: bool, results: seq<AiResult>, i: nat): IasResult
    requires g.Aligned() && i < |g.imageIds| && (initOk ==> |results| >= |g.imageIds|)
  {
    if !initOk then IasResult(g.objectId, g.cameraIds[i], g.imageIds[i], RESULT_TIMEOUT, "")
    else
      var result := if results[i].good then RESULT_OK else RESULT_NG;
      IasResult(g.objectId, g.cameraIds[i], g.imageIds[i], result, results[i].json)
  }

  /** The answer of the model is what the result says, with the image's own ids. */
  lemma ResultSays(g: Group, initOk: bool, results: seq<AiResult>, i: nat)
    requires g.Aligned() && i < |g.imageIds| && (initOk ==> |results| >= |g.imageIds|)
    ensures var r := ResultAt(g, initOk, results, i);
      && r.objectId == g.objectId && r.cameraId == g.cameraIds[i] && r.imageId == g.imageIds[i]
      && (r.result == RESULT_OK <==> initOk && results[i].good)
      && (r.result == RESULT_NG <==> initOk && !results[i].good)
      && (r.result == RESULT_TIMEOUT <==> !initOk) && r.json == if initOk then results[i].json else ""
  {
  }

  /** One result per image, in the order of the group. `results` is what the model returns,
      at least one entry per image. */
  method OnImageGroup(g: Group, initOk: bool, results: seq<AiResult>) returns (signals: seq<IasResult>)
    requires g.Aligned() && (initOk ==> |results| >= |g.imageIds|)
    ensures |signals| == |g.imageIds|
    ensures forall i :: 0 <= i < |signals| ==>
      signals[i].objectId == g.objectId && signals[i].cameraId == g.cameraIds[i] && signals[i].imageId == g.imageIds[i]
    ensures initOk ==> forall i :: 0 <= i < |signals| ==>
      (signals[i].result == RESULT_OK <==> results[i].good) && (signals[i].result == RESULT_NG <==> !results[i].good)
      && signals[i].json == results[i].json
    ensures !initOk ==> forall i :: 0 <= i < |signals| ==> signals[i].result == RESULT_TIMEOUT && signals[i].json == ""
    ensures forall i :: 0 <= i < |signals| ==> signals[i] == ResultAt(g, initOk, results, i)
  {
    signals := [];
    if !initOk {
      for i := 0 to |g.cameraIds|
        invariant |signals| == i && forall r :: 0 <= r < i ==> signals[r] == ResultAt(g, initOk, results, r)
      {
        signals := signals + [IasResult(g.objectId, g.cameraIds[i], g.imageIds[i], RESULT_TIMEOUT, "")];
      }
      return;
    }
    for i := 0 to |g.cameraIds|
      invariant |signals| == i && forall r :: 0 <= r < i ==> signals[r] == ResultAt(g, initOk, results, r)
    {
      var result := RESULT_NG;
      if results[i].good {
        result := RESULT_OK;
      }
      signals := signals + [IasResult(g.objectId, g.cameraIds[i], g.imageIds[i], result, results[i].json)];
    }
  }

  // --------------------------------------------------------------------- the object

  class ImageGrouper {
    const batch: bool
    var groupHash: map<uint64, Group>
    var groupSignal: seq<Group>
    ghost var received: seq<Image>

    ghost function Model(): State
      reads this
    {
      State(groupHash, groupSignal, received)
    }

    constructor (batch: bool)
      ensures Model() == INITIAL && this.batch == batch
    {
      this.batch := batch;
      groupHash, groupSignal, received := map[], [], [];
    }

    method OnImageData(image: Image, cameras: int, runType: RunType, now: int)
      modifies this
      ensures Model() == OnImage(batch, old(Model()), ImageData(image, cameras, runType, now))
    {
      received := received + [image];
      if image.objectId in groupHash {
        var g := groupHash[image.objectId];
        g := g.(cameraIds := g.cameraIds + [image.cameraId]);
        g := g.(imageIds := g.imageIds + [image.imageId]);
        g := g.(pictures := g.pictures + [image.picture]);
        groupHash := groupHash[image.objectId := g];
        if runType.Infer? && |g.imageIds| >= cameras {
          groupSignal := groupSignal + [g];
          groupHash := groupHash - {image.objectId};
          assert groupHash == old(groupHash) - {image.objectId};
        }
        return;
      }
      var g := Group(image.objectId, [image.cameraId], [image.imageId], [image.picture], now);
      if !batch || cameras <= 1 || runType.Spot? {
        groupSignal := groupSignal + [g];
      } else {
        groupHash := groupHash[image.objectId := g];
      }
    }

    method OnTimeout(now: int, maxInterval: int, order: seq<uint64>)
      requires Enumerates(order, groupHash.Keys)
      modifies this
      ensures Model() == Scan(old(Model()), now, maxInterval, order)
    {
      var k := 0;
      while k < |order|
        invariant k <= |order| && (forall r :: k <= r < |order| ==> order[r] in groupHash)
        invariant Scan(Model(), now, maxInterval, order[k..]) == Scan(old(Model()), now, maxInterval, order)
      {
        var o := order[k];
        assert order[k..][0] == o && order[k..][1..] == order[k + 1..];
        if now - groupHash[o].genTime >= maxInterval {
          groupSignal := groupSignal + [groupHash[o]];
          groupHash := groupHash - {o};
        }
        k := k + 1;
      }
    }
  }
}
