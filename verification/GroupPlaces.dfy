/** Where a received image is: in exactly one group, waiting or emitted. */
module GroupPlaces {
  import opened Basics
  import opened ImageGroup

  /** The object and the camera of an image. */
  datatype Owner = Owner(objectId: uint64, cameraId: int)

  function IdSet(g: Group): set<uint64> {
    set x | x in g.imageIds
  }

  function Ids(groups: seq<Group>): set<uint64> {
    if groups == [] then {} else Ids(groups[..|groups| - 1]) + IdSet(groups[|groups| - 1])
  }

  /** The images of a group are its own, and different. */
  predicate GroupOk(g: Group, owners: map<uint64, Owner>) {
    g.Aligned() && Distinct(g.imageIds)
    && forall i :: 0 <= i < |g.imageIds| ==>
         g.imageIds[i] in owners && owners[g.imageIds[i]] == Owner(g.objectId, g.cameraIds[i])
  }

  predicate Waiting(groups: map<uint64, Group>, owners: map<uint64, Owner>, x: uint64)
    requires x in owners
  {
    var o := owners[x].objectId;
    o in groups && x in groups[o].imageIds
  }

  predicate GroupsOk(groups: map<uint64, Group>, owners: map<uint64, Owner>) {
    forall o :: o in groups ==> groups[o].objectId == o && GroupOk(groups[o], owners)
  }

  predicate EmittedOk(emitted: seq<Group>, owners: map<uint64, Owner>) {
    forall k :: 0 <= k < |emitted| ==> GroupOk(emitted[k], owners) && IdSet(emitted[k]) !! Ids(emitted[..k])
  }

  predicate Places(s: State, owners: map<uint64, Owner>) {
    GroupsOk(s.groups, owners) && EmittedOk(s.emitted, owners)
    && forall x :: x in owners ==> (x in Ids(s.emitted) <==> !Waiting(s.groups, owners, x))
  }

  lemma {:induction false} IdsOwned(emitted: seq<Group>, owners: map<uint64, Owner>)
    requires forall k :: 0 <= k < |emitted| ==> GroupOk(emitted[k], owners)
    ensures Ids(emitted) <= owners.Keys
  {
    if emitted != [] {
      IdsOwned(emitted[..|emitted| - 1], owners);
    }
  }

  lemma IdsOneMore(emitted: seq<Group>, g: Group)
    ensures Ids(emitted + [g]) == Ids(emitted) + IdSet(g)
  {
    assert (emitted + [g])[..|emitted|] == emitted;
  }

  lemma GroupOkGrows(g: Group, owners: map<uint64, Owner>, x: uint64, w: Owner)
    requires GroupOk(g, owners) && x !in owners
    ensures GroupOk(g, owners[x := w])
  {
  }

  lemma WithOk(g: Group, owners: map<uint64, Owner>, image: Image)
    requires GroupOk(g, owners) && image.imageId !in owners && image.objectId == g.objectId
    ensures GroupOk(g.With(image), owners[image.imageId := Owner(image.objectId, image.cameraId)])
  {
  }

  /** A new image in the waiting group of its object. */
  lemma AddPlaces(s: State, owners: map<uint64, Owner>, image: Image, now: int)
    requires Places(s, owners) && image.imageId !in owners
    ensures Places(s.(groups := s.groups[image.objectId := GroupWith(s, image, now)]),
                   owners[image.imageId := Owner(image.objectId, image.cameraId)])
  {
    var o, x := image.objectId, image.imageId;
    var w, g := Owner(o, image.cameraId), GroupWith(s, image, now);
    var owners', groups' := owners[x := w], s.groups[o := g];
    if o in s.groups {
      WithOk(s.groups[o], owners, image);
    }
    forall p | p in groups'
      ensures groups'[p].objectId == p && GroupOk(groups'[p], owners')
    {
      if p != o {
        GroupOkGrows(s.groups[p], owners, x, w);
      }
    }
    forall k | 0 <= k < |s.emitted|
      ensures GroupOk(s.emitted[k], owners')
    {
      GroupOkGrows(s.emitted[k], owners, x, w);
    }
    IdsOwned(s.emitted, owners);
    forall y | y in owners'
      ensures y in Ids(s.emitted) <==> !Waiting(groups', owners', y)
    {
      hide Ids;
      if y == x {
        assert x in g.imageIds;
      } else {
        assert y in g.imageIds <==> o in s.groups && y in s.groups[o].imageIds;
      }
    }
  }

  /** A waiting group is emitted. */
  lemma EmitPlaces(s: State, owners: map<uint64, Owner>, o: uint64)
    requires Places(s, owners) && o in s.groups
    ensures Places(s.(groups := s.groups - {o}, emitted := s.emitted + [s.groups[o]]), owners)
  {
    hide GroupOk, EmittedOk, Ids, IdSet, Waiting;
    WaitingOwned(s, owners, o);
    EmittedOneMore(s.emitted, owners, s.groups[o]);
    EmittedWaits(s, owners, o);
  }

  /** The images of a waiting group are its object's, and not in an emitted one. */
  lemma WaitingOwned(s: State, owners: map<uint64, Owner>, o: uint64)
    requires Places(s, owners) && o in s.groups
    ensures forall x :: x in s.groups[o].imageIds ==> x in owners && owners[x].objectId == o
    ensures IdSet(s.groups[o]) !! Ids(s.emitted)
  {
    hide EmittedOk, Ids;
    assert GroupOk(s.groups[o], owners);
    forall x | x in s.groups[o].imageIds
      ensures x in owners && owners[x].objectId == o && x !in Ids(s.emitted)
    {
      assert Waiting(s.groups, owners, x);
    }
  }

  lemma EmittedOneMore(emitted: seq<Group>, owners: map<uint64, Owner>, g: Group)
    requires EmittedOk(emitted, owners) && GroupOk(g, owners) && IdSet(g) !! Ids(emitted)
    ensures EmittedOk(emitted + [g], owners)
  {
    hide GroupOk, IdSet, Ids;
    var more := emitted + [g];
    forall k | 0 <= k < |more|
      ensures GroupOk(more[k], owners) && IdSet(more[k]) !! Ids(more[..k])
    {
      assert more[..k] == emitted[..k];
      assert emitted[..|emitted|] == emitted;
    }
  }

  lemma EmittedWaits(s: State, owners: map<uint64, Owner>, o: uint64)
    requires Places(s, owners) && o in s.groups
    requires forall x :: x in s.groups[o].imageIds ==> x in owners && owners[x].objectId == o
    ensures forall y :: y in owners ==>
      (y in Ids(s.emitted + [s.groups[o]]) <==> !Waiting(s.groups - {o}, owners, y))
  {
    hide Ids, GroupsOk, EmittedOk;
    var g := s.groups[o];
    IdsOneMore(s.emitted, g);
    forall y | y in owners
      ensures y in Ids(s.emitted + [g]) <==> !Waiting(s.groups - {o}, owners, y)
    {
      assert y in Ids(s.emitted) <==> !Waiting(s.groups, owners, y);
      assert y in IdSet(g) <==> y in g.imageIds;
    }
  }

  lemma OnImagePlaces(batch: bool, s: State, e: Event, owners: map<uint64, Owner>)
    requires Places(s, owners) && e.ImageData? && e.image.imageId !in owners
    ensures Places(OnImage(batch, s, e), owners[e.image.imageId := Owner(e.image.objectId, e.image.cameraId)])
  {
    hide Places;
    var o, g := e.image.objectId, GroupWith(s, e.image, e.now);
    var owners' := owners[e.image.imageId := Owner(o, e.image.cameraId)];
    AddPlaces(s, owners, e.image, e.now);
    var t := s.(groups := s.groups[o := g]);
    EmitPlaces(t, owners', o);
    var r := OnImage(batch, s, e);
    assert t.groups - {o} == s.groups - {o};
    if o !in s.groups {
      assert s.groups - {o} == s.groups;
    }
    assert (r.groups, r.emitted) == (t.groups, t.emitted) || (r.groups, r.emitted) == (t.groups - {o}, t.emitted + [g]);
    PlacesDependOn(t, owners');
    PlacesDependOn(t.(groups := t.groups - {o}, emitted := t.emitted + [g]), owners');
  }

  /** The images received do not matter. */
  lemma PlacesDependOn(s: State, owners: map<uint64, Owner>)
    ensures forall t: State :: t.groups == s.groups && t.emitted == s.emitted ==> Places(t, owners) == Places(s, owners)
  {
  }

  lemma {:induction false} ScanPlaces(s: State, now: int, maxInterval: int, order: seq<uint64>,
                                      owners: map<uint64, Owner>)
    requires Places(s, owners)
    ensures Places(Scan(s, now, maxInterval, order), owners) && s.emitted <= Scan(s, now, maxInterval, order).emitted
    decreases |order|
  {
    hide Places, Overdue;
    if order != [] {
      var o := order[0];
      if o in s.groups && Overdue(s.groups[o], now, maxInterval) {
        EmitPlaces(s, owners, o);
        ScanPlaces(s.(groups := s.groups - {o}, emitted := s.emitted + [s.groups[o]]), now, maxInterval, order[1..],
          owners);
      } else {
        ScanPlaces(s, now, maxInterval, order[1..], owners);
      }
    }
  }
}
