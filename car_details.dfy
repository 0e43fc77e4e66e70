/** The car detail screen: the image gallery, the status badge, the actions
    offered, and what the action handlers do. */
module CarDetails {
  import opened Js
  import opened CarTypes

  /** `self.findIndex((t) => t.id === id)`: the first position holding an
      image with that id, or -1. */
  function FindIndex(s: seq<CarImage>, id: string): (r: int)
    ensures -1 <= r < |s|
    ensures r == -1 <==> forall j :: 0 <= j < |s| ==> s[j].id != id
    ensures r >= 0 ==> s[r].id == id && forall j :: 0 <= j < r ==> s[j].id != id
  {
    if s == [] then -1
    else if s[0].id == id then 0
    else
      var k := FindIndex(s[1..], id);
      if k < 0 then -1 else k + 1
  }

  /** The primary image, if there is one, then the gallery images. */
  function Candidates(car: Car): seq<CarImage>
  {
    (if car.primaryImage.Some? then [car.primaryImage.value] else [])
    + (if car.images.Some? then car.images.value else [])
  }

  /** `self.filter((img, index, self) => index === self.findIndex(...))`
      over positions `i..`: keeps the positions that are the first
      occurrence of their id. */
  function KeepFirstFrom(self: seq<CarImage>, i: nat): seq<CarImage>
    decreases |self| - i
  {
    if i >= |self| then []
    else (if FindIndex(self, self[i].id) == i then [self[i]] else []) + KeepFirstFrom(self, i + 1)
  }

  /** `allImages`. */
  function AllImages(car: Car): seq<CarImage>
  {
    KeepFirstFrom(Candidates(car), 0)
  }

  ghost function Ids(s: seq<CarImage>): set<string>
  {
    set x | x in s :: x.id
  }

  /** An image's id is first seen no later than the image itself. */
  lemma FindIndexAtMost(self: seq<CarImage>, j: int)
    requires 0 <= j < |self|
    ensures 0 <= FindIndex(self, self[j].id) <= j
  {
  }

  /** Each entry of `r` is the first occurrence in `self` of its id, found
      at a position from `i` on. */
  ghost predicate FirstOccurrencesFrom(self: seq<CarImage>, r: seq<CarImage>, i: nat)
  {
    forall p :: 0 <= p < |r| ==>
      i <= FindIndex(self, r[p].id) && self[FindIndex(self, r[p].id)] == r[p]
  }

  /** The entries of `r` come in the order of their first occurrences in
      `self`. */
  ghost predicate InFirstOccurrenceOrder(self: seq<CarImage>, r: seq<CarImage>)
  {
    forall p, q :: 0 <= p < q < |r| ==> FindIndex(self, r[p].id) < FindIndex(self, r[q].id)
  }

  /** Each entry `KeepFirstFrom(self, i)` keeps is the first occurrence of
      its id, found at a position from `i` on. */
  lemma {:induction false} KeptAreFirst(self: seq<CarImage>, i: nat)
    requires i <= |self|
    ensures FirstOccurrencesFrom(self, KeepFirstFrom(self, i), i)
    decreases |self| - i
  {
    if i < |self| {
      KeptAreFirst(self, i + 1);
      var rest := KeepFirstFrom(self, i + 1);
      var r := KeepFirstFrom(self, i);
      if FindIndex(self, self[i].id) == i {
        assert r == [self[i]] + rest;
        assert forall p :: 0 < p < |r| ==> r[p] == rest[p - 1];
      } else {
        assert r == rest;
      }
    }
  }

  /** The kept entries come in the order of their first occurrences. */
  lemma {:induction false} KeptInOrder(self: seq<CarImage>, i: nat)
    requires i <= |self|
    ensures InFirstOccurrenceOrder(self, KeepFirstFrom(self, i))
    decreases |self| - i
  {
    if i < |self| {
      KeptInOrder(self, i + 1);
      KeptAreFirst(self, i + 1);
      var rest := KeepFirstFrom(self, i + 1);
      var r := KeepFirstFrom(self, i);
      if FindIndex(self, self[i].id) == i {
        assert r == [self[i]] + rest;
        assert forall p :: 0 < p < |r| ==> r[p] == rest[p - 1];
        assert forall q :: 0 < q < |r| ==> i < FindIndex(self, r[q].id);
      } else {
        assert r == rest;
      }
    }
  }

  /** Every id first seen at or after position `i` is kept. */
  lemma {:induction false} KeptCoversIds(self: seq<CarImage>, i: nat)
    requires i <= |self|
    ensures var r := KeepFirstFrom(self, i);
      forall j :: i <= j < |self| && i <= FindIndex(self, self[j].id) ==> self[j].id in Ids(r)
    decreases |self| - i
  {
    if i < |self| {
      KeptCoversIds(self, i + 1);
      var rest := KeepFirstFrom(self, i + 1);
      var r := KeepFirstFrom(self, i);
      assert Ids(rest) <= Ids(r) by {
        assert forall x :: x in rest ==> x in r;
      }
      forall j | i <= j < |self| && i <= FindIndex(self, self[j].id)
        ensures self[j].id in Ids(r)
      {
        FindIndexAtMost(self, j);
        if FindIndex(self, self[j].id) == i {
          assert FindIndex(self, self[i].id) == i;
          assert self[i] in r;
        }
      }
    }
  }

  /** No two gallery entries share an id. */
  lemma AllImagesDistinctIds(car: Car)
    ensures var r := AllImages(car);
      forall p, q :: 0 <= p < q < |r| ==> r[p].id != r[q].id
  {
    KeptInOrder(Candidates(car), 0);
  }

  /** The entry kept for each id is the first image with that id, and the
      kept entries follow the order in which their ids first appear. */
  lemma AllImagesFirstOccurrences(car: Car)
    ensures var s := Candidates(car);
      var r := AllImages(car);
      && (forall p :: 0 <= p < |r| ==> 0 <= FindIndex(s, r[p].id) && s[FindIndex(s, r[p].id)] == r[p])
      && (forall p, q :: 0 <= p < q < |r| ==> FindIndex(s, r[p].id) < FindIndex(s, r[q].id))
  {
    KeptAreFirst(Candidates(car), 0);
    KeptInOrder(Candidates(car), 0);
  }

  /** Every id of the primary image and of the gallery is shown. */
  lemma AllImagesCoversIds(car: Car)
    ensures car.primaryImage.Some? ==> car.primaryImage.value.id in Ids(AllImages(car))
    ensures car.images.Some? ==>
      forall j :: 0 <= j < |car.images.value| ==> car.images.value[j].id in Ids(AllImages(car))
  {
    var s := Candidates(car);
    KeptCoversIds(s, 0);
    if car.images.Some? {
      var off := if car.primaryImage.Some? then 1 else 0;
      forall j | 0 <= j < |car.images.value|
        ensures car.images.value[j].id in Ids(AllImages(car))
      {
        assert s[off + j] == car.images.value[j];
        FindIndexAtMost(s, off + j);
      }
    }
    if car.primaryImage.Some? {
      assert s[0] == car.primaryImage.value;
      FindIndexAtMost(s, 0);
    }
  }

  /** A primary image is always shown first. */
  lemma PrimaryImageFirst(car: Car)
    requires car.primaryImage.Some?
    ensures |AllImages(car)| > 0 && AllImages(car)[0] == car.primaryImage.value
  {
    var s := Candidates(car);
    assert s[0] == car.primaryImage.value;
    assert FindIndex(s, s[0].id) == 0;
  }

  /** Without a primary image, an image listed twice is shown once. */
  lemma DuplicateImageShownOnce(a: CarImage, b: CarImage, car: Car)
    requires a.id == b.id
    requires car.primaryImage.None? && car.images == Some([a, b])
    ensures AllImages(car) == [a]
  {
    var s := Candidates(car);
    assert s == [a, b];
    assert FindIndex(s, a.id) == 0 && FindIndex(s, b.id) == 0;
    assert KeepFirstFrom(s, 2) == [];
    assert KeepFirstFrom(s, 1) == [];
  }

  /** The badge text: `status.charAt(0).toUpperCase() + status.slice(1)`. */
  function StatusLabel(status: string): (r: string)
    ensures |r| == |status|
    ensures status != [] ==> r[0] == UpperChar(status[0])
    ensures forall i :: 1 <= i < |status| ==> r[i] == status[i]
  {
    if status == [] then [] else ToUpper([status[0]]) + status[1..]
  }

  /** Capitalising a capitalised status changes nothing. */
  lemma StatusLabelIdempotent(status: string)
    ensures StatusLabel(StatusLabel(status)) == StatusLabel(status)
  {
    if status != [] {
      var once := StatusLabel(status);
      assert UpperChar(UpperChar(status[0])) == UpperChar(status[0]);
      assert StatusLabel(once)[0] == once[0];
    }
  }

  lemma PendingLabel()
    ensures StatusLabel("pending") == "Pending"
  {
  }

  /** The buttons in the Actions card. */
  datatype Action = Approve | Reject | ToggleFeature | Delete

  /** Approve and Reject are offered only for a pending listing; featuring
      and deleting always are. */
  function OfferedActions(status: string): (actions: seq<Action>)
    ensures Approve in actions <==> status == Pending
    ensures Reject in actions <==> status == Pending
    ensures ToggleFeature in actions && Delete in actions
  {
    (if status == Pending then [Approve, Reject] else []) + [ToggleFeature, Delete]
  }

  /** The screen's state for a loaded car: the route's `id`, the car, the
      three dialogs, and what it has asked of the data layer and the
      router, in order. */
  class CarDetailsPage {
    const id: Option<string>
    const car: Car
    var deleteConfirmation: bool
    var rejectModal: bool
    var featureModal: bool
    var requests: seq<CarRequest>
    var navigations: seq<string>

    constructor (id: Option<string>, car: Car)
      ensures this.id == id && this.car == car
      ensures !deleteConfirmation && !rejectModal && !featureModal
      ensures requests == [] && navigations == []
    {
      this.id := id;
      this.car := car;
      deleteConfirmation, rejectModal, featureModal := false, false, false;
      requests, navigations := [], [];
    }

    method OpenFeatureModal()
      modifies this
      ensures featureModal
      ensures deleteConfirmation == old(deleteConfirmation) && rejectModal == old(rejectModal)
      ensures requests == old(requests) && navigations == old(navigations)
    {
      featureModal := true;
    }

    /** `handleToggleFeature`, with the mutation's outcome as a parameter:
        nothing without a route id; otherwise unfeature a featured car or
        feature an unfeatured one, and close the dialog only on success. */
    method HandleToggleFeature(succeeds: bool)
      modifies this
      ensures !Truthy(id) ==> requests == old(requests) && featureModal == old(featureModal)
      ensures Truthy(id) ==> requests == old(requests) + [ToggleFeatureRequest(car.isFeatured, id.value)]
      ensures Truthy(id) ==> featureModal == (old(featureModal) && !succeeds)
      ensures deleteConfirmation == old(deleteConfirmation) && rejectModal == old(rejectModal)
      ensures navigations == old(navigations)
    {
      if !Truthy(id) {
        return;
      }
      requests := requests + [ToggleFeatureRequest(car.isFeatured, id.value)];
      if succeeds {
        featureModal := false;
      }
    }

    /** `handleDelete`: deletes and, on success, returns to the car list. */
    method HandleDelete(succeeds: bool)
      modifies this
      ensures !Truthy(id) ==> requests == old(requests) && navigations == old(navigations)
      ensures Truthy(id) ==> requests == old(requests) + [DeleteCar(id.value)]
      ensures Truthy(id) ==> navigations == old(navigations) + (if succeeds then ["/vehicles/cars"] else [])
      ensures deleteConfirmation == old(deleteConfirmation) && rejectModal == old(rejectModal)
      ensures featureModal == old(featureModal)
    {
      if !Truthy(id) {
        return;
      }
      requests := requests + [DeleteCar(id.value)];
      if succeeds {
        navigations := navigations + ["/vehicles/cars"];
      }
    }

    /** `handleReject`: rejects with the reason and, on success, closes the
        reject dialog. */
    method HandleReject(reason: string, succeeds: bool)
      modifies this
      ensures !Truthy(id) ==> requests == old(requests) && rejectModal == old(rejectModal)
      ensures Truthy(id) ==> requests == old(requests) + [RejectCar(id.value, reason)]
      ensures Truthy(id) ==> rejectModal == (old(rejectModal) && !succeeds)
      ensures deleteConfirmation == old(deleteConfirmation) && featureModal == old(featureModal)
      ensures navigations == old(navigations)
    {
      if !Truthy(id) {
        return;
      }
      requests := requests + [RejectCar(id.value, reason)];
      if succeeds {
        rejectModal := false;
      }
    }

    /** `handleApprove`: approves; nothing else changes either way. */
    method HandleApprove()
      modifies this
      ensures requests == old(requests) + (if Truthy(id) then [ApproveCar(id.value)] else [])
      ensures deleteConfirmation == old(deleteConfirmation) && rejectModal == old(rejectModal)
      ensures featureModal == old(featureModal) && navigations == old(navigations)
    {
      if Truthy(id) {
        requests := requests + [ApproveCar(id.value)];
      }
    }
  }
}
