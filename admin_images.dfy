/** `src/components/admin/admin-images.tsx`: the gallery image manager. It
    keeps its list locally; every handler changes the list directly, with
    no gateway call. */
module AdminImages {
  import opened Wrappers
  import opened Types
  import Lists
  import Fixtures

  // ---------------------------------------------------------------------
  // ImageForm
  // ---------------------------------------------------------------------

  /** The form's six editable fields. */
  datatype Draft = Draft(title: string, description: string, imageUrl: string, imageHint: string, lat: real, lng: real)

  /** The form's initial state, with the `||` fallbacks of its `useState`
      calls. */
  function FormDefaults(item: Option<MapPoint>): (d: Draft)
    ensures item.None? ==> d == Draft("", "", "", "", 0.0, 0.0)
    ensures item.Some? ==> d == Draft(item.value.title, item.value.description, item.value.image.url,
                                      item.value.image.hint, item.value.position.lat, item.value.position.lng)
  {
    match item
    case None => Draft("", "", "", "", 0.0, 0.0)
    case Some(p) => Draft(OrElse(p.title, ""), OrElse(p.description, ""), OrElse(p.image.url, ""),
                          OrElse(p.image.hint, ""), OrZero(p.position.lat), OrZero(p.position.lng))
  }

  /** The form's `handleSubmit`: the id is `item?.id || uuid`, where `uuid`
      stands for the value `crypto.randomUUID()` returns; the other fields
      pass through unmodified into the nested image and position records. */
  function FormSubmit(item: Option<MapPoint>, d: Draft, uuid: string): (p: MapPoint)
    ensures p.id == if item.Some? && item.value.id != "" then item.value.id else uuid
    ensures p.title == d.title && p.description == d.description
    ensures p.image.url == d.imageUrl && p.image.hint == d.imageHint
    ensures p.position.lat == d.lat && p.position.lng == d.lng
  {
    var id := if item.Some? then OrElse(item.value.id, uuid) else uuid;
    MapPoint(id, d.title, d.description, ImageRef(d.imageUrl, d.imageHint), Position(d.lat, d.lng))
  }

  /** The inputs marked `required` (title, description, image URL) are
      filled in; the hint is optional and the coordinates are number inputs
      that always hold a value. The browser runs `handleSubmit` only then. */
  predicate Submittable(d: Draft)
  {
    d.title != "" && d.description != "" && d.imageUrl != ""
  }

  /** What reaches `onSubmit` when the submit button is pressed: nothing
      while a required field is empty. */
  function Submitted(item: Option<MapPoint>, d: Draft, uuid: string): (r: Option<MapPoint>)
    ensures r.Some? <==> d.title != "" && d.description != "" && d.imageUrl != ""
    ensures r.Some? ==> r.value == FormSubmit(item, d, uuid)
  {
    if Submittable(d) then Some(FormSubmit(item, d, uuid)) else None
  }

  /** An untouched new-image form cannot be submitted. */
  lemma NewFormNotSubmittable(uuid: string)
    ensures Submitted(None, FormDefaults(None), uuid) == None
  {
  }

  /** An untouched edit form can be submitted exactly when the image has a
      title, a description and a URL, and then it submits the image itself. */
  lemma EditFormSubmittable(p: MapPoint, uuid: string)
    requires p.id != ""
    ensures Submitted(Some(p), FormDefaults(Some(p)), uuid).Some? <==> p.title != "" && p.description != "" && p.image.url != ""
    ensures Submitted(Some(p), FormDefaults(Some(p)), uuid).Some? ==> Submitted(Some(p), FormDefaults(Some(p)), uuid).value == p
  {
    EditFormRoundTrip(p, uuid);
  }

  /** Opening an image and submitting the form untouched gives the image
      back, id included. */
  lemma EditFormRoundTrip(p: MapPoint, uuid: string)
    requires p.id != ""
    ensures FormSubmit(Some(p), FormDefaults(Some(p)), uuid) == p
  {
  }

  // ---------------------------------------------------------------------
  // The controller
  // ---------------------------------------------------------------------

  class Controller {
    var images: seq<MapPoint>
    var dialogOpen: bool
    var editing: Option<MapPoint>

    /** The list starts as the three fixture map points. */
    constructor (catalogue: seq<Fixtures.Placeholder>)
      requires Fixtures.Find(catalogue, "map-point-1").Some?
      requires Fixtures.Find(catalogue, "map-point-2").Some?
      requires Fixtures.Find(catalogue, "map-point-3").Some?
      ensures images == Fixtures.MapPoints(catalogue)
      ensures Lists.DistinctKeys(images, MapPointId)
      ensures !dialogOpen && editing == None
    {
      images := Fixtures.MapPoints(catalogue);
      dialogOpen := false;
      editing := None;
    }

    /** `handleAddItem`. */
    method BeginCreate()
      modifies this`dialogOpen, this`editing
      ensures dialogOpen && editing == None
    {
      editing := None;
      dialogOpen := true;
    }

    /** `handleEditItem`. */
    method BeginEdit(p: MapPoint)
      modifies this`dialogOpen, this`editing
      ensures dialogOpen && editing == Some(p)
    {
      editing := Some(p);
      dialogOpen := true;
    }

    /** The dialog's close callback. */
    method CloseDialog()
      modifies this`dialogOpen
      ensures !dialogOpen
    {
      dialogOpen := false;
    }

    /** `handleDeleteItem`: keep exactly the images whose id differs. */
    method DeleteItem(id: string)
      modifies this`images
      ensures images == Lists.Without(old(images), MapPointId, id)
      ensures Lists.DistinctKeys(old(images), MapPointId) ==> Lists.DistinctKeys(images, MapPointId)
    {
      if Lists.DistinctKeys(images, MapPointId) {
        Lists.WithoutKeepsDistinct(images, MapPointId, id);
      }
      images := Lists.Without(images, MapPointId, id);
    }

    /** `handleFormSubmit`: with an edit target, every image carrying its id
        is replaced by `data`; otherwise `data` is appended under the id
        `uuid` (the `crypto.randomUUID()` result). Either way the dialog
        closes and the target is cleared. Ids stay distinct when the edited
        data keeps the target's id, or when the new id is fresh. */
    method Submit(data: MapPoint, uuid: string)
      modifies this
      ensures old(editing).Some? ==> images == Lists.ReplaceWhere(old(images), MapPointId, old(editing).value.id, data)
      ensures old(editing).None? ==> images == old(images) + [data.(id := uuid)]
      ensures !dialogOpen && editing == None
      ensures old(editing).Some? && data.id == old(editing).value.id ==>
                Lists.Keys(images, MapPointId) == Lists.Keys(old(images), MapPointId)
      ensures Lists.DistinctKeys(old(images), MapPointId) &&
              (old(editing).Some? ==> data.id == old(editing).value.id) &&
              (old(editing).None? ==> uuid !in Lists.Keys(old(images), MapPointId)) ==>
                Lists.DistinctKeys(images, MapPointId)
    {
      if editing.Some? {
        var target := editing.value.id;
        if data.id == target {
          Lists.ReplaceKeepsKeys(images, MapPointId, target, data);
          if Lists.DistinctKeys(images, MapPointId) {
            Lists.ReplaceKeepsDistinct(images, MapPointId, target, data);
          }
        }
        images := Lists.ReplaceWhere(images, MapPointId, target, data);
      } else {
        var added := data.(id := uuid);
        if Lists.DistinctKeys(images, MapPointId) && uuid !in Lists.Keys(images, MapPointId) {
          Lists.AppendFreshKeepsDistinct(images, MapPointId, added);
        }
        images := images + [added];
      }
      dialogOpen := false;
      editing := None;
    }
  }

  /** Deleting keeps exactly the images whose id differs, each as often as
      before and in its order; deleting an absent id changes nothing, and
      deleting twice is deleting once. */
  lemma DeleteProperties(images: seq<MapPoint>, id: string)
    ensures id !in Lists.Keys(images, MapPointId) ==> Lists.Without(images, MapPointId, id) == images
    ensures Lists.Without(Lists.Without(images, MapPointId, id), MapPointId, id) == Lists.Without(images, MapPointId, id)
    ensures Lists.Subsequence(Lists.Without(images, MapPointId, id), images)
    ensures id !in Lists.Keys(Lists.Without(images, MapPointId, id), MapPointId)
    ensures forall x :: multiset(Lists.Without(images, MapPointId, id))[x] == if x.id == id then 0 else multiset(images)[x]
  {
    forall x ensures multiset(Lists.Without(images, MapPointId, id))[x] == if x.id == id then 0 else multiset(images)[x] {
      Lists.WithoutCount(images, MapPointId, id, x);
    }
    if id !in Lists.Keys(images, MapPointId) {
      Lists.WithoutAbsent(images, MapPointId, id);
    }
    Lists.WithoutIdempotent(images, MapPointId, id);
    Lists.WithoutIsSubsequence(images, MapPointId, id);
    Lists.WithoutRemovesKey(images, MapPointId, id);
  }

  /** Editing through the form, which reuses the target's id, keeps the
      length and the id sequence, and changes exactly the target's rows. */
  lemma EditThroughFormKeepsIds(images: seq<MapPoint>, target: MapPoint, d: Draft, uuid: string)
    requires target.id != ""
    ensures var edited := Lists.ReplaceWhere(images, MapPointId, target.id, FormSubmit(Some(target), d, uuid));
            |edited| == |images| &&
            Lists.Keys(edited, MapPointId) == Lists.Keys(images, MapPointId) &&
            forall i :: 0 <= i < |images| && images[i].id != target.id ==> edited[i] == images[i]
  {
    Lists.ReplaceKeepsKeys(images, MapPointId, target.id, FormSubmit(Some(target), d, uuid));
  }

  /** Adding keeps the old list as a prefix and puts the new image, under
      its fresh id, last. */
  lemma AddAppends(images: seq<MapPoint>, data: MapPoint, uuid: string)
    requires uuid !in Lists.Keys(images, MapPointId)
    ensures var added := images + [data.(id := uuid)];
            |added| == |images| + 1 && added[..|images|] == images &&
            added[|images|].id == uuid &&
            forall i :: 0 <= i < |images| ==> added[i].id != uuid
  {
    assert forall i :: 0 <= i < |images| ==> Lists.Keys(images, MapPointId)[i] == MapPointId(images[i]);
  }
}
