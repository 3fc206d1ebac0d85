/**
 * The application root: the photo store (append on capture, delete by id,
 * replace by id on save), its durable mirror that keeps the newest 30
 * photos, and the router between the camera, gallery, detail and QR screens.
 *
 * The browser's key-value storage is one optional slot: `None` stands for
 * an absent, empty or unreadable entry; a write may fail (`writeOk`), in
 * which case the slot keeps its previous content.
 */
module App {
  import opened Wrappers
  import opened Camera
  import opened PhotoDetail

  datatype AppView = CameraView | GalleryView | DetailView | QRView

  /** How many photos the durable mirror keeps. */
  const MaxStored := 30

  // ---------------------------------------------------------------- store

  /** The newest `MaxStored` photos, in their original order (`slice(-30)`). */
  function Trim(photos: seq<CapturedPhoto>): (r: seq<CapturedPhoto>)
    ensures |r| == if |photos| <= MaxStored then |photos| else MaxStored
    ensures r == photos[|photos| - |r|..]
    ensures |photos| <= MaxStored ==> r == photos
  {
    var start := if |photos| > MaxStored then |photos| - MaxStored else 0;
    photos[start..]
  }

  /** Trimming the mirror after each append gives the same result as trimming the whole history. */
  lemma TrimAppend(photos: seq<CapturedPhoto>, p: CapturedPhoto)
    ensures Trim(Trim(photos) + [p]) == Trim(photos + [p])
  {
    var t := Trim(photos);
    var n := |photos|;
    if n >= MaxStored {
      assert t + [p] == (photos + [p])[n - MaxStored..];
      assert Trim(t + [p]) == (t + [p])[1..];
      assert (t + [p])[1..] == (photos + [p])[n + 1 - MaxStored..];
    }
  }

  /** With 31 photos stored in order, the oldest one is the only one dropped. */
  lemma TrimDropsOldest(photos: seq<CapturedPhoto>)
    requires |photos| == MaxStored + 1
    ensures Trim(photos) == photos[1..]
  {
  }

  /** The store as read at start-up: what the slot holds, or nothing. */
  function LoadPhotos(slot: Option<seq<CapturedPhoto>>): (r: seq<CapturedPhoto>)
    ensures slot.None? ==> r == []
    ensures slot.Some? ==> r == slot.value
  {
    slot.GetOr([])
  }

  /** Reloading a saved mirror yields exactly the saved truncation. */
  lemma SaveLoadRoundTrip(photos: seq<CapturedPhoto>)
    ensures LoadPhotos(Some(Trim(photos))) == Trim(photos)
    ensures |LoadPhotos(Some(Trim(photos)))| <= MaxStored
  {
  }

  /** The photos whose id differs from `id`, in order. */
  function RemoveById(photos: seq<CapturedPhoto>, id: string): (r: seq<CapturedPhoto>)
    ensures |r| <= |photos|
    ensures forall p :: p in r <==> p in photos && p.id != id
  {
    if photos == [] then []
    else (if photos[0].id == id then [] else [photos[0]]) + RemoveById(photos[1..], id)
  }

  /** Deleting distributes over concatenation, so the kept photos stay in their order. */
  lemma {:induction false} RemoveByIdAppend(a: seq<CapturedPhoto>, b: seq<CapturedPhoto>, id: string)
    ensures RemoveById(a + b, id) == RemoveById(a, id) + RemoveById(b, id)
    decreases |a|
  {
    if a == [] {
      assert a + b == b;
    } else {
      assert (a + b)[0] == a[0] && (a + b)[1..] == a[1..] + b;
      RemoveByIdAppend(a[1..], b, id);
    }
  }

  /** Deleting an id nobody has changes nothing. */
  lemma {:induction false} RemoveByIdAbsent(photos: seq<CapturedPhoto>, id: string)
    requires forall p :: p in photos ==> p.id != id
    ensures RemoveById(photos, id) == photos
    decreases |photos|
  {
    if photos != [] {
      assert forall p :: p in photos[1..] ==> p in photos;
      RemoveByIdAbsent(photos[1..], id);
    }
  }

  /** Deleting twice is deleting once. */
  lemma RemoveByIdIdempotent(photos: seq<CapturedPhoto>, id: string)
    ensures RemoveById(RemoveById(photos, id), id) == RemoveById(photos, id)
  {
    RemoveByIdAbsent(RemoveById(photos, id), id);
  }

  /** Each photo with `updated`'s id replaced by `updated`. */
  function ReplaceById(photos: seq<CapturedPhoto>, updated: CapturedPhoto): (r: seq<CapturedPhoto>)
    ensures |r| == |photos|
    ensures forall i :: 0 <= i < |photos| ==> r[i] == if photos[i].id == updated.id then updated else photos[i]
  {
    if photos == [] then []
    else [if photos[0].id == updated.id then updated else photos[0]] + ReplaceById(photos[1..], updated)
  }

  /** Saving the same record twice is saving it once; saving a record nobody has changes nothing. */
  lemma ReplaceByIdProperties(photos: seq<CapturedPhoto>, updated: CapturedPhoto)
    ensures ReplaceById(ReplaceById(photos, updated), updated) == ReplaceById(photos, updated)
    ensures (forall p :: p in photos ==> p.id != updated.id) ==> ReplaceById(photos, updated) == photos
  {
  }

  /**
   * Saving an edit of a stored photo changes only the preset of the entries
   * with that id: everything else about the store stays as it was.
   */
  lemma SaveEditKeepsStore(photos: seq<CapturedPhoto>, i: nat, f: Filters.FilterName)
    requires i < |photos|
    ensures var r := ReplaceById(photos, SavedRecord(photos[i], f));
      && |r| == |photos|
      && forall j :: 0 <= j < |photos| ==>
           r[j].id == photos[j].id
           && (r[j].id != photos[i].id ==> r[j] == photos[j])
           && (r[j].id == photos[i].id ==> r[j] == photos[i].(filter := f))
  {
  }

  // ---------------------------------------------------------------- router

  /** The navigation callbacks the mounted screens hand out. */
  datatype NavEvent = OpenGallery | OpenQR | CloseQR | CloseGallery | SelectPhoto | CloseDetail

  /** The callbacks wired while `v` is shown. */
  function Handlers(v: AppView): set<NavEvent>
  {
    match v
    case CameraView => {OpenGallery, OpenQR}
    case QRView => {CloseQR}
    case GalleryView => {CloseGallery, SelectPhoto}
    case DetailView => {CloseDetail}
  }

  /** Where each callback leads. */
  function Target(e: NavEvent): AppView
  {
    match e
    case OpenGallery => GalleryView
    case OpenQR => QRView
    case CloseQR => CameraView
    case CloseGallery => CameraView
    case SelectPhoto => DetailView
    case CloseDetail => GalleryView
  }

  ghost predicate Edge(from: AppView, to: AppView)
  {
    exists e :: e in Handlers(from) && Target(e) == to
  }

  /** The only screen changes are camera-gallery, camera-QR (both ways) and gallery-detail (both ways). */
  lemma NavigationEdges(from: AppView, to: AppView)
    ensures Edge(from, to) <==>
      (from, to) in {(CameraView, GalleryView), (CameraView, QRView), (QRView, CameraView),
                     (GalleryView, CameraView), (GalleryView, DetailView), (DetailView, GalleryView)}
  {
    match from
    case CameraView =>
      assert Target(OpenGallery) == GalleryView && Target(OpenQR) == QRView;
    case QRView =>
      assert Target(CloseQR) == CameraView;
    case GalleryView =>
      assert Target(CloseGallery) == CameraView && Target(SelectPhoto) == DetailView;
    case DetailView =>
      assert Target(CloseDetail) == GalleryView;
  }

  /** What the root renders. */
  datatype Screen = CameraScreen | QRScreen | GalleryScreen | DetailScreen(photo: CapturedPhoto) | NoScreen

  function Rendered(view: AppView, selected: Option<CapturedPhoto>): (s: Screen)
    ensures s.DetailScreen? <==> view == DetailView && selected.Some?
    ensures s.DetailScreen? ==> s.photo == selected.value
    ensures s == NoScreen <==> view == DetailView && selected.None?
  {
    match view
    case CameraView => CameraScreen
    case QRView => QRScreen
    case GalleryView => GalleryScreen
    case DetailView => if selected.Some? then DetailScreen(selected.value) else NoScreen
  }

  // ---------------------------------------------------------------- root state

  class App {
    var view: AppView
    var photos: seq<CapturedPhoto>
    var selected: Option<CapturedPhoto>
    /** The durable mirror. */
    var slot: Option<seq<CapturedPhoto>>

    /** The detail screen is only ever shown with a selected photo. */
    ghost predicate Valid()
      reads this
    {
      view == DetailView ==> selected.Some?
    }

    /** Start-up: the camera screen, no selection, the stored photos, then the first save. */
    constructor(stored: Option<seq<CapturedPhoto>>, writeOk: bool)
      ensures Valid()
      ensures view == CameraView && selected == None && photos == LoadPhotos(stored)
      ensures slot == if writeOk then Some(Trim(photos)) else stored
    {
      view := CameraView;
      photos := LoadPhotos(stored);
      selected := None;
      slot := stored;
      new;
      Persist(writeOk);
    }

    /** With the invariant, some screen is always rendered, and the detail screen shows the selection. */
    function Screen(): (s: Screen)
      reads this
      ensures Valid() ==> s != NoScreen
      ensures Valid() && view == DetailView ==> s == DetailScreen(selected.value)
    {
      Rendered(view, selected)
    }

    /** Mirrors the store into the slot, keeping only the newest photos; a failed write leaves the slot as it was. */
    method Persist(writeOk: bool)
      modifies this`slot
      ensures slot == if writeOk then Some(Trim(photos)) else old(slot)
    {
      if writeOk {
        slot := Some(Trim(photos));
      }
    }

    /** A new photo from the camera goes at the end. */
    method HandlePhotoCapture(p: CapturedPhoto, writeOk: bool)
      modifies this`photos, this`slot
      ensures photos == old(photos) + [p]
      ensures |photos| == |old(photos)| + 1 && photos[|photos| - 1] == p && photos[..|old(photos)|] == old(photos)
      ensures LastPhoto(photos) == Some(p)
      ensures slot == if writeOk then Some(Trim(photos)) else old(slot)
    {
      photos := photos + [p];
      Persist(writeOk);
    }

    /** Opening a photo from the gallery selects it and shows the detail screen. */
    method HandleSelectPhoto(p: CapturedPhoto)
      requires SelectPhoto in Handlers(view)
      modifies this`selected, this`view
      ensures Valid()
      ensures selected == Some(p) && view == DetailView
      ensures Edge(old(view), view)
    {
      selected := Some(p);
      view := Target(SelectPhoto);
    }

    method HandleDeletePhoto(id: string, writeOk: bool)
      modifies this`photos, this`slot
      ensures photos == RemoveById(old(photos), id)
      ensures slot == if writeOk then Some(Trim(photos)) else old(slot)
    {
      photos := RemoveById(photos, id);
      Persist(writeOk);
    }

    /** An edited record replaces the stored one with the same id and becomes the selection. */
    method HandleSavePhoto(updated: CapturedPhoto, writeOk: bool)
      requires Valid()
      modifies this`photos, this`slot, this`selected
      ensures Valid()
      ensures photos == ReplaceById(old(photos), updated)
      ensures selected == Some(updated)
      ensures slot == if writeOk then Some(Trim(photos)) else old(slot)
    {
      photos := ReplaceById(photos, updated);
      selected := Some(updated);
      Persist(writeOk);
    }

    /** A navigation callback of the screen being shown (all but selecting a photo, which carries one). */
    method Navigate(e: NavEvent)
      requires Valid() && e in Handlers(view) && e != SelectPhoto
      modifies this`view
      ensures Valid()
      ensures view == Target(e)
      ensures Edge(old(view), view)
    {
      view := Target(e);
    }

    /** The detail screen's delete button, answered `confirmed`. */
    method DeleteFromDetail(confirmed: bool, writeOk: bool)
      requires Valid() && view == DetailView
      modifies this`photos, this`slot, this`view
      ensures Valid()
      ensures !confirmed ==> photos == old(photos) && view == DetailView && slot == old(slot)
      ensures confirmed ==> photos == RemoveById(old(photos), selected.value.id) && view == GalleryView
      ensures confirmed ==> slot == if writeOk then Some(Trim(photos)) else old(slot)
      ensures confirmed ==> Edge(old(view), view)
    {
      var actions := DeleteActions(confirmed, selected.value.id);
      if |actions| == 2 {
        HandleDeletePhoto(actions[0].id, writeOk);
        view := Target(CloseDetail);
      }
    }
  }
}
