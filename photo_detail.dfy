/**
 * The photo detail screen: the editor state, its preview filter, saving the
 * chosen preset back into the record, deleting after confirmation and the
 * download file name.
 */
module PhotoDetail {
  import opened Wrappers
  import opened Text
  import opened Filters
  import opened Camera

  /** Slider percentages, shown as the ratio percent / 100. */
  function BrightnessTerm(percent: int): string
  {
    "brightness(" + FixedText(percent, 2) + ")"
  }

  function ContrastTerm(percent: int): string
  {
    "contrast(" + FixedText(percent, 2) + ")"
  }

  /**
   * The preview filter: the preset (left out for Normal), the brightness and
   * the contrast terms, keeping the non-empty ones and joining them with spaces.
   */
  function CombinedFilter(f: FilterName, brightness: int, contrast: int): (r: string)
    ensures f == Normal ==> r == BrightnessTerm(brightness) + " " + ContrastTerm(contrast)
    ensures f != Normal ==> r == Effect(f) + " " + BrightnessTerm(brightness) + " " + ContrastTerm(contrast)
    ensures r != [] && r[0] != ' '
  {
    var b, c := BrightnessTerm(brightness), ContrastTerm(contrast);
    assert b[0] == 'b' && c[0] == 'c';
    PreviewTermsJoined(f, b, c);
    Join(NonEmpty([if Effect(f) == "none" then "" else Effect(f), b, c]), " ")
  }

  lemma PreviewTermsJoined(f: FilterName, b: string, c: string)
    requires b != [] && c != [] && b[0] != ' '
    ensures var r := Join(NonEmpty([if Effect(f) == "none" then "" else Effect(f), b, c]), " ");
      && r == (if f == Normal then b + " " + c else Effect(f) + " " + b + " " + c)
      && r != [] && r[0] != ' '
  {
    KeptPreviewTerms(f, b, c);
    JoinSmall(b, c, c, " ");
    JoinSmall(Effect(f), b, c, " ");
    EffectStartsWithLetter(f);
  }

  /** Only the preset term can be empty, and only for Normal. */
  lemma KeptPreviewTerms(f: FilterName, b: string, c: string)
    requires b != [] && c != []
    ensures NonEmpty([if Effect(f) == "none" then "" else Effect(f), b, c]) == if f == Normal then [b, c] else [Effect(f), b, c]
  {
    var terms := [if Effect(f) == "none" then "" else Effect(f), b, c];
    assert terms[1..] == [b, c] && [b, c][1..] == [c] && [c][1..] == [];
    assert NonEmpty([c]) == [c] + NonEmpty([]);
  }

  /** The record handed back on save: the original with only its preset replaced. */
  function SavedRecord(photo: CapturedPhoto, f: FilterName): (r: CapturedPhoto)
    ensures r.filter == f
    ensures r.id == photo.id && r.dataUrl == photo.dataUrl && r.mode == photo.mode && r.timestamp == photo.timestamp
  {
    photo.(filter := f)
  }

  /** Saving the original preset again restores the original record; saving twice is saving once. */
  lemma SavedRecordRoundTrip(photo: CapturedPhoto, f: FilterName, g: FilterName)
    ensures SavedRecord(SavedRecord(photo, f), photo.filter) == photo
    ensures SavedRecord(SavedRecord(photo, f), g) == SavedRecord(photo, g)
  {
  }

  const DownloadPrefix := "snappro_"
  const DownloadSuffix := ".jpg"

  /** The file name a photo is downloaded under. */
  function DownloadName(id: string): (r: string)
    ensures |r| == |id| + 12
  {
    DownloadPrefix + id + DownloadSuffix
  }

  /** The id a download name was made from, if it has the app's shape. */
  function IdOfDownloadName(name: string): Option<string>
  {
    if |name| >= 12 && name[..8] == DownloadPrefix && name[|name| - 4..] == DownloadSuffix
    then Some(name[8..|name| - 4])
    else None
  }

  /** Download names are distinct for distinct photos: the id can be read back. */
  lemma DownloadNameRoundTrip(id: string)
    ensures IdOfDownloadName(DownloadName(id)) == Some(id)
  {
    var n := DownloadName(id);
    assert n[..8] == DownloadPrefix && n[|n| - 4..] == DownloadSuffix && n[8..|n| - 4] == id;
  }

  /** What the screen asks its host to do. */
  datatype DetailAction = DeletePhoto(id: string) | GoBack

  /** Delete asks for confirmation; confirmed, it deletes the photo and then leaves the screen. */
  function DeleteActions(confirmed: bool, id: string): (r: seq<DetailAction>)
    ensures !confirmed ==> r == []
    ensures confirmed ==> |r| == 2 && r[0] == DeletePhoto(id) && r[1] == GoBack
  {
    if confirmed then [DeletePhoto(id), GoBack] else []
  }

  class PhotoEditor {
    const photo: CapturedPhoto
    var activeFilter: FilterName
    var brightness: int
    var contrast: int
    var saved: bool

    /** Both sliders stay within 50..150 percent. */
    ghost predicate Valid()
      reads this
    {
      50 <= brightness <= 150 && 50 <= contrast <= 150
    }

    /** The editor opens on the photo's own preset, at 100% brightness and contrast. */
    constructor(p: CapturedPhoto)
      ensures Valid()
      ensures photo == p && activeFilter == p.filter && brightness == 100 && contrast == 100 && !saved
    {
      photo := p;
      activeFilter := p.filter;
      brightness, contrast := 100, 100;
      saved := false;
    }

    /** The preview of the photo being edited; the slider values appear in it, the preset only when not Normal. */
    function Preview(): (r: string)
      reads this
      ensures activeFilter == Normal ==> r == BrightnessTerm(brightness) + " " + ContrastTerm(contrast)
      ensures activeFilter != Normal ==> r == Effect(activeFilter) + " " + BrightnessTerm(brightness) + " " + ContrastTerm(contrast)
    {
      CombinedFilter(activeFilter, brightness, contrast)
    }

    method ChooseFilter(f: FilterName)
      modifies this`activeFilter
      ensures activeFilter == f
    {
      activeFilter := f;
    }

    method SetBrightness(v: int)
      requires Valid() && 50 <= v <= 150
      modifies this`brightness
      ensures Valid() && brightness == v
    {
      brightness := v;
    }

    method SetContrast(v: int)
      requires Valid() && 50 <= v <= 150
      modifies this`contrast
      ensures Valid() && contrast == v
    {
      contrast := v;
    }

    /** Save hands back the photo with the chosen preset; brightness and contrast stay behind. */
    method Save() returns (updated: CapturedPhoto)
      modifies this`saved
      ensures updated == SavedRecord(photo, activeFilter)
      ensures saved
    {
      updated := photo.(filter := activeFilter);
      saved := true;
    }

    /** The "Saved!" feedback timer ran out. */
    method SavedFeedbackElapsed()
      modifies this`saved
      ensures !saved
    {
      saved := false;
    }

    /** The delete button: `confirmed` is the user's answer to the confirmation dialog. */
    method Delete(confirmed: bool) returns (actions: seq<DetailAction>)
      ensures actions == DeleteActions(confirmed, photo.id)
    {
      actions := [];
      if confirmed {
        actions := actions + [DeletePhoto(photo.id)];
        actions := actions + [GoBack];
      }
    }
  }
}
