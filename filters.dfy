/**
 * The twelve filter presets, their CSS filter descriptors, the ordered list
 * of names shown in the filter strip, and the strip's active-entry marking.
 */
module Filters {

  datatype FilterName =
    | Normal | Vivid | Dramatic | Noir | Fade | Chrome
    | Cool | Warm | Vintage | Sepia | BlackWhite | Sharpen

  /** The descriptor each preset applies; `Normal` maps to the explicit no-op "none". */
  function Effect(f: FilterName): (r: string)
    ensures r != []
    ensures r == "none" <==> f == Normal
  {
    match f
    case Normal => "none"
    case Vivid => "saturate(1.8) contrast(1.1)"
    case Dramatic => "contrast(1.4) saturate(0.8) " + "brightness(0.9)"
    case Noir => "grayscale(1) contrast(1.3)"
    case Fade => "contrast(0.85) brightness(1.1) " + "saturate(0.7)"
    case Chrome => "saturate(1.4) brightness(1.1) " + "contrast(1.1) hue-rotate(5deg)"
    case Cool => "hue-rotate(20deg) saturate(1.1)"
    case Warm => "sepia(0.3) saturate(1.4) " + "hue-rotate(-10deg)"
    case Vintage => "sepia(0.5) contrast(0.9) " + "brightness(1.05) saturate(0.8)"
    case Sepia => "sepia(1)"
    case BlackWhite => "grayscale(1)"
    case Sharpen => "contrast(1.2) brightness(1.05)"
  }

  /** No descriptor starts with a space. */
  lemma EffectStartsWithLetter(f: FilterName)
    ensures 'a' <= Effect(f)[0] <= 'z'
  {
  }

  /** The label the strip shows for a preset (the key of the table). */
  function Label(f: FilterName): (r: string)
    ensures r != []
    ensures r == "B&W" <==> f == BlackWhite
  {
    match f
    case Normal => "Normal"
    case Vivid => "Vivid"
    case Dramatic => "Dramatic"
    case Noir => "Noir"
    case Fade => "Fade"
    case Chrome => "Chrome"
    case Cool => "Cool"
    case Warm => "Warm"
    case Vintage => "Vintage"
    case Sepia => "Sepia"
    case BlackWhite => "B&W"
    case Sharpen => "Sharpen"
  }

  /** The table's keys in declaration order. */
  const FilterNames: seq<FilterName> :=
    [Normal, Vivid, Dramatic, Noir, Fade, Chrome, Cool, Warm, Vintage, Sepia, BlackWhite, Sharpen]

  /** The position of `f` in `FilterNames`. */
  function IndexOf(f: FilterName): (i: nat)
    ensures i < |FilterNames| && FilterNames[i] == f
  {
    match f
    case Normal => 0
    case Vivid => 1
    case Dramatic => 2
    case Noir => 3
    case Fade => 4
    case Chrome => 5
    case Cool => 6
    case Warm => 7
    case Vintage => 8
    case Sepia => 9
    case BlackWhite => 10
    case Sharpen => 11
  }

  /** Every preset is listed exactly once, and all twelve labels differ. */
  lemma FilterNamesComplete()
    ensures |FilterNames| == 12
    ensures forall f: FilterName :: f in FilterNames
    ensures forall i, j :: 0 <= i < j < |FilterNames| ==> FilterNames[i] != FilterNames[j]
    ensures forall i :: 0 <= i < |FilterNames| ==> IndexOf(FilterNames[i]) == i
  {
    forall f: FilterName ensures f in FilterNames {
      assert FilterNames[IndexOf(f)] == f;
    }
  }

  lemma LabelsDistinct(f: FilterName, g: FilterName)
    ensures Label(f) == Label(g) <==> f == g
  {
  }

  /** One button of the strip: its preset, the descriptor it previews, whether it is highlighted. */
  datatype StripEntry = StripEntry(name: FilterName, effect: string, isActive: bool)

  /** The strip rendered for the current filter: one entry per name, in order. */
  function StripEntries(current: FilterName): (r: seq<StripEntry>)
    ensures |r| == |FilterNames|
    ensures forall i :: 0 <= i < |r| ==> r[i].name == FilterNames[i] && r[i].effect == Effect(FilterNames[i])
  {
    seq(|FilterNames|, i requires 0 <= i < |FilterNames| =>
      StripEntry(FilterNames[i], Effect(FilterNames[i]), current == FilterNames[i]))
  }

  /** The indices of the highlighted entries. */
  function ActiveIndices(entries: seq<StripEntry>): set<nat>
  {
    set i: nat | i < |entries| && entries[i].isActive
  }

  /** Exactly one entry is highlighted, and it is the current filter's. */
  lemma ExactlyOneActive(current: FilterName)
    ensures ActiveIndices(StripEntries(current)) == {IndexOf(current)}
  {
    var es := StripEntries(current);
    FilterNamesComplete();
    forall i: nat | i < |es| ensures es[i].isActive <==> i == IndexOf(current) {
    }
  }

  /** Clicking the i-th entry of the strip, whatever preset is current, reports the i-th preset. */
  function OnEntryClick(current: FilterName, i: nat): (f: FilterName)
    requires i < |FilterNames|
    ensures f == FilterNames[i] && IndexOf(f) == i
  {
    FilterNamesComplete();
    StripEntries(current)[i].name
  }

  /** After the click, the clicked entry is the only highlighted one. */
  lemma ClickSelectsEntry(current: FilterName, i: nat)
    requires i < |FilterNames|
    ensures ActiveIndices(StripEntries(OnEntryClick(current, i))) == {i}
  {
    ExactlyOneActive(OnEntryClick(current, i));
  }
}
