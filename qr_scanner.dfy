/**
 * What the QR scanner screen derives from the scanner's state: whether a
 * decoded text is a web link, the latest result and the recent list, the
 * hint under the viewfinder and which buttons are shown. Decoding, the
 * result cap and duplicate suppression belong to the scanner itself, which
 * is not part of this model.
 */
module QRScanner {
  import opened Wrappers

  /** A decoded code and when it was decoded; the list is newest first. */
  datatype QRResult = QRResult(data: string, timestamp: int)

  // ---------------------------------------------------------------- links

  /**
   * ASCII lower case. The case-insensitive match of a regular expression
   * without the Unicode flag never maps a non-ASCII character onto an ASCII
   * one, so only 'A'..'Z' fold.
   */
  function Lower(c: char): (r: char)
    ensures ('A' <= c <= 'Z') ==> r as int == c as int + 32
    ensures !('A' <= c <= 'Z') ==> r == c
  {
    if 'A' <= c <= 'Z' then (c as int + 32) as char else c
  }

  /** `text` begins with the lower-case `prefix`, letters compared without case. */
  predicate StartsWithIgnoringCase(text: string, prefix: string)
  {
    |text| >= |prefix| && forall i :: 0 <= i < |prefix| ==> Lower(text[i]) == prefix[i]
  }

  /**
   * The link test: at position 0, "http", an optional "s", then "://",
   * letters in either case.
   */
  function IsUrl(text: string): (r: bool)
    ensures r ==> |text| >= 7 && Lower(text[0]) == 'h' && Lower(text[3]) == 'p'
    ensures r ==> text[4] == ':' || Lower(text[4]) == 's'
  {
    if |text| < 4 || Lower(text[0]) != 'h' || Lower(text[1]) != 't' || Lower(text[2]) != 't' || Lower(text[3]) != 'p' then false
    else
      var rest := if |text| > 4 && Lower(text[4]) == 's' then text[5..] else text[4..];
      |rest| >= 3 && rest[0] == ':' && rest[1] == '/' && rest[2] == '/'
  }

  /** A text is a link exactly when it begins with "http://" or "https://", in any letter case. */
  lemma IsUrlIffSchemePrefix(text: string)
    ensures IsUrl(text) <==> StartsWithIgnoringCase(text, "http://") || StartsWithIgnoringCase(text, "https://")
  {
    if StartsWithIgnoringCase(text, "http://") {
      assert Lower(text[4]) == ':';
    }
    if StartsWithIgnoringCase(text, "https://") {
      assert Lower(text[4]) == 's' && Lower(text[5]) == ':';
    }
    if IsUrl(text) && |text| > 4 && Lower(text[4]) == 's' {
      assert StartsWithIgnoringCase(text, "https://");
    }
  }

  /** The match is anchored: anything before the scheme, or another first letter, rules the text out. */
  lemma IsUrlAnchored(text: string)
    requires |text| > 0 && Lower(text[0]) != 'h'
    ensures !IsUrl(text)
    ensures forall rest: string :: !IsUrl(text + rest)
  {
    forall rest: string ensures !IsUrl(text + rest) {
      assert (text + rest)[0] == text[0];
    }
  }

  // ---------------------------------------------------------------- results panel

  /** The newest result, if any. */
  function Latest(results: seq<QRResult>): (r: Option<QRResult>)
    ensures r.None? <==> results == []
    ensures r.Some? ==> r.value == results[0]
  {
    if |results| == 0 then None else Some(results[0])
  }

  /** Everything but the newest result (`slice(1)`; empty for an empty list). */
  function Recent(results: seq<QRResult>): (r: seq<QRResult>)
    ensures |r| == if results == [] then 0 else |results| - 1
    ensures forall i :: 0 <= i < |r| ==> r[i] == results[i + 1]
  {
    if results == [] then [] else results[1..]
  }

  /** The latest result and the recent list together are the whole list, newest first. */
  lemma LatestAndRecentPartition(results: seq<QRResult>)
    ensures (match Latest(results) case None => [] case Some(q) => [q]) + Recent(results) == results
  {
  }

  /** Which parts of the bottom panel are shown. */
  datatype Panel = Panel(
    latest: Option<QRResult>,
    openLink: bool,
    showRecent: bool,
    recent: seq<QRResult>,
    recentCount: int,
    showStart: bool,
    showStop: bool,
    showClear: bool)

  function PanelFor(results: seq<QRResult>, isScanning: bool): (p: Panel)
    ensures p.latest == Latest(results)
    ensures p.openLink <==> results != [] && IsUrl(results[0].data)
    ensures p.showRecent <==> |results| > 1
    ensures p.showRecent ==> p.recentCount == |p.recent| && p.recentCount >= 1
    ensures p.showRecent ==> p.recent == results[1..]
    ensures p.showStart <==> !isScanning
    ensures p.showStop <==> isScanning
    ensures p.showClear <==> results != []
  {
    var latest := Latest(results);
    Panel(
      latest,
      latest.Some? && IsUrl(latest.value.data),
      |results| > 1,
      Recent(results),
      |results| - 1,
      !isScanning,
      isScanning,
      |results| > 0)
  }

  /** Exactly one of Start and Stop is offered. */
  lemma StartXorStop(results: seq<QRResult>, isScanning: bool)
    ensures PanelFor(results, isScanning).showStart != PanelFor(results, isScanning).showStop
  {
  }

  // ---------------------------------------------------------------- hint

  datatype Hint = LoadingScanner | StartingCamera | PointCamera | TapToStart

  /** The hint under the viewfinder, first applicable case first. */
  function HintFor(decoderLoaded: bool, isLoading: bool, isScanning: bool, isActive: bool): (h: Hint)
    ensures h == LoadingScanner <==> !decoderLoaded
    ensures h == StartingCamera <==> decoderLoaded && isLoading
    ensures h == PointCamera <==> decoderLoaded && !isLoading && isScanning && isActive
    ensures h == TapToStart <==> decoderLoaded && !isLoading && !(isScanning && isActive)
  {
    if !decoderLoaded then LoadingScanner
    else if isLoading then StartingCamera
    else if isScanning && isActive then PointCamera
    else TapToStart
  }

  function HintText(h: Hint): (s: string)
    ensures s != []
  {
    match h
    case LoadingScanner => "Loading scanner..."
    case StartingCamera => "Starting camera..."
    case PointCamera => "Point camera at a QR code"
    case TapToStart => "Tap scan to start"
  }

  /** Each hint has its own message. */
  lemma HintTextsDistinct(g: Hint, h: Hint)
    ensures HintText(g) == HintText(h) <==> g == h
  {
  }

  /** The loading overlay covers the screen exactly while one of the two loading hints is chosen. */
  lemma OverlayMatchesHint(decoderLoaded: bool, isLoading: bool, isScanning: bool, isActive: bool)
    ensures (isLoading || !decoderLoaded) <==>
      HintFor(decoderLoaded, isLoading, isScanning, isActive) in {LoadingScanner, StartingCamera}
  {
  }
}
