# SnapPro camera: a verified model of the app's core logic

SnapPro is a browser camera app. Its screens are a camera viewfinder, a
gallery, a photo detail editor and a QR scanner. Under the markup sits a
small amount of sequential logic, and this project models it in Dafny and
proves properties about it:

- **Filter presets** (`Filters`). There are twelve named presets, each
  mapped to a CSS filter descriptor. The filter strip lists them in
  declaration order and highlights the current one.
- **Pro settings** (`ProControls`). ISO, shutter index, white balance and
  exposure compensation. The module covers the labels the sliders show and
  the one-field record update each slider makes.
- **Capture controller** (`Camera`). This covers the live filter expression
  (preset, then the Night boost or the Pro exposure term), the flash and
  timer cyclers and the `mm:ss` recording label. It also covers the capture
  guard that allows one capture at a time, the self-timer countdown and the
  record/stop toggle. The stateful part is the class
  `Camera.CaptureController`.
- **Photo editor** (`PhotoDetail`). It builds the preview filter from a
  preset, brightness and contrast. Saving writes back only the preset.
  Deleting asks for confirmation and then leaves the screen. The module
  also gives the download file name. The editor state is the class
  `PhotoDetail.PhotoEditor`.
- **Photo store and router** (`App`). Photos are appended on capture,
  deleted by id and replaced by id on save. A durable mirror keeps the
  newest 30 photos. The router switches between four views and keeps an
  optional selected photo. The root state is the class `App.App`.
- **QR result view** (`QRScanner`). It decides whether a decoded text is a
  web link and splits the newest-first result list into "latest" and
  "recent". It also picks the hint line and decides which buttons show.

`Modes` holds the eight camera modes. `Text` holds the decimal rendering,
padding and joining that the labels use. `Wrappers` holds `Option`, which
stands for the app's `T | null`.

Some inputs come from the platform and are parameters here:

- capture ids and timestamps;
- whether a video frame, a media stream and a recorder are available
  (`frameReady`, `streamReady`, `recorderOk`);
- the user's answer to the delete confirmation (`confirmed`);
- whether a storage write succeeds (`writeOk`);
- the browser's rendering of the Pro exposure factor (`render`).

Each interval firing is an explicit method call: `Tick`, `RecordingTick`
and `SavedFeedbackElapsed`.

## Model

| member | source | states |
|---|---|---|
| Filters.Effect | src/frontend/src/components/FilterStrip.tsx:17-30 | Every preset has a non-empty descriptor, and the descriptor is "none" exactly for Normal |
| Filters.EffectStartsWithLetter | src/frontend/src/components/FilterStrip.tsx:18-29 | Every descriptor begins with a lower-case letter, never a space |
| Filters.Label | src/frontend/src/components/FilterStrip.tsx:3-15 | Every preset has a non-empty name, and the name is "B&W" exactly for the black-and-white preset |
| Filters.LabelsDistinct | src/frontend/src/components/FilterStrip.tsx:3-15 | Two presets have the same name only if they are the same preset |
| Filters.IndexOf | src/frontend/src/components/FilterStrip.tsx:32 | Gives a position in the name list that holds the preset |
| Filters.FilterNamesComplete | src/frontend/src/components/FilterStrip.tsx:32 | The name list has 12 entries, contains every preset, has no repeats, and IndexOf inverts it |
| Filters.StripEntries | src/frontend/src/components/FilterStrip.tsx:53-54 | The strip has one entry per name, in list order, and each entry previews its own preset's descriptor |
| Filters.ExactlyOneActive | src/frontend/src/components/FilterStrip.tsx:53-54 | For any current filter, the only highlighted entry is the one at that filter's position |
| Filters.OnEntryClick | src/frontend/src/components/FilterStrip.tsx:53-59 | Clicking the i-th entry of the strip, whatever preset is current, reports the i-th preset of the name list, whose position is i |
| Filters.ClickSelectsEntry | src/frontend/src/components/FilterStrip.tsx:54-59 | After clicking the i-th entry, the i-th entry is the only highlighted one |
| ProControls.ShutterValuesShape | src/frontend/src/components/ProControls.tsx:15 | The shutter table has 11 entries, runs from 1000 to 1, and strictly decreases |
| ProControls.FormatShutter | src/frontend/src/components/ProControls.tsx:17-22 | Indexes 0..9 give "1/" followed by the table entry; index 10 and every index outside the table give "1s" |
| ProControls.FormatShutterInjective | src/frontend/src/components/ProControls.tsx:17-22 | Different slider positions show different shutter labels |
| ProControls.FormatWB | src/frontend/src/components/ProControls.tsx:24-26 | The label is the temperature's decimal digits followed by "K"; the digits read back to the temperature and have no leading zero unless it is 0 |
| ProControls.FormatExposure | src/frontend/src/components/ProControls.tsx:28-31 | The label starts with "+" exactly when the value is not negative, and with "-" exactly when it is; the rest is the value's decimal text |
| ProControls.FormatExposureExamples | src/frontend/src/components/ProControls.tsx:28-31 | Exposure 0 shows "+0", 0.5 shows "+0.5", -1 shows "-1" and -2.5 shows "-2.5" |
| ProControls.OnSliderChange | src/frontend/src/components/ProControls.tsx:92-128 | A slider change sets its own field to the new value and leaves the other three fields as they were; settings in range stay in range |
| ProControls.SliderChangesCommute | src/frontend/src/components/ProControls.tsx:92-128 | Moving two different sliders gives the same settings in either order |
| ProControls.DefaultSettingsValid | src/frontend/src/components/CameraView.tsx:61-66 | The initial settings are within every slider's range, and the shutter shows "1/30" |
| Text.NatText | src/frontend/src/components/ProControls.tsx:21 | A number's decimal text is non-empty, all digits, and has no leading zero unless the number is 0 |
| Text.NatTextRoundTrip | src/frontend/src/components/ProControls.tsx:21 | Reading a number's decimal text back gives the number |
| Text.NatTextInjective | src/frontend/src/components/ProControls.tsx:21 | Two numbers have the same decimal text only if they are equal |
| Text.IntText | src/frontend/src/components/ProControls.tsx:25 | The text starts with "-" exactly for negative values; for other values it is all digits, reads back to the value, and has no leading zero unless the value is 0 |
| Text.FixedText | src/frontend/src/components/PhotoDetail.tsx:29-30 | The text of v / 10^k is non-empty and starts with "-" exactly when v is negative, and with a digit otherwise |
| Text.FixedPartsDenotes | src/frontend/src/components/PhotoDetail.tsx:29-30 | The digits before the dot read back to the integer part, and a fraction part follows exactly when the fraction is non-zero |
| Text.FractionTextDenotes | src/frontend/src/components/PhotoDetail.tsx:29-30 | A fraction part is a dot and 1..k digits with no trailing zero; the digits scaled to k places read back to the fraction |
| Text.PercentTexts | src/frontend/src/components/PhotoDetail.tsx:29-30 | The percentages 100, 150 and 50 divided by 100 render as "1", "1.5" and "0.5" |
| Text.PadStart | src/frontend/src/components/CameraView.tsx:280-283 | The text is padded on the left to the width, keeps the original text as its suffix, and is filled with the pad character |
| Text.NonEmpty | src/frontend/src/components/PhotoDetail.tsx:32 | The kept strings are exactly the non-empty ones of the input, none of them empty, and there are no more of them than inputs |
| Text.NonEmptyAppend | src/frontend/src/components/PhotoDetail.tsx:32 | Filtering distributes over concatenation, so the kept strings keep their order and their repeats |
| Text.Join | src/frontend/src/components/PhotoDetail.tsx:33 | Joining nothing gives "". Otherwise the result starts with the first string, and its length is the strings' total length plus one separator between each pair of neighbours |
| Text.JoinSmall | src/frontend/src/components/PhotoDetail.tsx:33 | Joining two or three strings puts the separator between neighbours only |
| Camera.VideoFilter | src/frontend/src/components/CameraView.tsx:115-131 | Outside Night mode, and in Pro mode at exposure 0, the filter is the preset's descriptor. Night mode appends the boost after a space, or uses the boost alone for Normal. Pro mode at other exposures does the same with the exposure term |
| Camera.VideoFilterIsTermList | src/frontend/src/components/CameraView.tsx:115-131 | The filter is the ordered term list (preset unless Normal, then the mode's term), joined by spaces, or "none" when the list is empty |
| Camera.NextFlash | src/frontend/src/components/CameraView.tsx:287-291 | Each press changes the flash setting, and it returns to off exactly from on |
| Camera.NextTimer | src/frontend/src/components/CameraView.tsx:293-297 | Each press changes the timer setting, and it returns to off exactly from 10s |
| Camera.CyclesHavePeriodThree | src/frontend/src/components/CameraView.tsx:287-297 | Flash goes off, auto, on; the timer goes off, 3s, 10s. Each visits all three settings and is back at its start after exactly three presses |
| Camera.Pad2 | src/frontend/src/components/CameraView.tsx:280-283 | A count is padded to at least two digits (exactly two below 100) and reads back to the count; a text wider than two digits has no leading zero |
| Camera.FormatDuration | src/frontend/src/components/CameraView.tsx:279-285 | The label is minutes ":" seconds. The parts read back to secs / 60 and secs % 60 and recombine to secs. The label has length 5 below 6000 seconds, and a longer label has no leading zero |
| Camera.LastPhoto | src/frontend/src/components/CameraView.tsx:299 | The gallery button shows the last photo of the store, and nothing when the store is empty |
| Camera.CaptureResult | src/frontend/src/components/CameraView.tsx:138-190 | A photo is produced exactly when the stream is active, no capture is in flight and a frame is available; it carries the capture's mode, filter, id, image and timestamp |
| Camera.IdleNeverFires | src/frontend/src/components/CameraView.tsx:211-220 | With no countdown running, ticks show nothing and never capture |
| Camera.CountdownTick | src/frontend/src/components/CameraView.tsx:211-220 | One interval firing. It captures exactly when the countdown is at its last second, with the remembered state, and then stops. Otherwise it counts down by one, or stays idle |
| Camera.CountdownFiresOnce | src/frontend/src/components/CameraView.tsx:207-220 | A countdown from s shows s-1, ..., 1 on the following ticks. On tick s it disappears and triggers exactly one capture with the state from when the shutter was pressed. Later ticks do nothing |
| Camera.CaptureController.constructor | src/frontend/src/components/CameraView.tsx:48-66 | Starts in Photo mode with the Normal preset, flash and timer off, default Pro settings, no countdown and no recording |
| Camera.CaptureController.ShutterEnabled | src/frontend/src/components/CameraView.tsx:718 | The button is enabled exactly when no countdown runs and a capture with a ready frame would produce a photo |
| Camera.CaptureController.PreviewFilter | src/frontend/src/components/CameraView.tsx:387-392 | The live preview's filter is the ordered term list of the current mode, preset and exposure |
| Camera.CaptureController.SetStreamActive | src/frontend/src/components/CameraView.tsx:72-81 | Records whether the camera stream is active |
| Camera.CaptureController.SetMode | src/frontend/src/components/CameraView.tsx:686 | The mode strip sets the mode |
| Camera.CaptureController.SetFilter | src/frontend/src/components/CameraView.tsx:678-681 | The filter strip sets the preset |
| Camera.CaptureController.CycleFlash | src/frontend/src/components/CameraView.tsx:287-291 | The flash advances one step of its cycle |
| Camera.CaptureController.CycleTimer | src/frontend/src/components/CameraView.tsx:293-297 | The timer advances one step of its cycle |
| Camera.CaptureController.ChangeProSetting | src/frontend/src/components/CameraView.tsx:484-486 | The Pro panel's change becomes the settings, and the settings stay in range |
| Camera.CaptureController.DoCapture | src/frontend/src/components/CameraView.tsx:138-190 | The result is CaptureResult for the given state. The in-flight flag is down again on every way out, so no capture is in flight between events |
| Camera.CaptureController.StartRecording | src/frontend/src/components/CameraView.tsx:223-264 | Recording starts at duration 0 only with an active stream and a working recorder; otherwise nothing changes. The recorder, its timer and the recording flag stay in step |
| Camera.CaptureController.StopRecording | src/frontend/src/components/CameraView.tsx:266-277 | Afterwards the app is not recording, the duration is 0, and there is no recorder and no duration timer |
| Camera.CaptureController.RecordingTick | src/frontend/src/components/CameraView.tsx:258-260 | The duration grows by one second while recording and is unchanged otherwise |
| Camera.CaptureController.PressShutter | src/frontend/src/components/CameraView.tsx:192-221 | A disabled button does nothing. In Video mode the press toggles recording. With the timer off it captures from the current state. Otherwise it starts a 3 or 10 second countdown that remembers the current state. Neither of the last two touches the recording state or its duration |
| Camera.CaptureController.Tick | src/frontend/src/components/CameraView.tsx:211-220 | The countdown advances one step, and on its last step it captures with the state it remembered |
| PhotoDetail.CombinedFilter | src/frontend/src/components/PhotoDetail.tsx:27-33 | For Normal the preview is brightness, a space, then contrast. For other presets it is preset, brightness, contrast, joined by single spaces. It never starts with a space |
| PhotoDetail.KeptPreviewTerms | src/frontend/src/components/PhotoDetail.tsx:27-32 | Dropping empty terms removes only the preset term, and only for Normal |
| PhotoDetail.PreviewTermsJoined | src/frontend/src/components/PhotoDetail.tsx:27-33 | The kept terms joined by spaces give the two-term or three-term preview |
| PhotoDetail.SavedRecord | src/frontend/src/components/PhotoDetail.tsx:36 | The saved record has the chosen preset; its id, image, mode and timestamp are the original's |
| PhotoDetail.SavedRecordRoundTrip | src/frontend/src/components/PhotoDetail.tsx:35-36 | Saving the original preset again restores the original record. Saving twice equals saving the second preset once |
| PhotoDetail.DownloadName | src/frontend/src/components/PhotoDetail.tsx:44 | The file name is 12 characters longer than the id |
| PhotoDetail.DownloadNameRoundTrip | src/frontend/src/components/PhotoDetail.tsx:44 | The file name has the form "snappro_" + id + ".jpg", and the id can be read back from it |
| PhotoDetail.DeleteActions | src/frontend/src/components/PhotoDetail.tsx:50-55 | Without confirmation nothing happens. With confirmation the photo is deleted by its id and then the screen goes back |
| PhotoDetail.PhotoEditor.constructor | src/frontend/src/components/PhotoDetail.tsx:20-25 | The editor opens with the photo's own preset, brightness 100, contrast 100 and no "saved" feedback |
| PhotoDetail.PhotoEditor.Preview | src/frontend/src/components/PhotoDetail.tsx:91-96 | The edited photo's preview is brightness then contrast for Normal, and the preset followed by both otherwise |
| PhotoDetail.PhotoEditor.ChooseFilter | src/frontend/src/components/PhotoDetail.tsx:109-113 | The strip's choice becomes the active preset |
| PhotoDetail.PhotoEditor.SetBrightness | src/frontend/src/components/PhotoDetail.tsx:122-127 | Brightness takes the slider value and stays within 50..150 |
| PhotoDetail.PhotoEditor.SetContrast | src/frontend/src/components/PhotoDetail.tsx:138-143 | Contrast takes the slider value and stays within 50..150 |
| PhotoDetail.PhotoEditor.Save | src/frontend/src/components/PhotoDetail.tsx:35-39 | Hands back the photo with only the active preset replaced, so brightness and contrast are never written. Shows the "saved" feedback |
| PhotoDetail.PhotoEditor.SavedFeedbackElapsed | src/frontend/src/components/PhotoDetail.tsx:38 | The "saved" feedback ends |
| PhotoDetail.PhotoEditor.Delete | src/frontend/src/components/PhotoDetail.tsx:50-55 | The requests sent to the host are exactly DeleteActions for the photo's id |
| App.Trim | src/frontend/src/App.tsx:24-26 | The mirror holds the last min(n, 30) photos in their original order, and all of them when n is at most 30 |
| App.TrimDropsOldest | src/frontend/src/App.tsx:24-26 | With 31 photos only the oldest one is dropped |
| App.TrimAppend | src/frontend/src/App.tsx:40-46 | Trimming after each append gives the same mirror as trimming the whole history |
| App.LoadPhotos | src/frontend/src/App.tsx:12-20 | Start-up reads the stored list, or the empty list when the slot holds nothing usable |
| App.SaveLoadRoundTrip | src/frontend/src/App.tsx:12-30 | Loading a saved mirror gives back exactly the trimmed list, which has at most 30 photos |
| App.RemoveById | src/frontend/src/App.tsx:53-55 | The result holds exactly the photos whose id differs, and is no longer than the input |
| App.RemoveByIdAppend | src/frontend/src/App.tsx:54 | Deleting distributes over concatenation, so the photos that remain keep their order |
| App.RemoveByIdAbsent | src/frontend/src/App.tsx:54 | Deleting an id that no photo has changes nothing |
| App.RemoveByIdIdempotent | src/frontend/src/App.tsx:54 | Deleting twice is the same as deleting once |
| App.ReplaceById | src/frontend/src/App.tsx:57-58 | Keeps the length. Each photo with the updated id becomes the updated record, and every other photo stays as it was |
| App.ReplaceByIdProperties | src/frontend/src/App.tsx:58 | Saving is idempotent, and saving a record whose id no photo has changes nothing |
| App.SaveEditKeepsStore | src/frontend/src/App.tsx:57-59 | Saving an edit of a stored photo changes only the preset of the entries with that id |
| App.Rendered | src/frontend/src/App.tsx:70-96 | The detail screen shows exactly when the view is detail and a photo is selected, and it shows that photo |
| App.App.Screen | src/frontend/src/App.tsx:70-96 | While the invariant holds, some screen is always rendered, and in the detail view it is the selected photo |
| App.NavigationEdges | src/frontend/src/App.tsx:70-96 | The only view changes are camera to gallery, camera to QR, QR to camera, gallery to camera, gallery to detail and detail to gallery |
| App.App.constructor | src/frontend/src/App.tsx:33-42 | Starts on the camera view with no selection and the stored photos, then mirrors them |
| App.App.Persist | src/frontend/src/App.tsx:22-30 | A successful write stores the newest 30 photos; a failed write leaves the slot as it was |
| App.App.HandlePhotoCapture | src/frontend/src/App.tsx:44-46 | Appends the photo at the end: the length grows by one, earlier photos are unchanged, and the new photo becomes the gallery thumbnail |
| App.App.HandleSelectPhoto | src/frontend/src/App.tsx:48-51 | Offered only while the gallery is shown; selects the photo and switches to the detail view, along a wired navigation edge |
| App.App.HandleDeletePhoto | src/frontend/src/App.tsx:53-55 | The store becomes RemoveById of the old store, and it is mirrored |
| App.App.HandleSavePhoto | src/frontend/src/App.tsx:57-60 | The store becomes ReplaceById of the old store, the updated record becomes the selection, and the store is mirrored |
| App.App.Navigate | src/frontend/src/App.tsx:74-92 | A callback of the current screen switches to its target view along a wired navigation edge, and the detail view always has a selection |
| App.App.DeleteFromDetail | src/frontend/src/App.tsx:89-95 | Confirmed: deletes the selected photo and returns to the gallery. Not confirmed: nothing changes. The view change is a wired navigation edge |
| QRScanner.Lower | src/frontend/src/components/QRScannerView.tsx:20 | Case folding for the case-insensitive match: only 'A'..'Z' change, each to its lower-case letter |
| QRScanner.IsUrl | src/frontend/src/components/QRScannerView.tsx:19-21 | A link is at least 7 characters long, starts with h or H, has p or P as its fourth letter, and has ":" or an s or S next. IsUrlIffSchemePrefix gives the exact condition |
| QRScanner.IsUrlIffSchemePrefix | src/frontend/src/components/QRScannerView.tsx:19-21 | A text counts as a link exactly when it begins with "http://" or "https://", in any letter case |
| QRScanner.IsUrlAnchored | src/frontend/src/components/QRScannerView.tsx:20 | The match starts at the first character: a text that starts with anything but h or H is not a link, whatever follows |
| QRScanner.Latest | src/frontend/src/components/QRScannerView.tsx:76 | The latest result is the first one in the list, and there is none when the list is empty |
| QRScanner.Recent | src/frontend/src/components/QRScannerView.tsx:446 | The recent list is the results after the first one, in order |
| QRScanner.LatestAndRecentPartition | src/frontend/src/components/QRScannerView.tsx:76 | The latest result followed by the recent list is the whole list |
| QRScanner.PanelFor | src/frontend/src/components/QRScannerView.tsx:350-535 | "Open" shows exactly when the latest result is a link. Recent shows exactly when there are at least 2 results, with count length - 1. Start shows exactly when not scanning and Stop otherwise. Clear shows exactly when there is a result |
| QRScanner.StartXorStop | src/frontend/src/components/QRScannerView.tsx:494-522 | Exactly one of Start and Stop is offered |
| QRScanner.HintFor | src/frontend/src/components/QRScannerView.tsx:279-285 | Exactly one hint is chosen, in this priority: decoder not loaded, camera loading, scanning with an active camera, then idle |
| QRScanner.HintText | src/frontend/src/components/QRScannerView.tsx:279-285 | Every hint has a non-empty message |
| QRScanner.HintTextsDistinct | src/frontend/src/components/QRScannerView.tsx:279-285 | Different hints have different messages |
| QRScanner.OverlayMatchesHint | src/frontend/src/components/QRScannerView.tsx:289-301 | The loading overlay shows exactly when one of the two loading hints is chosen |

## Left out

- The camera and QR scanner hooks are not part of this model. Stream acquisition, camera switching, frame sampling, QR decoding, and the scanner's result cap and duplicate suppression live there. Their outcomes enter as parameters (`SetStreamActive`, `frameReady`, `streamReady`, the result list, the loading and scanning flags).
- Canvas work is left out because it is platform drawing: frame size, drawing with the filter, the Portrait vignette gradient and JPEG encoding (CameraView.tsx:145-175). The encoded image is the `dataUrl` parameter.
- The media recorder is left out because it is platform I/O: chunk collection and the WebM download (CameraView.tsx:226-262). Only its success (`recorderOk`) and the flags it sets are modelled.
- The shutter flash, the zoom levels and their scale factors, the grid, the settings panel and mute are left out. They are presentation state that no modelled property depends on, and the zoom factors are floating point.
- Clipboard copy, the "copied" feedback, `confirm` (its answer is `confirmed`), toasts and the time-of-day labels are platform calls.
- Local storage and JSON are left out. The slot is an abstract optional list: absent, empty or unreadable data is `None`, and a failed write is `writeOk == false`.
- Timers are left out. Each interval or timeout firing is a method call (`Tick`, `RecordingTick`, `SavedFeedbackElapsed`), and unmount cleanup (CameraView.tsx:90-95) is not modelled.
- The unsupported-browser and error screens of the camera (CameraView.tsx:301 onward) and of the QR scanner (QRScannerView.tsx:79-113 and from line 116), with their retry and back buttons, are left out because they are hook outcomes. `QRScanner.PanelFor` and `QRScanner.HintFor` describe only the main scanning screen.
- Random and clock-based photo ids and timestamps are parameters.
- The gallery grid and the mode strip are presentation; only the camera mode type is used.
- Camera.VideoFilter: the Pro term renders 2^exposure with two decimals through the parameter `render`, because that is floating point. Only where the term goes and when it appears are proved.
- ProControls.FormatExposure: exposure is kept as whole tenths of a stop, the slider's step. The browser's rounding of other fractions is not modelled.
- ProControls.FormatShutter: the slider index is a whole number, so the rounding of a fractional index is not modelled.
- Text.FixedText: matches the browser's number-to-text conversion only for magnitudes below 10^21 with at most two decimals, which covers every value the app renders.
- Camera.CaptureController.PressShutter: the disabled-button guard (CameraView.tsx:718) is part of the press. An async capture still in flight while another press arrives cannot happen in the model, because the capture has no await and finishes before the next event.
