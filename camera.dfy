/**
 * The camera screen's capture controller: the live filter expression, the
 * flash and timer cyclers, the recording-duration label, the self-timer
 * countdown, the single-in-flight capture guard and the record/stop toggle.
 *
 * Rasterising the frame, the flash animation, the media recorder and the
 * interval timers are platform calls: their outcomes enter as parameters
 * (`frameReady`, `streamReady`, `recorderOk`) and each timer firing is an
 * explicit method call (`Tick`, `RecordingTick`).
 */
module Camera {
  import opened Wrappers
  import opened Text
  import opened Filters
  import opened Modes
  import opened ProControls

  /** A captured still. `dataUrl` is the encoded image, opaque here. */
  datatype CapturedPhoto = CapturedPhoto(id: string, dataUrl: string, mode: CameraMode, filter: FilterName, timestamp: int)

  datatype FlashMode = FlashOff | FlashAuto | FlashOn

  datatype TimerMode = TimerOff | Timer3s | Timer10s

  // ---------------------------------------------------------------- filter

  const NightBoost := "brightness(1.3) contrast(0.9)"

  /**
   * The Pro exposure term; `render` stands for the browser's rendering of
   * 2^(tenths/10) with two decimals, which is floating point and not modelled.
   */
  function ExposureTerm(tenths: int, render: int -> string): string
  {
    "brightness(" + render(tenths) + ")"
  }

  /** Adds `term` after `base`, or replaces `base` when it is the no-op "none". */
  function AppendTerm(base: string, term: string): string
  {
    if base == "none" then term else base + " " + term
  }

  /** The CSS filter of the live preview for a mode, a preset and the Pro exposure. */
  function VideoFilter(mode: CameraMode, filter: FilterName, exposure: int, render: int -> string): (r: string)
    ensures mode != Night && (mode != Pro || exposure == 0) ==> r == Effect(filter)
    ensures mode == Night ==> r == if filter == Normal then NightBoost else Effect(filter) + " " + NightBoost
    ensures mode == Pro && exposure != 0 ==>
      r == if filter == Normal then ExposureTerm(exposure, render) else Effect(filter) + " " + ExposureTerm(exposure, render)
  {
    var base := Effect(filter);
    var withNight := if mode == Night then AppendTerm(base, NightBoost) else base;
    if mode == Pro && exposure != 0 then AppendTerm(withNight, ExposureTerm(exposure, render)) else withNight
  }

  /**
   * The same filter described as an ordered list of effect terms: the preset
   * (absent for Normal), then the mode's augmentation.
   */
  function EffectTerms(mode: CameraMode, filter: FilterName, exposure: int, render: int -> string): seq<string>
  {
    (if filter == Normal then [] else [Effect(filter)])
    + (if mode == Night then [NightBoost] else [])
    + (if mode == Pro && exposure != 0 then [ExposureTerm(exposure, render)] else [])
  }

  /** An empty term list is written "none"; otherwise the terms are joined by single spaces. */
  function RenderTerms(terms: seq<string>): string
  {
    if terms == [] then "none" else Join(terms, " ")
  }

  /** The composed string is exactly the ordered term list, base first and augmentation last. */
  lemma VideoFilterIsTermList(mode: CameraMode, filter: FilterName, exposure: int, render: int -> string)
    ensures VideoFilter(mode, filter, exposure, render) == RenderTerms(EffectTerms(mode, filter, exposure, render))
  {
    var terms := EffectTerms(mode, filter, exposure, render);
    if filter != Normal && (mode == Night || (mode == Pro && exposure != 0)) {
      assert |terms| == 2 && terms[1..] == [terms[1]];
      assert Join(terms, " ") == terms[0] + " " + terms[1];
      assert Effect(filter) != "none";
    }
  }

  // ---------------------------------------------------------------- cyclers

  /** The flash button: off, auto, on, and back to off. */
  function NextFlash(m: FlashMode): (r: FlashMode)
    ensures r != m
    ensures r == FlashOff <==> m == FlashOn
  {
    match m
    case FlashOff => FlashAuto
    case FlashAuto => FlashOn
    case FlashOn => FlashOff
  }

  /** The timer button: off, 3s, 10s, and back to off. */
  function NextTimer(t: TimerMode): (r: TimerMode)
    ensures r != t
    ensures r == TimerOff <==> t == Timer10s
  {
    match t
    case TimerOff => Timer3s
    case Timer3s => Timer10s
    case Timer10s => TimerOff
  }

  /** Each cycler visits all three settings and is back at its start after exactly three presses. */
  lemma CyclesHavePeriodThree(m: FlashMode, t: TimerMode)
    ensures NextFlash(m) != m && NextFlash(NextFlash(m)) != m && NextFlash(NextFlash(NextFlash(m))) == m
    ensures {m, NextFlash(m), NextFlash(NextFlash(m))} == {FlashOff, FlashAuto, FlashOn}
    ensures NextTimer(t) != t && NextTimer(NextTimer(t)) != t && NextTimer(NextTimer(NextTimer(t))) == t
    ensures {t, NextTimer(t), NextTimer(NextTimer(t))} == {TimerOff, Timer3s, Timer10s}
  {
  }

  // ---------------------------------------------------------------- duration label

  /** Two-digit zero padding of a count (wider when the count needs it). */
  function Pad2(n: nat): (r: string)
    ensures AllDigits(r) && Value(r) == n
    ensures |r| >= 2 && (n < 100 ==> |r| == 2)
    ensures |r| > 2 ==> r[0] != '0'
  {
    var s := NatText(n);
    NatTextRoundTrip(n);
    if |s| >= 2 then s
    else
      ValueLeadingZero(s);
      assert PadStart(s, 2, '0') == "0" + s;
      PadStart(s, 2, '0')
  }

  /** The recording duration as "mm:ss"; minutes widen past 99. */
  function FormatDuration(secs: nat): (r: string)
    ensures secs < 6000 ==> |r| == 5
    ensures |r| > 5 ==> r[0] != '0'
    ensures |r| >= 5 && r[|r| - 3] == ':'
    ensures AllDigits(r[..|r| - 3]) && AllDigits(r[|r| - 2..])
    ensures Value(r[..|r| - 3]) == secs / 60 && Value(r[|r| - 2..]) == secs % 60
    ensures Value(r[..|r| - 3]) * 60 + Value(r[|r| - 2..]) == secs
  {
    var m, s := Pad2(secs / 60), Pad2(secs % 60);
    var r := m + ":" + s;
    assert r[..|r| - 3] == m && r[|r| - 2..] == s;
    r
  }

  // ---------------------------------------------------------------- gallery thumbnail

  /** The photo the gallery button shows: the newest one, i.e. the last in the store. */
  function LastPhoto(photos: seq<CapturedPhoto>): (r: Option<CapturedPhoto>)
    ensures r.None? <==> photos == []
    ensures r.Some? ==> r.value == photos[|photos| - 1]
  {
    if |photos| > 0 then Some(photos[|photos| - 1]) else None
  }

  // ---------------------------------------------------------------- capture

  /**
   * What a capture sees of the screen state: whether the stream is active,
   * whether a capture is in flight, and the mode and preset to record.
   */
  datatype Context = Context(active: bool, capturing: bool, mode: CameraMode, filter: FilterName)

  /**
   * The outcome of one capture attempt. `frameReady` says the video element,
   * the canvas and its 2D context were all available.
   */
  function CaptureResult(ctx: Context, frameReady: bool, id: string, dataUrl: string, timestamp: int): (r: Option<CapturedPhoto>)
    ensures r.Some? <==> ctx.active && !ctx.capturing && frameReady
    ensures r.Some? ==> r.value.mode == ctx.mode && r.value.filter == ctx.filter
    ensures r.Some? ==> r.value.id == id && r.value.dataUrl == dataUrl && r.value.timestamp == timestamp
  {
    if !ctx.active || ctx.capturing || !frameReady then None
    else Some(CapturedPhoto(id, dataUrl, ctx.mode, ctx.filter, timestamp))
  }

  // ---------------------------------------------------------------- countdown

  function TimerSeconds(t: TimerMode): nat
    requires t != TimerOff
  {
    if t == Timer3s then 3 else 10
  }

  /**
   * The self-timer: idle, or counting down with the seconds left and the
   * capture context the countdown was started with (the interval callback
   * keeps the screen state of the moment the shutter was pressed).
   */
  datatype Countdown = Idle | Counting(remaining: nat, ctx: Context)

  /** The number shown over the preview. */
  function Shown(c: Countdown): Option<nat>
  {
    match c
    case Idle => None
    case Counting(r, _) => Some(r)
  }

  /** One interval firing: the next countdown state and the context of the capture it triggers, if any. */
  function CountdownTick(c: Countdown): (r: (Countdown, Option<Context>))
    ensures r.1.Some? <==> c.Counting? && c.remaining <= 1
    ensures r.1.Some? ==> r.1.value == c.ctx && r.0 == Idle
    ensures c.Counting? && c.remaining > 1 ==> r.0 == Counting(c.remaining - 1, c.ctx)
    ensures c.Idle? ==> r.0 == Idle
  {
    match c
    case Idle => (Idle, None)
    case Counting(r, ctx) =>
      if r - 1 <= 0 then (Idle, Some(ctx)) else (Counting(r - 1, ctx), None)
  }

  /** `n` interval firings: the final state, what was shown after each, and the captures triggered. */
  function RunTicks(c: Countdown, n: nat): (Countdown, seq<Option<nat>>, seq<Context>)
    decreases n
  {
    if n == 0 then (c, [], [])
    else
      var (c1, fired) := CountdownTick(c);
      var (c2, shown, captures) := RunTicks(c1, n - 1);
      (c2, [Shown(c1)] + shown, (if fired.Some? then [fired.value] else []) + captures)
  }

  /** An idle countdown never fires and shows nothing. */
  lemma {:induction false} IdleNeverFires(n: nat)
    ensures RunTicks(Idle, n).0 == Idle && RunTicks(Idle, n).2 == []
    ensures |RunTicks(Idle, n).1| == n && forall i :: 0 <= i < n ==> RunTicks(Idle, n).1[i] == None
  {
    if n > 0 {
      IdleNeverFires(n - 1);
    }
  }

  /**
   * Started at `s`, the countdown shows s-1, ..., 1 on the following ticks,
   * and on tick `s` it disappears and triggers exactly one capture, with the
   * context it was started with; later ticks do nothing.
   */
  lemma {:induction false} CountdownFiresOnce(s: nat, ctx: Context, n: nat)
    requires s >= 1
    ensures RunTicks(Counting(s, ctx), n).0 == if n < s then Counting(s - n, ctx) else Idle
    ensures |RunTicks(Counting(s, ctx), n).1| == n
    ensures forall i :: 0 <= i < n ==> RunTicks(Counting(s, ctx), n).1[i] == if i + 1 < s then Some(s - i - 1) else None
    ensures RunTicks(Counting(s, ctx), n).2 == if n < s then [] else [ctx]
    decreases n
  {
    if n > 0 {
      if s == 1 {
        IdleNeverFires(n - 1);
      } else {
        CountdownFiresOnce(s - 1, ctx, n - 1);
        var shown := RunTicks(Counting(s, ctx), n).1;
        assert shown == [Some(s - 1)] + RunTicks(Counting(s - 1, ctx), n - 1).1;
      }
    }
  }

  // ---------------------------------------------------------------- controller

  class CaptureController {
    var isActive: bool
    var mode: CameraMode
    var filter: FilterName
    var flash: FlashMode
    var timer: TimerMode
    var pro: ProSettings
    var isCapturing: bool
    var countdown: Countdown
    var isRecording: bool
    var recordingDuration: nat
    var hasRecorder: bool
    var recordingTimer: bool

    /**
     * Between events no capture is in flight, a running countdown has at
     * least one second left, and the recorder, its duration timer and the
     * recording flag are set and cleared together.
     */
    ghost predicate Valid()
      reads this
    {
      && !isCapturing
      && ValidSettings(pro)
      && (countdown.Counting? ==> countdown.remaining >= 1)
      && hasRecorder == isRecording
      && recordingTimer == isRecording
      && (!isRecording ==> recordingDuration == 0)
    }

    constructor(active: bool)
      ensures Valid()
      ensures isActive == active && mode == Photo && filter == Normal
      ensures flash == FlashOff && timer == TimerOff && pro == DefaultSettings
      ensures countdown == Idle && !isRecording && recordingDuration == 0
    {
      isActive := active;
      mode, filter := Photo, Normal;
      flash, timer := FlashOff, TimerOff;
      pro := DefaultSettings;
      isCapturing := false;
      countdown := Idle;
      isRecording, recordingDuration := false, 0;
      hasRecorder, recordingTimer := false, false;
      DefaultSettingsValid();
    }

    function CurrentContext(): Context
      reads this
    {
      Context(isActive, isCapturing, mode, filter)
    }

    /** The live preview's filter. */
    function PreviewFilter(render: int -> string): (r: string)
      reads this
      ensures r == RenderTerms(EffectTerms(mode, filter, pro.exposure, render))
    {
      VideoFilterIsTermList(mode, filter, pro.exposure, render);
      VideoFilter(mode, filter, pro.exposure, render)
    }

    /** The shutter button is disabled without a stream, during a capture and during a countdown. */
    function ShutterEnabled(): (r: bool)
      reads this
      ensures r <==> countdown.Idle? && CaptureResult(CurrentContext(), true, "", "", 0).Some?
    {
      isActive && !isCapturing && countdown.Idle?
    }

    /** The camera stream became active or inactive. */
    method SetStreamActive(active: bool)
      modifies this`isActive
      ensures isActive == active
    {
      isActive := active;
    }

    method SetMode(m: CameraMode)
      modifies this`mode
      ensures mode == m
    {
      mode := m;
    }

    method SetFilter(f: FilterName)
      modifies this`filter
      ensures filter == f
    {
      filter := f;
    }

    method CycleFlash()
      modifies this`flash
      ensures flash == NextFlash(old(flash))
    {
      flash := NextFlash(flash);
    }

    method CycleTimer()
      modifies this`timer
      ensures timer == NextTimer(old(timer))
    {
      timer := NextTimer(timer);
    }

    /** A Pro slider moved. */
    method ChangeProSetting(f: Field, v: int)
      requires Valid() && InRange(f, v)
      modifies this`pro
      ensures Valid()
      ensures pro == OnSliderChange(old(pro), f, v)
    {
      pro := OnSliderChange(pro, f, v);
    }

    /**
     * One capture attempt with the given context: nothing happens when the
     * stream is inactive or a capture is in flight; otherwise the in-flight
     * flag is raised for the attempt and lowered again on every way out.
     */
    method DoCapture(ctx: Context, frameReady: bool, id: string, dataUrl: string, timestamp: int)
      returns (photo: Option<CapturedPhoto>)
      requires Valid()
      modifies this`isCapturing
      ensures Valid()
      ensures photo == CaptureResult(ctx, frameReady, id, dataUrl, timestamp)
    {
      if !ctx.active || ctx.capturing {
        return None;
      }
      isCapturing := true;
      if !frameReady {
        photo := None;
      } else {
        photo := Some(CapturedPhoto(id, dataUrl, ctx.mode, ctx.filter, timestamp));
      }
      isCapturing := false;
    }

    /**
     * Starts a recording when a stream is available and the platform
     * recorder starts (`recorderOk`); otherwise nothing changes.
     */
    method StartRecording(streamReady: bool, recorderOk: bool)
      requires Valid()
      modifies this`isRecording, this`recordingDuration, this`hasRecorder, this`recordingTimer
      ensures Valid()
      ensures if old(isActive) && streamReady && recorderOk
        then isRecording && recordingDuration == 0
        else isRecording == old(isRecording) && recordingDuration == old(recordingDuration)
    {
      if !streamReady || !isActive {
        return;
      }
      if !recorderOk {
        return;
      }
      hasRecorder := true;
      isRecording := true;
      recordingDuration := 0;
      recordingTimer := true;
    }

    /** Stops the recording: no recorder, no duration timer, not recording, duration zero. */
    method StopRecording()
      requires Valid()
      modifies this`isRecording, this`recordingDuration, this`hasRecorder, this`recordingTimer
      ensures Valid()
      ensures !isRecording && recordingDuration == 0 && !hasRecorder && !recordingTimer
    {
      if hasRecorder && isRecording {
        hasRecorder := false;
      }
      if recordingTimer {
        recordingTimer := false;
      }
      isRecording := false;
      recordingDuration := 0;
    }

    /** The recording-duration timer fired. */
    method RecordingTick()
      requires Valid()
      modifies this`recordingDuration
      ensures Valid()
      ensures recordingDuration == if isRecording then old(recordingDuration) + 1 else old(recordingDuration)
    {
      if recordingTimer {
        recordingDuration := recordingDuration + 1;
      }
    }

    /**
     * A press of the shutter button. Disabled, it does nothing. In Video
     * mode it toggles recording. Otherwise it captures at once when the timer
     * is off, or starts the countdown from 3 or 10 seconds.
     */
    method PressShutter(frameReady: bool, streamReady: bool, recorderOk: bool,
                        id: string, dataUrl: string, timestamp: int)
      returns (photo: Option<CapturedPhoto>)
      requires Valid()
      modifies this`isCapturing, this`countdown, this`isRecording, this`recordingDuration,
               this`hasRecorder, this`recordingTimer
      ensures Valid()
      ensures !old(ShutterEnabled()) ==>
        photo == None && countdown == old(countdown) && isRecording == old(isRecording)
        && recordingDuration == old(recordingDuration)
      ensures old(ShutterEnabled()) && mode == Video ==>
        photo == None && countdown == old(countdown)
        && (old(isRecording) ==> !isRecording && recordingDuration == 0 && !hasRecorder)
        && (!old(isRecording) ==> isRecording == (streamReady && recorderOk) && recordingDuration == 0)
      ensures old(ShutterEnabled()) && mode != Video && timer == TimerOff ==>
        photo == CaptureResult(old(CurrentContext()), frameReady, id, dataUrl, timestamp)
        && countdown == old(countdown) && isRecording == old(isRecording)
        && recordingDuration == old(recordingDuration)
      ensures old(ShutterEnabled()) && mode != Video && timer != TimerOff ==>
        photo == None && countdown == Counting(TimerSeconds(timer), old(CurrentContext()))
        && isRecording == old(isRecording) && recordingDuration == old(recordingDuration)
    {
      photo := None;
      if !ShutterEnabled() {
        return;
      }
      if mode == Video {
        if isRecording {
          StopRecording();
        } else {
          StartRecording(streamReady, recorderOk);
        }
        return;
      }
      if timer == TimerOff {
        photo := DoCapture(CurrentContext(), frameReady, id, dataUrl, timestamp);
        return;
      }
      countdown := Counting(TimerSeconds(timer), CurrentContext());
    }

    /** The countdown interval fired; on its last firing it captures with the remembered context. */
    method Tick(frameReady: bool, id: string, dataUrl: string, timestamp: int)
      returns (photo: Option<CapturedPhoto>)
      requires Valid()
      modifies this`isCapturing, this`countdown
      ensures Valid()
      ensures countdown == CountdownTick(old(countdown)).0
      ensures photo == match CountdownTick(old(countdown)).1
        case None => None
        case Some(ctx) => CaptureResult(ctx, frameReady, id, dataUrl, timestamp)
    {
      var (next, fired) := CountdownTick(countdown);
      countdown := next;
      photo := None;
      if fired.Some? {
        photo := DoCapture(fired.value, frameReady, id, dataUrl, timestamp);
      }
    }
  }
}
