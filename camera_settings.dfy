/**
 * Choice of the camera's focus mode, flash mode and colour effect: each is the
 * first value, in a fixed order of preference, that the camera reports as
 * supported; a camera that reports no list supports nothing.
 */
module CameraSettings {
  import opened Options

  /** Values of the camera's focus-mode, flash-mode and colour-effect parameters. */
  const FocusModeAuto := "auto"
  const FocusModeContinuousPicture := "continuous-picture"
  const FocusModeContinuousVideo := "continuous-video"
  const FocusModeMacro := "macro"
  const FocusModeEdof := "edof"
  const FlashModeTorch := "torch"
  const FlashModeOn := "on"
  const FlashModeOff := "off"
  const EffectNegative := "negative"

  /** `desired[k]` is supported and no desired value before it is. */
  ghost predicate IsFirstSupported(supported: seq<string>, desired: seq<string>, k: int) {
    && 0 <= k < |desired|
    && desired[k] in supported
    && forall j :: 0 <= j < k ==> desired[j] !in supported
  }

  /**
   * The first of the desired values, in their order, that the supported
   * values contain; `None` when there is no supported list or no such value.
   */
  function SettableValue(supported: Option<seq<string>>, desired: seq<string>): (r: Option<string>)
    ensures r.None? <==> supported.None? || forall i :: 0 <= i < |desired| ==> desired[i] !in supported.value
    ensures r.Some? ==> exists k :: IsFirstSupported(supported.value, desired, k) && r.value == desired[k]
  {
    if supported.None? || desired == [] then
      None
    else if desired[0] in supported.value then
      assert IsFirstSupported(supported.value, desired, 0);
      Some(desired[0])
    else
      var r := SettableValue(supported, desired[1..]);
      assert r.Some? ==> forall k :: IsFirstSupported(supported.value, desired[1..], k) ==>
        IsFirstSupported(supported.value, desired, k + 1);
      r
  }

  /** The lookup done by iterating over the desired values. */
  method FindSettableValue(supported: Option<seq<string>>, desired: seq<string>) returns (result: Option<string>)
    ensures result == SettableValue(supported, desired)
  {
    result := None;
    if supported.Some? {
      for i := 0 to |desired|
        invariant result.None?
        invariant SettableValue(supported, desired) == SettableValue(supported, desired[i..])
      {
        if desired[i] in supported.value {
          result := Some(desired[i]);
          break;
        }
        assert desired[i..][1..] == desired[i + 1..];
      }
    }
  }

  /** Looking up `a + b` is looking up `a`, and `b` only when nothing in `a` is supported. */
  lemma {:induction false} SettableValueConcat(supported: Option<seq<string>>, a: seq<string>, b: seq<string>)
    ensures SettableValue(supported, a + b) ==
      if SettableValue(supported, a).Some? then SettableValue(supported, a) else SettableValue(supported, b)
  {
    if supported.Some? && a != [] {
      assert (a + b)[0] == a[0];
      if a[0] !in supported.value {
        assert (a + b)[1..] == a[1..] + b;
        SettableValueConcat(supported, a[1..], b);
      }
    } else if a == [] {
      assert a + b == b;
    }
  }

  // ---------------------------------------------------------------------------
  // Focus mode
  // ---------------------------------------------------------------------------

  /**
   * The focus mode to set, or `None` to leave it as it is. `autoFocus` and
   * `disableContinuousFocus` are the user's preferences (by default on and
   * off); in safe mode most settings are not honoured.
   */
  function FocusModeChoice(autoFocus: bool, disableContinuousFocus: bool, safeMode: bool,
                           supported: Option<seq<string>>): (r: Option<string>)
    ensures r.Some? ==> supported.Some? && r.value in supported.value
    ensures safeMode ==> r.None? || r == Some(FocusModeAuto)
    ensures r == Some(FocusModeAuto) ==> autoFocus
    ensures r == Some(FocusModeContinuousPicture) || r == Some(FocusModeContinuousVideo) ==>
      autoFocus && !safeMode && !disableContinuousFocus
    ensures r == Some(FocusModeContinuousVideo) ==> FocusModeContinuousPicture !in supported.value
    ensures r == Some(FocusModeMacro) || r == Some(FocusModeEdof) ==>
      && !safeMode
      && (autoFocus ==> FocusModeAuto !in supported.value)
      && (autoFocus && !disableContinuousFocus ==>
            FocusModeContinuousPicture !in supported.value && FocusModeContinuousVideo !in supported.value)
    ensures r == Some(FocusModeEdof) ==> FocusModeMacro !in supported.value
    ensures (autoFocus && !safeMode && !disableContinuousFocus && supported.Some?
             && FocusModeContinuousPicture in supported.value) ==> r == Some(FocusModeContinuousPicture)
    ensures (autoFocus && (safeMode || disableContinuousFocus) && supported.Some?
             && FocusModeAuto in supported.value) ==> r == Some(FocusModeAuto)
  {
    var preferred :=
      if !autoFocus then None
      else if safeMode || disableContinuousFocus then SettableValue(supported, [FocusModeAuto])
      else SettableValue(supported, [FocusModeContinuousPicture, FocusModeContinuousVideo, FocusModeAuto]);
    if !safeMode && preferred.None? then
      assert autoFocus && supported.Some? ==>
        && FocusModeAuto !in supported.value
        && (!disableContinuousFocus ==>
              FocusModeContinuousPicture !in supported.value && FocusModeContinuousVideo !in supported.value) by {
        if autoFocus && supported.Some? {
          var modes := if safeMode || disableContinuousFocus then [FocusModeAuto]
                       else [FocusModeContinuousPicture, FocusModeContinuousVideo, FocusModeAuto];
          assert modes[|modes| - 1] == FocusModeAuto;
          assert |modes| == 3 ==> modes[0] == FocusModeContinuousPicture && modes[1] == FocusModeContinuousVideo;
        }
      }
      SettableValue(supported, [FocusModeMacro, FocusModeEdof])
    else
      preferred
  }

  /** Every focus mode the choice may try, most preferred first. */
  function FocusModePreferences(autoFocus: bool, disableContinuousFocus: bool, safeMode: bool): seq<string> {
    (if !autoFocus then []
     else if safeMode || disableContinuousFocus then [FocusModeAuto]
     else [FocusModeContinuousPicture, FocusModeContinuousVideo, FocusModeAuto])
    + (if safeMode then [] else [FocusModeMacro, FocusModeEdof])
  }

  /**
   * The two-stage choice (the preferred modes, then the macro fallback) is a
   * single lookup in one order of preference; in particular no mode is chosen
   * exactly when none of the modes in that order is supported.
   */
  lemma FocusModeChoiceIsOneLookup(autoFocus: bool, disableContinuousFocus: bool, safeMode: bool,
                                   supported: Option<seq<string>>)
    ensures FocusModeChoice(autoFocus, disableContinuousFocus, safeMode, supported)
         == SettableValue(supported, FocusModePreferences(autoFocus, disableContinuousFocus, safeMode))
  {
    var first :=
      if !autoFocus then []
      else if safeMode || disableContinuousFocus then [FocusModeAuto]
      else [FocusModeContinuousPicture, FocusModeContinuousVideo, FocusModeAuto];
    var fallback := if safeMode then [] else [FocusModeMacro, FocusModeEdof];
    SettableValueConcat(supported, first, fallback);
  }

  // ---------------------------------------------------------------------------
  // Flash mode and torch state
  // ---------------------------------------------------------------------------

  /** A flash mode in which the light is on. */
  predicate TorchLit(flashMode: Option<string>) {
    flashMode == Some(FlashModeOn) || flashMode == Some(FlashModeTorch)
  }

  /** The flash mode that switches the torch to `newSetting`, or `None` to leave it as it is. */
  function FlashModeChoice(supported: Option<seq<string>>, newSetting: bool): (r: Option<string>)
    ensures r.Some? ==> supported.Some? && r.value in supported.value
    ensures r.Some? ==> TorchLit(r) == newSetting
    ensures newSetting ==> r.None? || r == Some(FlashModeTorch) || r == Some(FlashModeOn)
    ensures !newSetting ==> r.None? || r == Some(FlashModeOff)
    ensures newSetting && supported.Some? && FlashModeTorch in supported.value ==> r == Some(FlashModeTorch)
    ensures r.None? <==> (|| supported.None?
                          || (newSetting && FlashModeTorch !in supported.value && FlashModeOn !in supported.value)
                          || (!newSetting && FlashModeOff !in supported.value))
  {
    if newSetting then
      var wanted := [FlashModeTorch, FlashModeOn];
      assert wanted[0] == FlashModeTorch && wanted[1] == FlashModeOn;
      SettableValue(supported, wanted)
    else
      SettableValue(supported, [FlashModeOff])
  }

  // ---------------------------------------------------------------------------
  // Colour effect
  // ---------------------------------------------------------------------------

  /** The colour effect to set for an inverted scan, or `None` to leave it as it is. */
  function ColorEffectChoice(invertScan: bool, supported: Option<seq<string>>): (r: Option<string>)
    ensures r.Some? <==> invertScan && supported.Some? && EffectNegative in supported.value
    ensures r.Some? ==> r.value == EffectNegative
  {
    if invertScan then SettableValue(supported, [EffectNegative]) else None
  }
}
