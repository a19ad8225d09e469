/**
 * The camera configuration manager: it reads the screen size and picks the
 * camera's preview size once, then writes the preview size, focus mode, flash
 * mode and colour effect into the camera's parameters, and switches the torch.
 */
module CameraConfiguration {
  import opened Options
  import opened PreviewSizes
  import opened CameraSettings

  /** The parameters of a camera: what it supports and what is currently set. */
  class CameraParameters {
    var supportedPreviewSizes: Option<seq<Size>>
    var previewSize: Size
    var supportedFocusModes: Option<seq<string>>
    var focusMode: string
    var supportedFlashModes: Option<seq<string>>
    var flashMode: Option<string>
    var supportedColorEffects: Option<seq<string>>
    var colorEffect: string

    constructor (supportedPreviewSizes: Option<seq<Size>>, previewSize: Size,
                 supportedFocusModes: Option<seq<string>>, focusMode: string,
                 supportedFlashModes: Option<seq<string>>, flashMode: Option<string>,
                 supportedColorEffects: Option<seq<string>>, colorEffect: string)
      ensures this.supportedPreviewSizes == supportedPreviewSizes && this.previewSize == previewSize
      ensures this.supportedFocusModes == supportedFocusModes && this.focusMode == focusMode
      ensures this.supportedFlashModes == supportedFlashModes && this.flashMode == flashMode
      ensures this.supportedColorEffects == supportedColorEffects && this.colorEffect == colorEffect
    {
      this.supportedPreviewSizes := supportedPreviewSizes;
      this.previewSize := previewSize;
      this.supportedFocusModes := supportedFocusModes;
      this.focusMode := focusMode;
      this.supportedFlashModes := supportedFlashModes;
      this.flashMode := flashMode;
      this.supportedColorEffects := supportedColorEffects;
      this.colorEffect := colorEffect;
    }
  }

  /** A camera device; `parameters` is null when the device reports none. */
  class Camera {
    var parameters: CameraParameters?

    constructor (parameters: CameraParameters?)
      ensures this.parameters == parameters
    {
      this.parameters := parameters;
    }
  }

  /** The user's preferences that the configuration reads. */
  datatype Preferences = Preferences(
    autoFocus: bool,              // stored default: true
    disableContinuousFocus: bool, // stored default: false
    invertScan: bool,             // stored default: false
    frontLightOn: bool)           // the front-light mode is "on"

  class CameraConfigurationManager {
    /** Both are null until InitFromCameraParameters has run. */
    var screenSize: Option<Size>
    var cameraSize: Option<Size>

    constructor ()
      ensures screenSize.None? && cameraSize.None?
    {
      screenSize := None;
      cameraSize := None;
    }

    /**
     * Records the screen size and picks the preview size for it, turned to
     * landscape first, since preview sizes are reported in landscape.
     */
    method InitFromCameraParameters(camera: Camera, displayWidth: int, displayHeight: int)
      requires camera.parameters != null
      requires displayWidth > 0 && displayHeight > 0
      modifies this
      ensures screenSize == Some(Size(displayWidth, displayHeight))
      ensures cameraSize.Some?
      ensures IsBestPreviewSize(camera.parameters.supportedPreviewSizes, camera.parameters.previewSize,
                                Landscape(Size(displayWidth, displayHeight)), cameraSize.value)
    {
      var parameters := camera.parameters;
      screenSize := Some(Size(displayWidth, displayHeight));
      var screenSizeForCamera := Size(displayWidth, displayHeight);
      if screenSizeForCamera.width < screenSizeForCamera.height {
        screenSizeForCamera := Size(screenSizeForCamera.height, screenSizeForCamera.width);
      }
      var best := FindBestPreviewSize(parameters.supportedPreviewSizes, parameters.previewSize, screenSizeForCamera);
      cameraSize := Some(best);
    }

    /**
     * Writes the torch, focus mode, colour effect and preview size into the
     * camera's parameters; with no parameters, nothing is configured.
     */
    method SetDesiredCameraParameters(camera: Camera, safeMode: bool, prefs: Preferences)
      requires camera.parameters != null ==> cameraSize.Some?
      modifies camera.parameters
      ensures camera.parameters != null ==>
        var p := camera.parameters;
        && p.flashMode == (var m := FlashModeChoice(old(p.supportedFlashModes), prefs.frontLightOn);
                           if m.Some? then m else old(p.flashMode))
        && p.focusMode == (match FocusModeChoice(prefs.autoFocus, prefs.disableContinuousFocus, safeMode,
                                                 old(p.supportedFocusModes))
                           case Some(m) => m
                           case None => old(p.focusMode))
        && p.colorEffect == (match ColorEffectChoice(prefs.invertScan, old(p.supportedColorEffects))
                             case Some(e) => e
                             case None => old(p.colorEffect))
        && p.previewSize == cameraSize.value
        && p.supportedPreviewSizes == old(p.supportedPreviewSizes)
        && p.supportedFocusModes == old(p.supportedFocusModes)
        && p.supportedFlashModes == old(p.supportedFlashModes)
        && p.supportedColorEffects == old(p.supportedColorEffects)
    {
      var parameters := camera.parameters;
      if parameters == null {
        return;
      }
      DoSetTorch(parameters, prefs.frontLightOn, safeMode);

      var focusMode := FindFocusMode(parameters.supportedFocusModes, prefs, safeMode);
      if focusMode.Some? {
        parameters.focusMode := focusMode.value;
      }

      if prefs.invertScan {
        var colorMode := FindSettableValue(parameters.supportedColorEffects, [EffectNegative]);
        if colorMode.Some? {
          parameters.colorEffect := colorMode.value;
        }
      }

      parameters.previewSize := cameraSize.value;
    }

    /**
     * The focus mode to set: with auto-focus on, continuous focus (unless safe
     * mode or the preference rules it out) or else auto; outside safe mode,
     * when nothing was found, macro or extended depth of field.
     */
    method FindFocusMode(supportedFocusModes: Option<seq<string>>, prefs: Preferences, safeMode: bool)
      returns (focusMode: Option<string>)
      ensures focusMode == FocusModeChoice(prefs.autoFocus, prefs.disableContinuousFocus, safeMode, supportedFocusModes)
    {
      focusMode := None;
      if prefs.autoFocus {
        if safeMode || prefs.disableContinuousFocus {
          focusMode := FindSettableValue(supportedFocusModes, [FocusModeAuto]);
        } else {
          focusMode := FindSettableValue(supportedFocusModes,
            [FocusModeContinuousPicture, FocusModeContinuousVideo, FocusModeAuto]);
        }
      }
      // Auto-focus may be wanted but not available: fall back here.
      if !safeMode && focusMode.None? {
        focusMode := FindSettableValue(supportedFocusModes, [FocusModeMacro, FocusModeEdof]);
      }
    }

    /** Whether the camera's light is on. */
    function TorchState(camera: Camera?): (on: bool)
      reads camera, if camera != null && camera.parameters != null then {camera.parameters} else {}
      ensures on ==> camera != null && camera.parameters != null
    {
      camera != null && camera.parameters != null && TorchLit(camera.parameters.flashMode)
    }

    /** Switches the torch, and the torch state then reads as the new setting when the camera supports it. */
    method SetTorch(camera: Camera, newSetting: bool)
      requires camera.parameters != null
      modifies camera.parameters`flashMode
      ensures camera.parameters.flashMode ==
        (var m := FlashModeChoice(camera.parameters.supportedFlashModes, newSetting);
         if m.Some? then m else old(camera.parameters.flashMode))
      ensures TorchState(camera) ==
        if FlashModeChoice(camera.parameters.supportedFlashModes, newSetting).Some? then newSetting
        else old(TorchState(camera))
    {
      DoSetTorch(camera.parameters, newSetting, false);
    }

    /**
     * Sets the flash mode that turns the light on (torch, else on) or off.
     * `safeMode` is accepted but not used.
     */
    method DoSetTorch(parameters: CameraParameters, newSetting: bool, safeMode: bool)
      modifies parameters`flashMode
      ensures parameters.flashMode ==
        (var m := FlashModeChoice(parameters.supportedFlashModes, newSetting);
         if m.Some? then m else old(parameters.flashMode))
    {
      var flashMode: Option<string>;
      if newSetting {
        flashMode := FindSettableValue(parameters.supportedFlashModes, [FlashModeTorch, FlashModeOn]);
      } else {
        flashMode := FindSettableValue(parameters.supportedFlashModes, [FlashModeOff]);
      }
      if flashMode.Some? {
        parameters.flashMode := flashMode;
      }
    }
  }
}
