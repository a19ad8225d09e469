# Camera configuration of the ZXing barcode scanner, in Dafny

This project models the parameter-selection logic of `CameraConfigurationManager`,
the class that configures the camera of the ZXing Android barcode scanner:

- **Preview size.** The supported preview sizes are sorted by pixel area, largest
  first. Sizes whose area lies outside [470·320, 1920·1080] are dropped. Each
  remaining size is turned to landscape before it is compared. The first size
  that then equals the landscape screen size is returned as the device reported
  it. Otherwise the size whose landscape aspect ratio is closest to the screen's
  is returned, the earliest one on ties. With no list, or nothing in range, the
  camera's current preview size is kept.
- **Screen size.** The screen size is turned to landscape (width and height
  exchanged when the width is the smaller) before the preview size is chosen.
- **Settable values.** A lookup returns the first desired value, in order, that
  the camera supports, or null.
- **Focus, flash and colour effect.** These are chosen with that lookup from the
  auto-focus and continuous-focus preferences, safe mode, the torch setting and
  the invert-scan preference. The torch state reads the flash mode.

Modules:
- `Options` (options.dfy): `Option`, standing for a Java reference that may be null.
- `PreviewSizes` (preview_sizes.dfy): `Size`, the area filter, the landscape turn,
  the stable sort by area, and the specification `IsBestPreviewSize` of the
  chosen size. Also the loop `FindBestPreviewSize` proved against it, and the
  lemmas about the selection.
- `CameraSettings` (camera_settings.dfy): `SettableValue` and its loop
  `FindSettableValue`, plus the focus-mode, flash-mode and colour-effect choices.
- `CameraConfiguration` (camera_configuration.dfy): the classes
  `CameraParameters`, `Camera` and `CameraConfigurationManager`. The manager's
  methods update the parameters in place.

Aspect ratios are exact rationals (`real`). Pixel areas are unbounded integers.

## Model

| member | source | states |
|---|---|---|
| `PreviewSizes.Landscape` | Zxing/src/com/google/zxing/client/android/camera/CameraConfigurationManager.java:76-81 | the result is in landscape (width ≥ height); it is the size itself when that is already landscape, otherwise the size with width and height exchanged; the area is unchanged |
| `PreviewSizes.SortByAreaSorted` | Zxing/src/com/google/zxing/client/android/camera/CameraConfigurationManager.java:223-233 | the sorted copy has non-increasing pixel area and is a permutation of the supported sizes |
| `PreviewSizes.SortByAreaIsStable` | Zxing/src/com/google/zxing/client/android/camera/CameraConfigurationManager.java:226-233 | the sort is stable: for every area, the sizes of that area appear in the same order as in the device's list |
| `PreviewSizes.FindBestPreviewSize` | Zxing/src/com/google/zxing/client/android/camera/CameraConfigurationManager.java:214-284 | with no list the result is the default size; if some in-range sorted size is, in landscape, equal to the target, the result is the first such size in sorted order, as reported; otherwise, if some size is in range, the result is the in-range size that is strictly closer in aspect ratio than every earlier in-range size and no farther than every later one; otherwise the default size |
| `PreviewSizes.BestPreviewSizeIsUnique` | Zxing/src/com/google/zxing/client/android/camera/CameraConfigurationManager.java:245-283 | the specification of the chosen size admits exactly one size, so the selection is deterministic |
| `PreviewSizes.BestPreviewSizeInRangeOrDefault` | Zxing/src/com/google/zxing/client/android/camera/CameraConfigurationManager.java:249-280 | if some supported size is in the pixel range, the result is a supported size in the range; if none is, the result is the default size |
| `PreviewSizes.ExactMatchIsChosen` | Zxing/src/com/google/zxing/client/android/camera/CameraConfigurationManager.java:256-266 | when some supported size is an exact landscape match for the target, the result is one, in the orientation the device reported |
| `PreviewSizes.WidescreenPrefersWidescreenSize` | Zxing/src/com/google/zxing/client/android/camera/CameraConfigurationManager.java:246-273 | of 640x480 and 1280x720, a 1920x1080 screen gets 1280x720 |
| `PreviewSizes.PortraitSizeMatchesExactly` | Zxing/src/com/google/zxing/client/android/camera/CameraConfigurationManager.java:256-266 | a 480x640 size is an exact match for a 640x480 screen and is returned as 480x640 |
| `PreviewSizes.SmallSizeIsFilteredOut` | Zxing/src/com/google/zxing/client/android/camera/CameraConfigurationManager.java:249-273 | of 1920x1080, 640x480 and 320x240, a 480x320 screen gets 640x480: 320x240 is below the range and 640x480 is closer to 3:2 |
| `CameraSettings.SettableValue` | Zxing/src/com/google/zxing/client/android/camera/CameraConfigurationManager.java:286-300 | the result is null exactly when there is no supported list or no desired value is supported; otherwise it is a desired value that is supported, and every desired value before it is unsupported |
| `CameraSettings.FindSettableValue` | Zxing/src/com/google/zxing/client/android/camera/CameraConfigurationManager.java:286-300 | the loop with its early exit returns the first supported desired value, as `SettableValue` describes |
| `CameraSettings.SettableValueConcat` | Zxing/src/com/google/zxing/client/android/camera/CameraConfigurationManager.java:286-300 | looking up a list `a + b` gives the answer for `a`, or the answer for `b` when nothing in `a` is supported |
| `CameraSettings.FocusModeChoice` | Zxing/src/com/google/zxing/client/android/camera/CameraConfigurationManager.java:106-125 | a chosen mode is supported; in safe mode only "auto" can be chosen; "auto" is chosen only with auto-focus on; continuous modes are chosen only with auto-focus on, safe mode off and continuous focus not disabled, and then "continuous-picture" is chosen whenever it is supported, "continuous-video" only when it is not; "macro" or "edof" is chosen only outside safe mode and only when every mode tried before it is unsupported ("auto" and, unless continuous focus is disabled, both continuous modes, when auto-focus is on; "macro" before "edof"); with auto-focus on and safe mode or continuous focus disabled, a supported "auto" is chosen |
| `CameraSettings.FocusModeChoiceIsOneLookup` | Zxing/src/com/google/zxing/client/android/camera/CameraConfigurationManager.java:106-125 | the two-stage choice, preferred modes and then the macro fallback, equals a single lookup over one preference order; so no mode is chosen exactly when none in that order is supported |
| `CameraSettings.FlashModeChoice` | Zxing/src/com/google/zxing/client/android/camera/CameraConfigurationManager.java:183-196 | a chosen mode is supported and lights the torch exactly when the new setting is on; on chooses "torch" when supported, else "on"; off chooses "off"; nothing is chosen exactly when the wanted modes are all unsupported or there is no list |
| `CameraSettings.ColorEffectChoice` | Zxing/src/com/google/zxing/client/android/camera/CameraConfigurationManager.java:130-137 | the "negative" effect is chosen exactly when the scan is inverted and the camera supports it; nothing else is chosen |
| `CameraConfiguration.CameraConfigurationManager.constructor` | Zxing/src/com/google/zxing/client/android/camera/CameraConfigurationManager.java:54-60 | screen and camera sizes start out null |
| `CameraConfiguration.CameraConfigurationManager.InitFromCameraParameters` | Zxing/src/com/google/zxing/client/android/camera/CameraConfigurationManager.java:65-85 | the screen size is recorded as given; the camera size is the preview size chosen for the screen size turned to landscape |
| `CameraConfiguration.CameraConfigurationManager.SetDesiredCameraParameters` | Zxing/src/com/google/zxing/client/android/camera/CameraConfigurationManager.java:88-148 | with no parameters nothing changes; otherwise the flash mode, focus mode and colour effect become the chosen values or stay as they were when nothing was chosen, the preview size becomes the camera size, and the supported lists are unchanged |
| `CameraConfiguration.CameraConfigurationManager.FindFocusMode` | Zxing/src/com/google/zxing/client/android/camera/CameraConfigurationManager.java:106-125 | the statement sequence of lookups yields `FocusModeChoice` |
| `CameraConfiguration.CameraConfigurationManager.TorchState` | Zxing/src/com/google/zxing/client/android/camera/CameraConfigurationManager.java:158-169 | the torch reads as on only for a camera that has parameters |
| `CameraConfiguration.CameraConfigurationManager.SetTorch` | Zxing/src/com/google/zxing/client/android/camera/CameraConfigurationManager.java:171-175 | only the flash mode may change: it becomes the chosen mode, or stays as it was when none of the wanted modes is supported; the torch state then equals the new setting when a wanted mode is supported, and is unchanged otherwise |
| `CameraConfiguration.CameraConfigurationManager.DoSetTorch` | Zxing/src/com/google/zxing/client/android/camera/CameraConfigurationManager.java:183-206 | the flash mode becomes the chosen mode, or stays as it was when none of the wanted modes is supported; nothing else changes |

## Left out

- Android platform calls are reduced to values. `Camera.getParameters`/`setParameters` become in-place updates of `Camera.parameters`. `DisplayMetrics` becomes two integer arguments. `Parameters.flatten` is not modelled.
- The display-orientation call (`setDisplayOrientation(90)`) is left out, along with its reflection-based fallback and the API-level test. They are host-API shims with no value to model.
- `SharedPreferences` and `FrontLightMode.readPref` are not modelled. The preferences arrive as the `Preferences` value, and the front-light mode arrives as a boolean.
- Logging and the string of supported sizes are left out. They are diagnostic output only.
- The commented-out exposure code in `doSetTorch` is not part of the model. So the `safeMode` argument of `DoSetTorch` is unused, as it is in the source.
- `getCameraResolution` and `getScreenSize` are not separate members. They only return the fields `cameraSize` and `screenSize`, which callers read directly.
- The `Size` class and its in-place `exchange` are not part of this model. `Size` is a value, and exchanging width and height builds a new value.
- `PreviewSizes.SortByAreaDescending` stands in for `Collections.sort`. It is a stable insertion sort over a sequence, not the library's in-place merge sort over a list copy. Only the result is captured: sorted by non-increasing area, a permutation, and stable.
- `PreviewSizes.FindBestPreviewSize`: aspect ratios and their differences are exact rationals, not 32-bit floats. Float rounding and ties that exist only in float arithmetic are not modelled. The method also requires a positive target height. The caller always passes a positive one, and the source's infinite ratio for a zero height is not modelled.
- `PreviewSizes.Area`: pixel areas are unbounded integers. A 32-bit overflow of `width * height`, or of the comparator's `bPixels - aPixels`, is not modelled. Real preview sizes are far below the overflow bound.
- `CameraConfiguration.CameraConfigurationManager.InitFromCameraParameters`: requires positive display dimensions and parameters that are present. The source dereferences the parameters without a check.
- `CameraConfiguration.CameraConfigurationManager.SetDesiredCameraParameters`: requires the camera size to have been chosen when the camera has parameters. Called before `InitFromCameraParameters`, the source fails with a null-pointer exception when it sets the preview size; that failure is not modelled.
- `CameraConfiguration.CameraConfigurationManager.SetTorch`: requires the camera to have parameters. With none, the source fails with a null-pointer exception when it reads the supported flash modes; that failure is not modelled.
- `CameraConfiguration.CameraConfigurationManager.TorchState`: its own contract states only the null checks. The meaning of the flash-mode test is stated through `SetTorch` and `FlashModeChoice`, where the chosen mode lights the torch exactly when the setting is on.
- An error for zero or negative dimensions is not modelled. The source code has no such error and does not check dimensions; the model follows the code.
