/** The capture modes offered by the mode strip. */
module Modes {

  datatype CameraMode =
    | Photo | Video | Portrait | Night | Panorama | SlowMo | TimeLapse | Pro
}
