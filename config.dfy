/** The settings of pi/src/config.py that the control loop reads, gathered into one value. */
module Config {

  const MILA: string := "Mila"
  const NOVA: string := "Nova"
  /** The classifier's background label. */
  const NONE_LABEL: string := "None"

  datatype Settings = Settings(
    classLabels: seq<string>,             // CLASS_LABELS
    confidenceThreshold: real,            // CONFIDENCE_THRESHOLD
    switchDetectionTime: real,            // SWITCH_DETECTION_TIME, seconds
    verifyTimes: nat,                     // VERIFY_TIMES
    visitTimeout: real,                   // VISIT_TIMEOUT, seconds
    enableVibration: bool,                // ENABLE_VIBRATION
    detectionTimeout: real,               // DETECTION_TIMEOUT, seconds
    safetyBuffer: real,                   // SAFETY_BUFFER, seconds
    lowConfidenceThreshold: real,         // LOW_CONFIDENCE_THRESHOLD
    secondThirdConfidenceThreshold: real  // SECOND_THIRD_CONFIDENCE_THRESHOLD
  )
  {
    /** The labels key a dictionary, so they must be distinct; `max` over an empty dictionary fails. */
    predicate LabelsOk() {
      && |classLabels| > 0
      && Distinct(classLabels)
    }
  }

  /** Entries a and b of xs differ. */
  predicate Differ(xs: seq<string>, a: nat, b: nat)
    requires a < |xs| && b < |xs|
  {
    xs[a] != xs[b]
  }

  /** No entry of xs occurs twice. */
  predicate Distinct(xs: seq<string>) {
    forall a, b :: 0 <= a < b < |xs| ==> Differ(xs, a, b)
  }

  /** The values shipped in config.py. */
  const DEFAULT: Settings := Settings(
    [MILA, NOVA, NONE_LABEL], 90.0, 1.0, 2, 40.0, false, 2.0, 120.0, 95.0, 25.0)
}
