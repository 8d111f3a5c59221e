/** The value records the controller keeps and writes out (dictionaries in the source). */
module Records {
  import opened Wrappers

  /** A camera image; its pixels play no part in the controller. */
  datatype Frame = Frame(id: nat)

  /** Python truthiness of an optional string: None and "" are false. */
  predicate Truthy(s: Option<string>) {
    s.Some? && s.value != ""
  }

  /** `current_visit`: three fields that are all None when no visit is open. */
  datatype Visit = Visit(dog: Option<string>, startTime: Option<real>, endTime: Option<real>)
  {
    predicate IsOpen() {
      dog.Some?
    }

    /** Either all three fields are set or none is. */
    predicate WellFormed() {
      if dog.Some? then startTime.Some? && endTime.Some? else startTime.None? && endTime.None?
    }

    /** An open visit does not end before it starts. */
    predicate Ordered() {
      WellFormed() && (IsOpen() ==> startTime.value <= endTime.value)
    }
  }

  const NO_VISIT: Visit := Visit(None, None, None)

  /** What `send_visit_to_api` receives. */
  datatype VisitReport = VisitReport(dog: string, startTime: real, endTime: real)

  /** One frame of a buzz event, with its confidence values for the three labels. */
  datatype BuzzFrame = BuzzFrame(image: Frame, confidenceValues: map<string, real>)

  /** `current_buzz_event` and the entries of buzzers.json. */
  datatype BuzzEvent = BuzzEvent(startTime: real, endTime: Option<real>, frames: seq<BuzzFrame>)

  /** The buzzer side of the controller as one value: the open buzz event, the list stored in
      buzzers.json and the writes to the vibration pin (true for HIGH). */
  datatype Buzzer = Buzzer(event: Option<BuzzEvent>, log: seq<BuzzEvent>, pins: seq<bool>)

  /** The entries of `triggered_tests`. */
  datatype Finding =
    | RapidSwitching
    | LowConfidence(confidence: real)
    | MixedConfidence
    | NovaSuppressed

  /** An entry of tests.json. */
  datatype TestCase = TestCase(
    image: Frame,
    timestamp: real,
    confidenceValues: map<string, real>,
    triggeredTests: seq<Finding>,
    dog: string)
}
