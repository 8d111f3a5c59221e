/** The shared mutable record of pi/src/modules/state.py, and the outside world the controller writes to. */
module State {
  import opened Wrappers
  import opened Records

  /** `AppState`: the singleton every module of the controller reads and writes. */
  class AppState {
    var currFrame: Option<Frame>
    var prevFrame: Option<Frame>
    var useDummyImages: bool
    var activeImages: seq<Frame>
    var currentImageIndex: nat
    var currentBuzzEvent: Option<BuzzEvent>
    var lastMilaEndTime: Option<real>
    var safetyBufferActive: bool
    var currentVisit: Visit
    /** Whether the GPIO library was found (`gpio` is not None). */
    var gpio: bool

    /** The invariant every operation keeps: the visit slot is all-set or all-None,
        and an open buzz event has no end time yet. */
    ghost predicate Valid()
      reads this
    {
      && currentVisit.WellFormed()
      && (currentBuzzEvent.Some? ==> currentBuzzEvent.value.endTime.None?)
    }

    constructor ()
      ensures Valid()
      ensures currFrame == None && prevFrame == None
      ensures !useDummyImages && activeImages == [] && currentImageIndex == 0
      ensures currentBuzzEvent == None
      ensures lastMilaEndTime == None && !safetyBufferActive
      ensures currentVisit == NO_VISIT && !currentVisit.IsOpen()
      ensures !gpio
    {
      currFrame, prevFrame := None, None;
      useDummyImages, activeImages, currentImageIndex := false, [], 0;
      currentBuzzEvent := None;
      lastMilaEndTime, safetyBufferActive := None, false;
      currentVisit := Visit(None, None, None);
      gpio := false;
    }
  }

  /** The effects the controller has outside its own state, each as the sequence of what was sent or written. */
  class Sinks {
    /** Visits handed to the reporting sink, in order. */
    var reports: seq<VisitReport>
    /** The list stored in buzzers.json. */
    var buzzLog: seq<BuzzEvent>
    /** The list stored in tests.json. */
    var testsLog: seq<TestCase>
    /** Every write to the vibration pin, true for HIGH. */
    var pinWrites: seq<bool>
    /** The "safety buffer is now ON/OFF" log lines, true for ON. */
    var bufferLog: seq<bool>

    constructor (buzzers: seq<BuzzEvent>, tests: seq<TestCase>)
      ensures reports == [] && buzzLog == buzzers && testsLog == tests
      ensures pinWrites == [] && bufferLog == []
    {
      reports, buzzLog, testsLog := [], buzzers, tests;
      pinWrites, bufferLog := [], [];
    }
  }
}
