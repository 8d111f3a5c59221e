/** pi/src/modules/visits.py: the single-slot visit state machine. */
module Visits {
  import opened Wrappers
  import opened Config
  import opened Records
  import opened State
  import opened Vibration

  const MILA_REGISTERED: string := "Mila registered"
  const NOVA_SUPPRESSED: string := "Nova suppressed due to Mila's buffer"
  const NOVA_REGISTERED: string := "Nova registered"
  const NO_DETECTION: string := "No detection"

  /** What finalize_visit hands to the reporting sink: the open visit, and nothing when none is open. */
  function Reported(v: Visit): (r: seq<VisitReport>)
    requires v.WellFormed()
    ensures |r| <= 1
    ensures r != [] <==> v.IsOpen()
    ensures r != [] ==> r[0] == VisitReport(v.dog.value, v.startTime.value, v.endTime.value)
  {
    if v.dog.Some? then [VisitReport(v.dog.value, v.startTime.value, v.endTime.value)] else []
  }

  /** The slot after update_visit(dog): the same dog extends its visit, any other slot content is replaced
      by a fresh visit of `dog`. Either way exactly one visit, of `dog`, is open afterwards. */
  function Updated(v: Visit, dog: string, now: real): (r: Visit)
    requires v.WellFormed()
    ensures r.WellFormed() && r.IsOpen() && r.dog == Some(dog) && r.endTime == Some(now)
    ensures v.dog == Some(dog) ==> r.startTime == v.startTime
    ensures v.dog != Some(dog) ==> r.startTime == Some(now)
  {
    if v.dog == Some(dog) then v.(endTime := Some(now))
    else Visit(Some(dog), Some(now), Some(now))
  }

  /** What update_visit(dog) reports: the visit it displaces, if that was another dog's. */
  function Displaced(v: Visit, dog: string): (r: seq<VisitReport>)
    requires v.WellFormed()
    ensures v.dog == Some(dog) ==> r == []
    ensures v.dog != Some(dog) ==> r == Reported(v)
  {
    if v.dog == Some(dog) then [] else Reported(v)
  }

  /** Whether register_detection(dog) registers a visit: Mila always, Nova only outside Mila's buffer. */
  predicate Registers(dog: string, bufferActive: bool) {
    dog == MILA || (dog == NOVA && !bufferActive)
  }

  /** The string register_detection returns. */
  function DetectionResult(dog: string, bufferActive: bool): (r: string)
    ensures r in {MILA_REGISTERED, NOVA_SUPPRESSED, NOVA_REGISTERED, NO_DETECTION}
    ensures r == MILA_REGISTERED <==> dog == MILA
    ensures r == NOVA_REGISTERED <==> dog == NOVA && !bufferActive
    ensures r == NOVA_SUPPRESSED <==> dog == NOVA && bufferActive
    ensures r in {MILA_REGISTERED, NOVA_REGISTERED} <==> Registers(dog, bufferActive)
  {
    if dog == MILA then MILA_REGISTERED
    else if dog == NOVA then (if bufferActive then NOVA_SUPPRESSED else NOVA_REGISTERED)
    else NO_DETECTION
  }

  /** The visit slot after register_detection(dog): updated when the detection registers, untouched otherwise. */
  function VisitAfterDetection(v: Visit, dog: string, bufferActive: bool, now: real): (r: Visit)
    requires v.WellFormed()
    ensures r.WellFormed()
    ensures Registers(dog, bufferActive) ==> r.dog == Some(dog) && r.endTime == Some(now)
    ensures !Registers(dog, bufferActive) ==> r == v
  {
    if Registers(dog, bufferActive) then Updated(v, dog, now) else v
  }

  /** The visits register_detection(dog) reports: the other dog's visit it displaces, if it registers. */
  function ReportsOfDetection(v: Visit, dog: string, bufferActive: bool): (r: seq<VisitReport>)
    requires v.WellFormed()
    ensures |r| <= 1
    ensures r != [] <==> Registers(dog, bufferActive) && v.IsOpen() && v.dog != Some(dog)
  {
    if Registers(dog, bufferActive) then Displaced(v, dog) else []
  }

  /** With a clock that does not run backwards, an update keeps the visit ordered and never moves its end earlier. */
  lemma UpdatedKeepsOrder(v: Visit, dog: string, now: real)
    requires v.Ordered()
    requires v.IsOpen() ==> v.endTime.value <= now
    ensures Updated(v, dog, now).Ordered()
    ensures v.dog == Some(dog) ==> v.endTime.value <= Updated(v, dog, now).endTime.value
  {
  }

  /** Finalizing a second time reports nothing more. */
  lemma FinalizeIdempotent(v: Visit)
    requires v.WellFormed()
    ensures Reported(NO_VISIT) == []
  {
  }

  /** finalize_visit: reports the open visit, if any, and empties the slot. */
  method FinalizeVisit(st: AppState, sinks: Sinks)
    requires st.Valid()
    modifies st`currentVisit, sinks`reports
    ensures st.Valid()
    ensures st.currentVisit == NO_VISIT
    ensures sinks.reports == old(sinks.reports) + Reported(old(st.currentVisit))
  {
    if st.currentVisit.dog.Some? {
      sinks.reports := sinks.reports +
        [VisitReport(st.currentVisit.dog.value, st.currentVisit.startTime.value, st.currentVisit.endTime.value)];
    }
    // Reset the current visit
    st.currentVisit := Visit(None, None, None);
  }

  /** new_visit: the slot holds a visit of `dog` that starts and ends now. */
  method NewVisit(st: AppState, dog: string, now: real)
    modifies st`currentVisit
    ensures st.currentVisit == Visit(Some(dog), Some(now), Some(now))
  {
    st.currentVisit := st.currentVisit.(dog := Some(dog));
    st.currentVisit := st.currentVisit.(startTime := Some(now));
    st.currentVisit := st.currentVisit.(endTime := Some(now));
  }

  /** update_visit: extend the same dog's visit, or finalize the slot and open a new visit. */
  method UpdateVisit(st: AppState, sinks: Sinks, dog: string, now: real)
    requires st.Valid()
    modifies st`currentVisit, sinks`reports
    ensures st.Valid()
    ensures st.currentVisit == Updated(old(st.currentVisit), dog, now)
    ensures sinks.reports == old(sinks.reports) + Displaced(old(st.currentVisit), dog)
  {
    if Some(dog) == st.currentVisit.dog {
      st.currentVisit := st.currentVisit.(endTime := Some(now));
    } else {
      FinalizeVisit(st, sinks);
      NewVisit(st, dog, now);
    }
  }

  /** register_detection: Mila always registers and silences the buzzer; Nova registers and buzzes
      unless the safety buffer is active, in which case nothing at all changes; other labels change nothing. */
  method RegisterDetection(st: AppState, sinks: Sinks, cfg: Settings, dog: string, now: real)
    returns (result: string)
    requires st.Valid()
    modifies st`lastMilaEndTime, st`currentBuzzEvent, st`currentVisit
    modifies sinks`reports, sinks`buzzLog, sinks`pinWrites
    ensures st.Valid()
    ensures dog == MILA ==>
              && result == MILA_REGISTERED
              && st.lastMilaEndTime == Some(now)
              && st.currentBuzzEvent == BuzzAfter(old(st.currentBuzzEvent), Off, now)
              && sinks.buzzLog == old(sinks.buzzLog) + BuzzClosed(old(st.currentBuzzEvent), Off, now)
              && sinks.pinWrites == old(sinks.pinWrites) + PinWrite(st.gpio, st.safetyBufferActive, Off, cfg.enableVibration)
              && st.currentVisit == Updated(old(st.currentVisit), dog, now)
              && sinks.reports == old(sinks.reports) + Displaced(old(st.currentVisit), dog)
    ensures dog == NOVA && st.safetyBufferActive ==>
              && result == NOVA_SUPPRESSED
              && unchanged(st)
              && unchanged(sinks)
    ensures dog == NOVA && !st.safetyBufferActive ==>
              && result == NOVA_REGISTERED
              && st.lastMilaEndTime == old(st.lastMilaEndTime)
              && st.currentBuzzEvent == BuzzAfter(old(st.currentBuzzEvent), On, now)
              && sinks.buzzLog == old(sinks.buzzLog)
              && sinks.pinWrites == old(sinks.pinWrites) + PinWrite(st.gpio, st.safetyBufferActive, On, cfg.enableVibration)
              && st.currentVisit == Updated(old(st.currentVisit), dog, now)
              && sinks.reports == old(sinks.reports) + Displaced(old(st.currentVisit), dog)
    ensures dog != MILA && dog != NOVA ==>
              && result == NO_DETECTION
              && unchanged(st)
              && unchanged(sinks)
  {
    if dog == MILA {
      // Record Mila's detection and disable vibration
      st.lastMilaEndTime := Some(now);
      ControlVibration(st, sinks, cfg, Off, now);
      UpdateVisit(st, sinks, dog, now);
      return MILA_REGISTERED;
    } else if dog == NOVA {
      // Suppress Nova detection while Mila's safety buffer is active
      if st.safetyBufferActive {
        return NOVA_SUPPRESSED;
      }
      ControlVibration(st, sinks, cfg, On, now);
      UpdateVisit(st, sinks, dog, now);
      return NOVA_REGISTERED;
    } else {
      return NO_DETECTION;
    }
  }
}
