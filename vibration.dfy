/** pi/src/modules/vibration.py: the vibration pin and the buzz-event bookkeeping tied to its intents. */
module Vibration {
  import opened Wrappers
  import opened Config
  import opened Records
  import opened State
  import Testing

  /** The `position` argument: "on", or anything else (the callers pass "off"). */
  datatype Position = On | Off

  /** The buzz event open after an intent: "on" opens one unless one is open, "off" closes it. */
  function BuzzAfter(event: Option<BuzzEvent>, position: Position, now: real): (r: Option<BuzzEvent>)
    ensures position == On ==> r.Some? && (event.Some? ==> r == event)
    ensures position == On && event.None? ==> r == Some(BuzzEvent(now, None, []))
    ensures position == Off ==> r.None?
  {
    match position
    case On => if event.None? then Some(BuzzEvent(now, None, [])) else event
    case Off => None
  }

  /** The buzz events an intent appends to buzzers.json: only an "off" that closes an open event adds one. */
  function BuzzClosed(event: Option<BuzzEvent>, position: Position, now: real): (r: seq<BuzzEvent>)
    ensures |r| <= 1
    ensures r != [] <==> position == Off && event.Some?
    ensures r != [] ==> r[0] == event.value.(endTime := Some(now))
  {
    if position == Off && event.Some? then [event.value.(endTime := Some(now))] else []
  }

  /** The pin writes of one intent, true for HIGH. The safety buffer blocks both levels;
      the enable flag blocks only HIGH. */
  function PinWrite(gpio: bool, bufferActive: bool, position: Position, enableVibration: bool): (w: seq<bool>)
    ensures |w| <= 1
    ensures w != [] && w[0] <==> gpio && !bufferActive && position == On && enableVibration
    ensures w != [] && !w[0] <==> gpio && !bufferActive && position == Off
    ensures w == [] <==> !gpio || bufferActive || (position == On && !enableVibration)
  {
    if !gpio || bufferActive then []
    else match position
      case On => if enableVibration then [true] else []
      case Off => [false]
  }

  /** The buzzer after one control_vibration(position) call: the event and the log move as
      BuzzAfter and BuzzClosed say, and the pin is written as PinWrite says. */
  function Control(b: Buzzer, position: Position, gpio: bool, bufferActive: bool, enableVibration: bool,
                   now: real): Buzzer
  {
    Buzzer(BuzzAfter(b.event, position, now),
           b.log + BuzzClosed(b.event, position, now),
           b.pins + PinWrite(gpio, bufferActive, position, enableVibration))
  }

  /** The module's import-time setup: with the GPIO library present the pin starts LOW. */
  method SetUpGpio(st: AppState, sinks: Sinks, available: bool)
    requires st.Valid()
    modifies st`gpio, sinks`pinWrites
    ensures st.Valid()
    ensures st.gpio == available
    ensures sinks.pinWrites == old(sinks.pinWrites) + (if available then [false] else [])
  {
    st.gpio := available;
    if available {
      sinks.pinWrites := sinks.pinWrites + [false];
    }
  }

  /** control_vibration: buzz bookkeeping from the intent alone, then the guarded pin write. */
  method ControlVibration(st: AppState, sinks: Sinks, cfg: Settings, position: Position, now: real)
    requires st.Valid()
    modifies st`currentBuzzEvent, sinks`buzzLog, sinks`pinWrites
    ensures st.Valid()
    ensures st.currentBuzzEvent == BuzzAfter(old(st.currentBuzzEvent), position, now)
    ensures sinks.buzzLog == old(sinks.buzzLog) + BuzzClosed(old(st.currentBuzzEvent), position, now)
    ensures sinks.pinWrites == old(sinks.pinWrites) + PinWrite(st.gpio, st.safetyBufferActive, position, cfg.enableVibration)
  {
    // For buzz reporting only
    if position == On {
      if st.currentBuzzEvent.None? {
        Testing.StartBuzzEvent(st, now);
      }
    } else {
      if st.currentBuzzEvent.Some? {
        Testing.EndBuzzEvent(st, sinks, now);
      }
    }

    // Main evaluation
    if !st.gpio {
      return;
    }
    if st.safetyBufferActive {
      return;
    }
    if position == On {
      if !cfg.enableVibration {
        return;
      }
      sinks.pinWrites := sinks.pinWrites + [true];
    } else {
      sinks.pinWrites := sinks.pinWrites + [false];
    }
  }
}
