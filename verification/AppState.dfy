/** Pausing and resuming the blocking logic. */
module AppStates {
  import opened Prelude

  datatype Control = Pause(at: nat, duration: nat) | Resume(at: nat)

  /** Blocking is inactive exactly while a deadline is set and lies ahead. */
  predicate Active(pausedUntil: Option<nat>, now: nat) {
    pausedUntil.None? || pausedUntil.value <= now
  }

  /** The last control is a pause whose time has not run out. */
  predicate PausedBy(history: seq<Control>, now: nat) {
    history != [] &&
    var last := history[|history| - 1];
    last.Pause? && now < last.at + last.duration
  }

  /** The deadline cell that these controls leave behind. */
  function DeadlineOf(history: seq<Control>): Option<nat> {
    if history == [] then None
    else
      match history[|history| - 1]
      case Pause(at, duration) => Some(at + duration)
      case Resume(_) => None
  }

  class AppState {
    var pausedUntil: Option<nat>
    ghost var history: seq<Control>

    ghost predicate Valid()
      reads this
    {
      pausedUntil == DeadlineOf(history)
    }

    constructor ()
      ensures Valid() && history == [] && pausedUntil == None
    {
      pausedUntil := None;
      history := [];
    }

    method IsBlockingActive(now: nat) returns (active: bool)
      requires Valid()
      ensures active <==> !PausedBy(history, now)
      ensures active <==> Active(pausedUntil, now)
    {
      if pausedUntil.Some? {
        if now < pausedUntil.value {
          return false;
        }
      }
      active := true;
    }

    method PauseBlocking(now: nat, duration: nat)
      requires Valid()
      modifies this
      ensures Valid() && history == old(history) + [Pause(now, duration)]
      ensures pausedUntil == Some(now + duration)
    {
      pausedUntil := Some(now + duration);
      history := history + [Pause(now, duration)];
    }

    method ResumeBlocking(ghost now: nat)
      requires Valid()
      modifies this
      ensures Valid() && history == old(history) + [Resume(now)]
      ensures pausedUntil == None
    {
      pausedUntil := None;
      history := history + [Resume(now)];
    }

    /** Reported exactly while blocking is inactive at the same instant, as whole seconds left. */
    method GetPauseRemainingSecs(now: nat) returns (secs: Option<nat>)
      requires Valid()
      ensures secs.Some? <==> PausedBy(history, now)
      ensures secs.Some? ==>
                var last := history[|history| - 1];
                secs.value * SECOND <= last.at + last.duration - now < (secs.value + 1) * SECOND
    {
      if pausedUntil.Some? {
        if pausedUntil.value > now {
          return Some((pausedUntil.value - now) / SECOND);
        }
      }
      secs := None;
    }
  }
}
