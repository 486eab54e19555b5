/**
 The sampling profiler's signal handlers and interval timers. An interval timer
 that expires without a handler kills the process (SIGALRM and SIGPROF have that
 default), so the order of the system calls matters.
 */
module SamplingProfiler {
  datatype Clock = RealTimer | ProfTimer
  datatype Signal = SIGALRM | SIGPROF
  datatype Disposition = DefaultAction | Ignored | Handled

  /** The dispositions of the two signals and the timers that are running. */
  datatype OsState = OsState(alrm: Disposition, prof: Disposition, armed: set<Clock>)

  const PRISTINE := OsState(DefaultAction, DefaultAction, {})

  /** The signal a timer raises. */
  function SignalOf(c: Clock): Signal {
    if c == RealTimer then SIGALRM else SIGPROF
  }

  function DispositionOf(s: OsState, sig: Signal): Disposition {
    if sig == SIGALRM then s.alrm else s.prof
  }

  /** An armed timer has its handler, and at most one timer is armed. */
  predicate Safe(s: OsState) {
    && (forall c | c in s.armed :: DispositionOf(s, SignalOf(c)) == Handled)
    && (forall c, d | c in s.armed && d in s.armed :: c == d)
  }

  /** setitimer accepts microseconds below one second; 0 disarms. */
  predicate ArmsTimer(usec: int) {
    0 < usec <= 999_999
  }

  function Sigaction(s: OsState, sig: Signal, d: Disposition): OsState {
    if sig == SIGALRM then s.(alrm := d) else s.(prof := d)
  }

  function Setitimer(s: OsState, c: Clock, usec: int): OsState {
    if ArmsTimer(usec) then s.(armed := s.armed + {c})
    else if usec == 0 then s.(armed := s.armed - {c})
    else s  // EINVAL, which the callers do not look at
  }

  function ClockFor(wallTime: bool): Clock {
    if wallTime then RealTimer else ProfTimer
  }

  class Profiler {
    var clockType: Clock     // static variables of the C file
    var signalType: Signal
    var os: OsState
    ghost var log: seq<OsState>  // the state after every single system call

    /** At every point between system calls the state was safe, and it still is. */
    ghost predicate Valid()
      reads this
    {
      && signalType == SignalOf(clockType)
      && log != [] && os == log[|log| - 1]
      && forall i | 0 <= i < |log| :: Safe(log[i])
    }

    constructor ()
      ensures Valid() && os == PRISTINE && clockType == ProfTimer
    {
      clockType, signalType, os := ProfTimer, SIGPROF, PRISTINE;
      log := [PRISTINE];
    }

    method CallSigaction(d: Disposition)
      requires Valid() && Safe(Sigaction(os, signalType, d))
      modifies this`os, this`log
      ensures Valid() && os == Sigaction(old(os), signalType, d) && log == old(log) + [os]
    {
      os := Sigaction(os, signalType, d);
      log := log + [os];
    }

    method CallSetitimer(usec: int)
      requires Valid() && Safe(Setitimer(os, clockType, usec))
      modifies this`os, this`log
      ensures Valid() && os == Setitimer(old(os), clockType, usec) && log == old(log) + [os]
    {
      os := Setitimer(os, clockType, usec);
      log := log + [os];
    }

    /** Handler first, then the timer. */
    method Install(wallTime: bool, interval: int)
      requires Valid() && os.armed == {}
      modifies this
      ensures Valid() && |log| == |old(log)| + 2 && old(log) <= log
      ensures clockType == ClockFor(wallTime) == if wallTime then RealTimer else ProfTimer
      ensures os == Setitimer(Sigaction(old(os), SignalOf(clockType), Handled), clockType, interval)
      ensures os.armed == if 0 < interval < 1_000_000 then {clockType} else {}
    {
      if wallTime {
        signalType := SIGALRM;
        clockType := RealTimer;
      } else {
        signalType := SIGPROF;
        clockType := ProfTimer;
      }
      CallSigaction(Handled);
      CallSetitimer(interval);
    }

    /** Timer first, then the handler. */
    method Uninstall()
      requires Valid() && os.armed <= {clockType}
      modifies this
      ensures Valid() && |log| == |old(log)| + 2 && old(log) <= log
      ensures clockType == old(clockType)
      ensures os == Sigaction(Setitimer(old(os), clockType, 0), SignalOf(clockType), Ignored)
      ensures os.armed == {}
    {
      CallSetitimer(0);
      CallSigaction(Ignored);
    }
  }

  /** The other order would leave an armed timer without its handler. */
  lemma TimerFirstIsUnsafe(s: OsState, c: Clock, usec: int)
    requires s.armed == {} && DispositionOf(s, SignalOf(c)) != Handled
    ensures Safe(Setitimer(s, c, usec)) <==> !(0 < usec < 1_000_000)
  {
    if ArmsTimer(usec) {
      assert c in Setitimer(s, c, usec).armed;
    }
  }
}
