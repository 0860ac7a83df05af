/**
 * The StepMotor driver: a two-pin stepper driver (direction line and step
 * line, plus an optional enable line) that keeps a cumulative position.
 *
 * The GPIO lines are abstracted: every pulse on the step line is recorded in
 * the log `pulses`, together with the direction the direction line selected,
 * and every level written to the enable line is recorded in `enableWrites`.
 * Wall-clock delays between pulses are not modelled.
 */
module StepMotorDriver {

  import DivMod

  /** Steps per revolution when the constructor is not told otherwise. */
  const DefaultSteps := 200
  /** The enable-pin argument meaning "no enable pin is connected". */
  const NoPin := -1
  /** Rotation speed, in rpm, until SetSpeed is called. */
  const DefaultSpeed := 60
  const MicrosPerMinute := 60_000_000

  /** The level of the direction line while a pulse is issued. */
  datatype Direction = Clockwise | CounterClockwise

  /** The change in position caused by one pulse in direction `d`. */
  function Sign(d: Direction): int {
    if d == Clockwise then 1 else -1
  }

  /** `n` pulses in the same direction. */
  function Repeat(d: Direction, n: nat): (s: seq<Direction>)
    ensures |s| == n
  {
    seq(n, _ => d)
  }

  /** Net number of clockwise steps made by a sequence of pulses. */
  function Displacement(pulses: seq<Direction>): int {
    if pulses == [] then 0
    else Displacement(pulses[..|pulses| - 1]) + Sign(pulses[|pulses| - 1])
  }

  lemma {:induction false} DisplacementAppend(s: seq<Direction>, t: seq<Direction>)
    ensures Displacement(s + t) == Displacement(s) + Displacement(t)
    decreases |t|
  {
    if t != [] {
      var t' := t[..|t| - 1];
      assert (s + t)[..|s + t| - 1] == s + t';
      DisplacementAppend(s, t');
    } else {
      assert s + t == s;
    }
  }

  /** `n` pulses in one direction move the motor by exactly `n` steps that way. */
  lemma {:induction false} DisplacementRepeat(d: Direction, n: nat)
    ensures Displacement(Repeat(d, n)) == n * Sign(d)
  {
    if n > 0 {
      assert Repeat(d, n)[..n - 1] == Repeat(d, n - 1);
      DisplacementRepeat(d, n - 1);
    }
  }

  /** The pulses that the step command `Step(ticks)` issues. */
  function StepPulses(ticks: int): (s: seq<Direction>)
    ensures |s| == if ticks < 0 then -ticks else ticks
    ensures Displacement(s) == ticks
  {
    DisplacementRepeat(Clockwise, if ticks < 0 then -ticks else ticks);
    DisplacementRepeat(CounterClockwise, if ticks < 0 then -ticks else ticks);
    if ticks < 0 then Repeat(CounterClockwise, -ticks) else Repeat(Clockwise, ticks)
  }

  /** The step within one revolution at a given cumulative position. */
  function StepOf(position: int, steps: int): (r: int)
    requires steps > 0
    ensures 0 <= r < steps
    ensures (position - r) % steps == 0
  {
    DivMod.Unique(position - position % steps, steps, position / steps, 0);
    position % steps
  }

  /** A whole revolution in either direction leaves the step unchanged. */
  lemma StepOfRevolution(position: int, steps: int, k: int)
    requires steps > 0
    ensures StepOf(position + k * steps, steps) == StepOf(position, steps)
  {
    var q, r := position / steps, position % steps;
    assert position + k * steps == (q + k) * steps + r;
    DivMod.Unique(position + k * steps, steps, q + k, r);
  }

  /** One clockwise pulse advances the step by one, wrapping from steps - 1 to 0. */
  lemma StepOfForward(position: int, steps: int)
    requires steps > 0
    ensures StepOf(position + 1, steps) ==
            if StepOf(position, steps) == steps - 1 then 0 else StepOf(position, steps) + 1
  {
    var q, r := position / steps, position % steps;
    if r == steps - 1 {
      DivMod.Unique(position + 1, steps, q + 1, 0);
    } else {
      DivMod.Unique(position + 1, steps, q, r + 1);
    }
  }

  /** One counter-clockwise pulse moves the step back by one, wrapping from 0 to steps - 1. */
  lemma StepOfBackward(position: int, steps: int)
    requires steps > 0
    ensures StepOf(position - 1, steps) ==
            if StepOf(position, steps) == 0 then steps - 1 else StepOf(position, steps) - 1
  {
    var q, r := position / steps, position % steps;
    if r == 0 {
      DivMod.Unique(position - 1, steps, q - 1, steps - 1);
    } else {
      DivMod.Unique(position - 1, steps, q, r - 1);
    }
  }

  /**
   * After any step command the step within the revolution has advanced by
   * the ticks, wrapping around modulo the steps per revolution.
   */
  lemma StepOfAfter(position: int, steps: int, ticks: int)
    requires steps > 0
    ensures StepOf(position + ticks, steps) == (StepOf(position, steps) + ticks) % steps
  {
    var q, r := position / steps, position % steps;
    var q', r' := (r + ticks) / steps, (r + ticks) % steps;
    DivMod.Unique(position + ticks, steps, q + q', r');
  }

  /**
   * Whole microseconds between pulses at `speed` rpm: the largest period
   * with which `speed` revolutions of `steps` pulses fit into one minute.
   */
  function StepPeriod(speed: int, steps: int): (us: int)
    requires speed > 0 && steps > 0
    ensures us >= 0
    ensures us * (speed * steps) <= MicrosPerMinute < (us + 1) * (speed * steps)
  {
    var pulsesPerMinute := speed * steps;
    var us := MicrosPerMinute / pulsesPerMinute;
    assert MicrosPerMinute == us * pulsesPerMinute + MicrosPerMinute % pulsesPerMinute;
    us
  }

  class StepMotor {
    const dirPin: int
    const stePin: int
    /** Steps per revolution (m_steps). */
    const steps: int
    /** The pin of the enable line, or a negative number when there is none (m_enPinCtx). */
    const enPin: int

    /** Microseconds per step at the configured speed (m_delay). */
    var delay: int
    /** Cumulative position (m_position). */
    var position: int
    /** Every pulse issued on the step line, oldest first. */
    var pulses: seq<Direction>
    /** Every level written to the enable line, oldest first. */
    var enableWrites: seq<bool>

    /** The position last given to SetPosition (0 at construction) ... */
    ghost var mark: int
    /** ... and the number of pulses issued before that call. */
    ghost var markAt: nat

    predicate HasEnableLine() {
      enPin >= 0
    }

    /**
     * The object invariant: the position is the position last set plus the
     * net pulses issued since then.
     */
    ghost predicate Valid()
      reads this
    {
      && steps > 0
      && markAt <= |pulses|
      && position == mark + Displacement(pulses[markAt..])
    }

    constructor (dirPin: int, stePin: int, steps: int := DefaultSteps, enPin: int := NoPin)
      requires steps > 0
      ensures Valid()
      ensures this.dirPin == dirPin && this.stePin == stePin
      ensures this.steps == steps && this.enPin == enPin
      ensures HasEnableLine() <==> enPin >= 0
      ensures delay == StepPeriod(DefaultSpeed, steps)
      ensures position == 0 && pulses == [] && enableWrites == []
      ensures mark == 0 && markAt == 0
    {
      this.dirPin, this.stePin := dirPin, stePin;
      this.steps, this.enPin := steps, enPin;
      delay := StepPeriod(DefaultSpeed, steps);
      position := 0;
      pulses, enableWrites := [], [];
      mark, markAt := 0, 0;
    }

    /** Drives the enable line to `flag`; without an enable line nothing happens. */
    method Enable(flag: bool)
      requires Valid()
      modifies this`enableWrites
      ensures Valid()
      ensures position == old(position) && pulses == old(pulses)
      ensures enableWrites == if HasEnableLine() then old(enableWrites) + [flag] else old(enableWrites)
    {
      if HasEnableLine() {
        enableWrites := enableWrites + [flag];
      }
    }

    /** Sets the rotation speed in rpm; a speed that is not positive is ignored. */
    method SetSpeed(speed: int)
      requires Valid()
      modifies this`delay
      ensures Valid()
      ensures delay == if speed > 0 then StepPeriod(speed, steps) else old(delay)
    {
      if speed > 0 {
        delay := StepPeriod(speed, steps);
      }
    }

    /** Issues one pulse in direction `d` and accounts for it in the position. */
    method Move(d: Direction)
      requires Valid()
      modifies this`pulses, this`position
      ensures Valid()
      ensures pulses == old(pulses) + [d]
      ensures position == old(position) + Sign(d)
    {
      assert (pulses + [d])[markAt..] == pulses[markAt..] + [d];
      pulses := pulses + [d];
      position := position + Sign(d);
    }

    /** Rotates clockwise by `ticks` steps (none when `ticks` is not positive). */
    method StepForward(ticks: int)
      requires Valid()
      modifies this`pulses, this`position
      ensures Valid()
      ensures position == old(position) + (if ticks > 0 then ticks else 0)
      ensures pulses == old(pulses) + Repeat(Clockwise, if ticks > 0 then ticks else 0)
    {
      var i := 0;
      while i < ticks
        invariant Valid()
        invariant 0 <= i <= (if ticks > 0 then ticks else 0)
        invariant position == old(position) + i
        invariant pulses == old(pulses) + Repeat(Clockwise, i)
      {
        Move(Clockwise);
        i := i + 1;
      }
    }

    /** Rotates counter-clockwise by `ticks` steps (none when `ticks` is not positive). */
    method StepBackward(ticks: int)
      requires Valid()
      modifies this`pulses, this`position
      ensures Valid()
      ensures position == old(position) - (if ticks > 0 then ticks else 0)
      ensures pulses == old(pulses) + Repeat(CounterClockwise, if ticks > 0 then ticks else 0)
    {
      var i := 0;
      while i < ticks
        invariant Valid()
        invariant 0 <= i <= (if ticks > 0 then ticks else 0)
        invariant position == old(position) - i
        invariant pulses == old(pulses) + Repeat(CounterClockwise, i)
      {
        Move(CounterClockwise);
        i := i + 1;
      }
    }

    /** Rotates by `ticks` steps: clockwise when positive, counter-clockwise when negative. */
    method Step(ticks: int)
      requires Valid()
      modifies this`pulses, this`position
      ensures Valid()
      ensures position == old(position) + ticks
      ensures pulses == old(pulses) + StepPulses(ticks)
    {
      if ticks < 0 {
        StepBackward(-ticks);
      } else {
        StepForward(ticks);
      }
    }

    /** Overwrites the cumulative position; nothing else changes. */
    method SetPosition(pos: int)
      requires Valid()
      modifies this`position, this`mark, this`markAt
      ensures Valid()
      ensures position == pos
      ensures mark == pos && markAt == |pulses|
      ensures delay == old(delay) && pulses == old(pulses) && enableWrites == old(enableWrites)
    {
      position := pos;
      mark, markAt := pos, |pulses|;
    }

    method GetPosition() returns (p: int)
      requires Valid()
      ensures p == position
      ensures p == mark + Displacement(pulses[markAt..])
    {
      p := position;
    }

    /** The step within one revolution, in [0, steps). */
    method GetStep() returns (s: int)
      requires Valid()
      ensures 0 <= s < steps
      ensures (position - s) % steps == 0
    {
      s := StepOf(position, steps);
    }
  }

  /**
   * The position is cumulative: two step commands in a row move the motor by
   * the sum of their tick counts, and the pulse log records both runs in order.
   */
  method StepTwice(m: StepMotor, a: int, b: int)
    requires m.Valid()
    modifies m
    ensures m.Valid()
    ensures m.position == old(m.position) + a + b
    ensures m.pulses == old(m.pulses) + StepPulses(a) + StepPulses(b)
    ensures Displacement(m.pulses) == old(Displacement(m.pulses)) + a + b
    ensures m.delay == old(m.delay) && m.enableWrites == old(m.enableWrites)
  {
    m.Step(a);
    m.Step(b);
    DisplacementAppend(old(m.pulses), StepPulses(a));
    DisplacementAppend(old(m.pulses) + StepPulses(a), StepPulses(b));
  }
}
