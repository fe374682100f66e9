/** The reel reveal of `spinSlots`: starting a spin marks the machine busy
    and every reel in motion, then four timers fire in time order. The
    timer of reel `i` stops that reel on the winning prize; the
    completion timer clears the busy flag. Timers are modelled as a
    time-sorted list applied in order, and the machine's state at time
    `t` after the start is the result of applying the timers due by `t`. */
module ReelSequencer {
  import opened Wrappers
  import opened PrizeCatalog
  import opened WeightedDraw

  /** The slot machine's component state. */
  datatype Machine = Machine(isSpinning: bool, reels: seq<nat>, spinningReels: seq<bool>)

  predicate Valid(m: Machine) {
    |m.reels| == 3 && |m.spinningReels| == 3
  }

  /** The state on mount: idle, every reel showing prize 0, none moving. */
  const Initial: Machine := Machine(false, [0, 0, 0], [false, false, false])

  /** Stop delays of the three reels, in milliseconds after the start. */
  const SpinDurations: seq<nat> := [2000, 2500, 3000]

  /** Delay of the completion timer, in milliseconds after the start. */
  const CompletionDelay: nat := 3200

  datatype Event = StopReel(reel: nat, prizeIndex: nat) | Complete(prizeIndex: nat)

  /** A timer armed at spin start that fires `at` milliseconds later. */
  datatype Timer = Timer(at: nat, event: Event)

  /** The winning-glow condition drawn on every reel. */
  predicate Glowing(m: Machine)
    requires Valid(m)
  {
    !m.isSpinning && m.reels[0] == m.reels[1] && m.reels[1] == m.reels[2]
  }

  predicate WellFormedTimers(timers: seq<Timer>) {
    forall k :: 0 <= k < |timers| ==> (timers[k].event.StopReel? ==> timers[k].event.reel < 3)
  }

  /** The timers armed by one spin that won prize index `w`: every reel
      stops once, at strictly increasing times, and the completion
      timer comes strictly after the last reel. */
  function Schedule(w: nat): (timers: seq<Timer>)
    ensures |timers| == 4 && WellFormedTimers(timers)
    ensures forall k :: 0 <= k < 3 ==> timers[k].at < timers[k + 1].at
    ensures forall k :: 0 <= k < 3 ==> timers[k].event == StopReel(k, w) && timers[k].at == SpinDurations[k]
    ensures timers[3] == Timer(CompletionDelay, Complete(w))
  {
    seq(3, k requires 0 <= k < 3 => Timer(SpinDurations[k], StopReel(k, w)))
      + [Timer(CompletionDelay, Complete(w))]
  }

  /** What pressing the lever produces: the new state, the armed timers
      and the winning index, or nothing when a spin is already running. */
  datatype SpinOutcome = SpinOutcome(machine: Machine, timers: seq<Timer>, winner: Option<nat>)

  /** `spinSlots` with random number `r` in `[0, 100)`. */
  function Spin(m: Machine, r: real): (o: SpinOutcome)
    requires Valid(m)
    ensures Valid(o.machine) && WellFormedTimers(o.timers)
    ensures m.isSpinning ==> o.machine == m && o.timers == [] && o.winner == None
    ensures !m.isSpinning ==>
      && o.machine.isSpinning
      && o.machine.spinningReels == [true, true, true]
      && o.machine.reels == m.reels
      && o.winner == Some(DrawPrize(r))
      && o.timers == Schedule(DrawPrize(r))
  {
    if m.isSpinning then SpinOutcome(m, [], None)
    else
      var w := DrawPrize(r);
      SpinOutcome(m.(isSpinning := true, spinningReels := [true, true, true]), Schedule(w), Some(w))
  }

  /** The effect of one timer firing. */
  function Fire(m: Machine, e: Event): (m': Machine)
    requires Valid(m)
    requires e.StopReel? ==> e.reel < 3
    ensures Valid(m')
    ensures e.StopReel? ==>
      && m'.isSpinning == m.isSpinning
      && !m'.spinningReels[e.reel] && m'.reels[e.reel] == e.prizeIndex
      && (forall k :: 0 <= k < 3 && k != e.reel ==>
            m'.spinningReels[k] == m.spinningReels[k] && m'.reels[k] == m.reels[k])
    ensures e.Complete? ==>
      !m'.isSpinning && m'.reels == m.reels && m'.spinningReels == m.spinningReels
  {
    match e
    case StopReel(i, w) =>
      m.(spinningReels := m.spinningReels[i := false], reels := m.reels[i := w])
    case Complete(_) =>
      m.(isSpinning := false)
  }

  /** Fires the timers in list order. */
  function Run(m: Machine, timers: seq<Timer>): (m': Machine)
    requires Valid(m) && WellFormedTimers(timers)
    ensures Valid(m')
  {
    if timers == [] then m
    else Fire(Run(m, timers[..|timers| - 1]), timers[|timers| - 1].event)
  }

  /** How many of the time-sorted `timers` are due `t` ms after the start. */
  function DueCount(timers: seq<Timer>, t: nat): (n: nat)
    ensures n <= |timers|
    ensures forall k :: 0 <= k < n ==> timers[k].at <= t
    ensures n < |timers| ==> timers[n].at > t
  {
    if timers == [] || timers[0].at > t then 0 else 1 + DueCount(timers[1..], t)
  }

  /** The machine `t` milliseconds after a spin produced outcome `o`. */
  function StateAt(o: SpinOutcome, t: nat): Machine
    requires Valid(o.machine) && WellFormedTimers(o.timers)
  {
    Run(o.machine, o.timers[..DueCount(o.timers, t)])
  }

  /** After the first `n` timers of a spin won by `w` have fired, reels
      below `n` show `w` and are at rest, the others are untouched and
      still moving, and the machine is busy until the completion timer. */
  lemma {:induction false} PrefixState(m: Machine, w: nat, n: nat)
    requires Valid(m) && n <= 4
    ensures var s := Run(m.(isSpinning := true, spinningReels := [true, true, true]), Schedule(w)[..n]);
      && s.isSpinning == (n < 4)
      && forall k :: 0 <= k < 3 ==>
           && s.spinningReels[k] == (n <= k)
           && s.reels[k] == (if k < n then w else m.reels[k])
  {
    var started := m.(isSpinning := true, spinningReels := [true, true, true]);
    var ts := Schedule(w);
    if n > 0 {
      PrefixState(m, w, n - 1);
      assert ts[..n][..n - 1] == ts[..n - 1];
      assert ts[..n][n - 1] == ts[n - 1];
    } else {
      assert ts[..0] == [];
    }
  }

  lemma DueCountOfSchedule(w: nat, t: nat)
    ensures DueCount(Schedule(w), t) ==
      if t < 2000 then 0 else if t < 2500 then 1 else if t < 3000 then 2
      else if t < 3200 then 3 else 4
  {
    var ts := Schedule(w);
    var n := DueCount(ts, t);
    assert ts[0].at == 2000 && ts[1].at == 2500 && ts[2].at == 3000 && ts[3].at == 3200;
  }

  /** The timeline of one spin started from an idle machine `m` with
      random number `r` and winner `w`: at `t` ms the machine is busy
      exactly while `t < 3200`, reel `i` is moving exactly while `t` is
      below its stop delay and from then on shows `w`, and once the
      completion timer has fired every reel shows `w` and the glow is on. */
  lemma SpinTimeline(m: Machine, r: real, t: nat)
    requires Valid(m) && !m.isSpinning
    ensures var o := Spin(m, r);
      var w := DrawPrize(r);
      var s := StateAt(o, t);
      && (s.isSpinning <==> t < CompletionDelay)
      && (forall i :: 0 <= i < 3 ==> (s.spinningReels[i] <==> t < SpinDurations[i]))
      && (forall i :: 0 <= i < 3 ==> s.reels[i] == if t < SpinDurations[i] then m.reels[i] else w)
      && (t >= CompletionDelay ==> s == Machine(false, [w, w, w], [false, false, false]) && Glowing(s))
  {
    var w := DrawPrize(r);
    DueCountOfSchedule(w, t);
    PrefixState(m, w, DueCount(Schedule(w), t));
  }

  /** Single flight: at every moment before the completion timer the
      machine is busy, so a second press is ignored and leaves the
      state and the timers as they are. */
  lemma SecondPressIgnored(m: Machine, r: real, r': real, t: nat)
    requires Valid(m) && !m.isSpinning
    requires t < CompletionDelay
    ensures var s := StateAt(Spin(m, r), t);
      Spin(s, r') == SpinOutcome(s, [], None)
  {
    SpinTimeline(m, r, t);
  }
}
