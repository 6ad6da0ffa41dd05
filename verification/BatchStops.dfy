/** Why a run of the batch runner ended: each stop reason means what it says. */
module BatchStops {
  import opened Wrappers
  import opened BatchRunner
  import opened BatchSafety

  // The pins of a run, and when it started.
  datatype Pins = Pins(origin: string, frames: map<string, string>, startedAt: real)

  predicate SeenLast(trace: seq<TraceEvent>) { trace != [] && trace[|trace| - 1].Seen? }

  function LastReading(trace: seq<TraceEvent>): Reading
    requires SeenLast(trace)
  {
    trace[|trace| - 1].reading
  }

  // Step k of the group that would have gone out next.
  predicate Next(steps: seq<Step>, i: nat, k: nat) {
    i < |steps| && i <= k < GroupEnd(steps, i)
  }

  ghost predicate Justified(steps: seq<Step>, pins: Pins, reason: StopReason, i: nat, trace: seq<TraceEvent>, now: real) {
    match reason
    case StepFailed => exists o :: o in Answers(trace) && !o.ok
    case TimeLimit => i < |steps| && now - pins.startedAt >= MAX_BATCH_DURATION_MS
    case OriginChanged =>
      SeenLast(trace) && LastReading(trace).origin.Some? && LastReading(trace).origin.value != pins.origin
    case OriginUnverifiable =>
      && SeenLast(trace)
      && (LastReading(trace).origin.None?
          || exists k: nat :: Next(steps, i, k) && steps[k].frame.Some?
                              && (steps[k].frame.value !in pins.frames || steps[k].frame.value !in LastReading(trace).frames))
    case FrameOriginChanged =>
      && SeenLast(trace)
      && exists k: nat :: Next(steps, i, k) && steps[k].frame.Some?
                          && steps[k].frame.value in pins.frames && steps[k].frame.value in LastReading(trace).frames
                          && LastReading(trace).frames[steps[k].frame.value] != pins.frames[steps[k].frame.value]
  }

  function PinsOf(cfg: Config): Pins { Pins(cfg.pinned, cfg.pinnedFrames, cfg.startedAt) }

  // A run that stopped had its reason; one that did not answered every step.
  ghost predicate Explained<W>(env: Env<W>, steps: seq<Step>, pins: Pins, p: Progress<W>) {
    && (p.stopped.Some? ==> Justified(steps, pins, p.stopped.value, |Answers(p.trace)|, p.trace, env.clock(p.w)))
    && (p.stopped == Some(StepFailed) <==> p.failed.Some?)
    && (p.stopped.None? && !p.threw ==> p.index <= |Answers(p.trace)|)
  }

  lemma {:induction false} RegionReason(group: seq<Step>, pins: map<string, string>, now: map<string, string>) returns (k: nat)
    requires RegionStop(group, pins, now).Some?
    ensures k < |group| && group[k].frame.Some?
    ensures var f, reason := group[k].frame.value, RegionStop(group, pins, now).value;
            || (reason == OriginUnverifiable && (f !in pins || f !in now))
            || (reason == FrameOriginChanged && f in pins && f in now && now[f] != pins[f])
  {
    var f := group[0].frame;
    if f.Some? && (f.value !in pins || f.value !in now || now[f.value] != pins[f.value]) {
      k := 0;
    } else {
      k := RegionReason(group[1..], pins, now);
      k := k + 1;
    }
  }

  lemma CheckReason(cfg: Config, reading: Reading, trace: seq<TraceEvent>, i: nat, now: real)
    requires i < |cfg.steps| && SeenLast(trace) && LastReading(trace).frames == reading.frames
    requires reading.origin == LastReading(trace).origin || reading.origin == Some(cfg.pinned)
    requires CheckStop(cfg, reading, cfg.steps[i..GroupEnd(cfg.steps, i)]).Some?
    ensures var stop := CheckStop(cfg, reading, cfg.steps[i..GroupEnd(cfg.steps, i)]).value;
            && stop in {OriginUnverifiable, OriginChanged, FrameOriginChanged}
            && Justified(cfg.steps, PinsOf(cfg), stop, i, trace, now)
  {
    if reading.origin == Some(cfg.pinned) {
      var group := cfg.steps[i..GroupEnd(cfg.steps, i)];
      var k := RegionReason(group, cfg.pinnedFrames, reading.frames);
      assert group[k] == cfg.steps[i + k] && Next(cfg.steps, i, i + k);
    }
  }

  // The reading a turn is checked against stands at the end of the trace.
  lemma ReadingStands<W>(env: Env<W>, cfg: Config, opening: Reading, p: Progress<W>)
    requires RunValid(cfg, opening, p) && !Over(cfg, p)
    ensures var (q, reading) := ReadForTurn(env, cfg, opening, p);
            !q.threw ==>
              && SeenLast(q.trace) && LastReading(q.trace).frames == reading.frames
              && (reading.origin == LastReading(q.trace).origin || reading.origin == Some(cfg.pinned))
  {
  }

  lemma FailedAnswer(a: seq<Outcome>)
    requires FirstFailure(a).Some?
    ensures exists o :: o in a && !o.ok
  {
    FailuresOf(a);
    assert Failures(a)[0] in Failures(a);
  }

  lemma SentExplained<W>(env: Env<W>, cfg: Config, opening: Reading, q: Progress<W>)
    requires RunValid(cfg, opening, q) && (q.stopped == Some(StepFailed) <==> q.failed.Some?)
    requires q.stopped.None? || q.stopped == Some(StepFailed)
    ensures Explained(env, cfg.steps, PinsOf(cfg), q)
  {
    if q.failed.Some? {
      FailedAnswer(Answers(q.trace));
    }
  }

  lemma TurnFails<W>(env: Env<W>, cfg: Config, opening: Reading, p: Progress<W>)
    requires !Over(cfg, p) && p.failed.None?
    ensures var q := Turn(env, cfg, opening, p); q.stopped == Some(StepFailed) <==> q.failed.Some?
  {
  }

  lemma TurnExplained<W>(env: Env<W>, cfg: Config, opening: Reading, p: Progress<W>)
    requires RunValid(cfg, opening, p) && !Over(cfg, p)
    ensures Explained(env, cfg.steps, PinsOf(cfg), Turn(env, cfg, opening, p))
  {
    TurnValid(env, cfg, opening, p);
    TurnFails(env, cfg, opening, p);
    var (q, reading) := ReadForTurn(env, cfg, opening, p);
    ReadValid(env, cfg, opening, p);
    ReadingStands(env, cfg, opening, p);
    var r := Turn(env, cfg, opening, p);
    if r.stopped.None? || r.stopped == Some(StepFailed) {
      SentExplained(env, cfg, opening, r);
    } else if env.clock(p.w) - cfg.startedAt < MAX_BATCH_DURATION_MS {
      CheckReason(cfg, reading, q.trace, q.index, env.clock(q.w));
    }
  }

  lemma {:induction false} LoopExplained<W>(env: Env<W>, cfg: Config, opening: Reading, p: Progress<W>)
    requires RunValid(cfg, opening, p) && Explained(env, cfg.steps, PinsOf(cfg), p)
    ensures Explained(env, cfg.steps, PinsOf(cfg), Loop(env, cfg, opening, p))
    decreases |cfg.steps| - p.index, if Over(cfg, p) then 0 else 1
  {
    if !Over(cfg, p) {
      TurnAdvances(env, cfg, opening, p);
      TurnValid(env, cfg, opening, p);
      TurnExplained(env, cfg, opening, p);
      var q := Turn(env, cfg, opening, p);
      if !Over(cfg, q) {
        LoopExplained(env, cfg, opening, q);
      }
    }
  }

  // What the opening listing pins the run to: the approved origin and regions, or the observed ones.
  function OpeningPins(opening: Reading, approved: Option<string>, approvedFrames: Option<map<string, string>>, at: real): Pins {
    Pins(approved.GetOr(opening.origin.GetOr("")), approvedFrames.GetOr(opening.frames), at)
  }

  ghost predicate Framed(steps: seq<Step>) { exists k :: 0 <= k < |steps| && steps[k].frame.Some? }

  // Whatever the environment answers, a run stops for the reason it names: a step that
  // failed, the clock, the page or a region showing another origin than its pin, or one
  // of them showing none to check. A run that names no reason, and no listing of which
  // threw, got every step answered ok.
  lemma StopsForItsCause<W>(env: Env<W>, w0: W, steps: seq<Step>, approved: Option<string>,
                            approvedFrames: Option<map<string, string>>)
    ensures var p, reply := Batch(env, w0, steps, approved, approvedFrames), env.list(w0, Framed(steps)).1;
            match reply
            case Threw => p.threw && p.stopped.None? && p.trace == []
            case Listed(opening) =>
              && (p.stopped.Some? ==>
                    Justified(steps, OpeningPins(opening, approved, approvedFrames, env.clock(w0)), p.stopped.value,
                              |Answers(p.trace)|, p.trace, env.clock(p.w)))
              && (p.stopped == Some(StepFailed) <==> p.failed.Some?)
              && (p.stopped.None? && !p.threw ==> |Answers(p.trace)| == |steps| && AllOk(Answers(p.trace)))
  {
    var open := Open(env, w0, steps, approved, approvedFrames);
    OpenedIsValid(env, w0, steps, approved, approvedFrames);
    OpeningDecides(env, w0, steps, approved, approvedFrames);
    match open {
      case Refused(_, _, _) =>
      case Opened(cfg, reading, p) =>
        OpenedPins(env, w0, steps, approved, approvedFrames);
        LoopExplained(env, cfg, reading, p);
        LoopValid(env, cfg, reading, p);
        LoopIsOver(env, cfg, reading, p);
        NoFailureAllOk(Answers(Loop(env, cfg, reading, p).trace));
    }
  }

  lemma OpenedPins<W>(env: Env<W>, w0: W, steps: seq<Step>, approved: Option<string>,
                      approvedFrames: Option<map<string, string>>)
    requires Open(env, w0, steps, approved, approvedFrames).Opened?
    ensures var open, reply := Open(env, w0, steps, approved, approvedFrames), env.list(w0, Framed(steps)).1;
            && reply.Listed? && open.cfg.steps == steps
            && PinsOf(open.cfg) == OpeningPins(reply.reading, approved, approvedFrames, env.clock(w0))
            && open.p.failed.None? && open.p.stopped.None? && Answers(open.p.trace) == [] && open.p.index == 0
  {
    OpeningDecides(env, w0, steps, approved, approvedFrames);
    NothingAnswered(Open(env, w0, steps, approved, approvedFrames).p.trace);
  }
}
