/**
 One ordered run of several browser actions against one page.

 The environment is an adversary: `Env` answers every listing and every group of
 dispatched steps by arbitrary functions of a world of its own, and owns the clock.
 */
module BatchRunner {
  import opened Wrappers

  const MAX_BATCH_DURATION_MS := 120000.0
  const MAX_BATCH_CHARS := 32000
  const MAX_BATCH_STEP_RESULT_CHARS := 4000
  const DEFAULT_DEADLINE_MS := 30000.0
  const WAIT_HEADROOM_MS := 5000.0

  datatype StepType = Fill | Select | Click | Keyboard | WaitFor | Find | Read

  // `content` stands for the locator, value, key, condition, query or selector.
  datatype Step = Step(action: StepType, frame: Option<string>, timeout: Option<real>, content: string)

  predicate IsRead(step: Step) { step.action == Find || step.action == Read }

  // The tab's origin and its accessible regions' origins, as one listing showed them.
  datatype Reading = Reading(origin: Option<string>, frames: map<string, string>)

  datatype ListReply = Threw | Listed(reading: Reading)

  // One step on its way: its region's pin and its own transport deadline, if any.
  datatype Dispatch = Dispatch(index: nat, step: Step, pin: Option<string>, timeoutMs: Option<real>)

  datatype Answer = Answer(ok: bool, result: Option<string>, error: string)

  // Serialized size of a result, and the notice that replaces one too large to keep.
  datatype Texts = Texts(sizeOf: string -> nat, cutNote: StepType -> string, cutMark: string)

  datatype Env<!W> = Env(
    list: (W, bool) -> (W, ListReply),
    dispatch: (W, seq<Dispatch>) -> (W, nat -> (Answer, real)),
    clock: W -> real,
    texts: Texts)

  datatype Outcome = Outcome(
    index: nat, action: StepType, ok: bool, durationMs: real,
    result: Option<string>, resultTruncated: bool, error: Option<string>)

  datatype StopReason = StepFailed | OriginChanged | OriginUnverifiable | FrameOriginChanged | TimeLimit

  // What happened, in order. `Sent` records when a group left, when its last answer was in, and what came back.
  datatype TraceEvent =
    | Seen(reading: Reading)
    | Sent(group: seq<Dispatch>, at: real, done: real, outcomes: seq<Outcome>)

  datatype Config = Config(
    steps: seq<Step>, framed: bool, gated: bool, pinned: string, pinnedFrames: map<string, string>, startedAt: real)

  datatype Progress<!W> = Progress(
    w: W, index: nat, completed: seq<Outcome>, failed: Option<Outcome>,
    stopped: Option<StopReason>, threw: bool, trace: seq<TraceEvent>)

  // What is reported of a step is bounded, and marked where it was cut.
  function CapStepResult(texts: Texts, o: Outcome): (c: Outcome)
    ensures c == o.(result := c.result, error := c.error, resultTruncated := c.resultTruncated)
    ensures c.error.Some? <==> o.error.Some?
    ensures c.error.Some? ==> |c.error.value| <= MAX_BATCH_STEP_RESULT_CHARS + |texts.cutMark|
    ensures c.result.Some? <==> o.result.Some?
    ensures c.result.Some? ==>
              texts.sizeOf(c.result.value) <= MAX_BATCH_STEP_RESULT_CHARS || c.result.value == texts.cutNote(c.action)
    ensures !c.resultTruncated ==> c == o
    ensures c.result != o.result || c.error != o.error ==> c.resultTruncated
  {
    var c := if o.error.Some? && |o.error.value| > MAX_BATCH_STEP_RESULT_CHARS
             then o.(error := Some(o.error.value[..MAX_BATCH_STEP_RESULT_CHARS] + texts.cutMark), resultTruncated := true)
             else o;
    if c.result.None? || texts.sizeOf(c.result.value) <= MAX_BATCH_STEP_RESULT_CHARS then c
    else c.(result := Some(texts.cutNote(c.action)), resultTruncated := true)
  }

  function OutcomeOf(texts: Texts, d: Dispatch, a: Answer, durationMs: real): Outcome {
    CapStepResult(texts,
      if a.ok then Outcome(d.index, d.step.action, true, durationMs, a.result, false, None)
      else Outcome(d.index, d.step.action, false, durationMs, None, false, Some(a.error)))
  }

  // End of the whole run of reads that starts at i.
  function ReadsEnd(steps: seq<Step>, i: nat): (end: nat)
    requires i <= |steps|
    ensures i <= end <= |steps|
    ensures forall k :: i <= k < end ==> IsRead(steps[k])
    ensures end < |steps| ==> !IsRead(steps[end])
    decreases |steps| - i
  {
    if i < |steps| && IsRead(steps[i]) then ReadsEnd(steps, i + 1) else i
  }

  // An action goes alone; reads go with every read that follows them directly.
  function GroupEnd(steps: seq<Step>, i: nat): (end: nat)
    requires i < |steps|
    ensures i < end <= |steps|
    ensures !IsRead(steps[i]) ==> end == i + 1
    ensures IsRead(steps[i]) ==>
              (forall k :: i <= k < end ==> IsRead(steps[k])) && (end < |steps| ==> !IsRead(steps[end]))
  {
    var end := ReadsEnd(steps, i);
    if end > i then end else i + 1
  }

  // The first region of the group that may not be acted in, and why.
  function RegionStop(group: seq<Step>, pins: map<string, string>, now: map<string, string>): (r: Option<StopReason>)
    ensures r.None? <==> forall k :: 0 <= k < |group| && group[k].frame.Some? ==>
                                       && group[k].frame.value in pins && group[k].frame.value in now
                                       && now[group[k].frame.value] == pins[group[k].frame.value]
    ensures r != Some(StepFailed)
  {
    if group == [] then None
    else if group[0].frame.None? then RegionStop(group[1..], pins, now)
    else
      var f := group[0].frame.value;
      if f !in pins || f !in now then Some(OriginUnverifiable)
      else if now[f] != pins[f] then Some(FrameOriginChanged)
      else RegionStop(group[1..], pins, now)
  }

  function Min(a: real, b: real): real { if a <= b then a else b }

  function Max(a: real, b: real): real { if a >= b then a else b }

  function DispatchOf(cfg: Config, step: Step, index: nat, budgetLeftMs: real): Dispatch {
    Dispatch(index, step,
             if step.frame.Some? && step.frame.value in cfg.pinnedFrames then Some(cfg.pinnedFrames[step.frame.value]) else None,
             if step.action == WaitFor
             then Some(Min(step.timeout.GetOr(DEFAULT_DEADLINE_MS), budgetLeftMs) + WAIT_HEADROOM_MS) else None)
  }

  function GroupOf(cfg: Config, i: nat, end: nat, budgetLeftMs: real): (group: seq<Dispatch>)
    requires i <= end <= |cfg.steps|
    ensures |group| == end - i
    ensures forall k :: 0 <= k < |group| ==> group[k] == DispatchOf(cfg, cfg.steps[i + k], i + k, budgetLeftMs)
    decreases end - i
  {
    if i == end then []
    else [DispatchOf(cfg, cfg.steps[i], i, budgetLeftMs)] + GroupOf(cfg, i + 1, end, budgetLeftMs)
  }

  function Outcomes(texts: Texts, group: seq<Dispatch>, answers: nat -> (Answer, real)): (os: seq<Outcome>)
    ensures |os| == |group|
    ensures forall k :: 0 <= k < |os| ==> os[k] == OutcomeOf(texts, group[k], answers(k).0, answers(k).1)
  {
    if group == [] then []
    else
      var last := |group| - 1;
      Outcomes(texts, group[..last], answers) + [OutcomeOf(texts, group[last], answers(last).0, answers(last).1)]
  }

  ghost predicate NumberedFrom(os: seq<Outcome>, base: nat) {
    forall k :: 0 <= k < |os| ==> os[k].index == base + k
  }

  function Succeeded(outcomes: seq<Outcome>): seq<Outcome> {
    if outcomes == [] then []
    else if outcomes[0].ok then [outcomes[0]] + Succeeded(outcomes[1..])
    else Succeeded(outcomes[1..])
  }

  function Failures(outcomes: seq<Outcome>): seq<Outcome> {
    if outcomes == [] then []
    else if outcomes[0].ok then Failures(outcomes[1..])
    else [outcomes[0]] + Failures(outcomes[1..])
  }

  function FirstFailure(outcomes: seq<Outcome>): Option<Outcome> {
    if outcomes == [] then None
    else if !outcomes[0].ok then Some(outcomes[0])
    else FirstFailure(outcomes[1..])
  }

  // The page-identity and region checks of one turn.
  function CheckStop(cfg: Config, reading: Reading, group: seq<Step>): Option<StopReason> {
    if reading.origin.None? then Some(OriginUnverifiable)
    else if reading.origin.value != cfg.pinned then Some(OriginChanged)
    else RegionStop(group, cfg.pinnedFrames, reading.frames)
  }

  // Accounts for every answer of a group, not only those before the first failure.
  function Absorb<W>(p: Progress<W>, w: W, end: nat, sent: TraceEvent): Progress<W>
    requires sent.Sent?
  {
    var failed := FirstFailure(sent.outcomes);
    Progress(w, if failed.Some? then p.index else end, p.completed + Succeeded(sent.outcomes), failed,
             if failed.Some? then Some(StepFailed) else None, false, p.trace + [sent])
  }

  // The group [p.index, end) as it leaves at one instant, with the time budget left then.
  function NextGroup<W>(env: Env<W>, cfg: Config, p: Progress<W>, end: nat): (group: seq<Dispatch>)
    requires p.index <= end <= |cfg.steps|
    ensures |group| == end - p.index
  {
    GroupOf(cfg, p.index, end, Max(0.0, MAX_BATCH_DURATION_MS - (env.clock(p.w) - cfg.startedAt)))
  }

  // Dispatches a group and records what came back.
  function Dispatched<W>(env: Env<W>, w: W, group: seq<Dispatch>): (r: (W, TraceEvent))
    ensures r.1.Sent? && r.1.group == group && |r.1.outcomes| == |group|
  {
    var (u, answers) := env.dispatch(w, group);
    (u, Sent(group, env.clock(w), env.clock(u), Outcomes(env.texts, group, answers)))
  }

  function SendGroup<W>(env: Env<W>, cfg: Config, p: Progress<W>, end: nat): Progress<W>
    requires p.index <= end <= |cfg.steps|
  {
    var (w, sent) := Dispatched(env, p.w, NextGroup(env, cfg, p, end));
    Absorb(p, w, end, sent)
  }

  lemma {:induction false} DispatchedNumbered<W>(env: Env<W>, cfg: Config, p: Progress<W>, end: nat)
    requires p.index < end <= |cfg.steps|
    ensures var outcomes := Dispatched(env, p.w, NextGroup(env, cfg, p, end)).1.outcomes;
            NumberedFrom(outcomes, p.index) && |outcomes| == end - p.index
  {
  }

  // The reading a turn is checked against: the first turn reuses the opening one.
  function ReadForTurn<W>(env: Env<W>, cfg: Config, opening: Reading, p: Progress<W>): (Progress<W>, Reading) {
    if p.index == 0 then (p, Reading(Some(cfg.pinned), opening.frames))
    else
      var (w, reply) := env.list(p.w, cfg.framed);
      match reply
      case Threw => (p.(w := w, threw := true), opening)
      case Listed(r) => (p.(w := w, trace := p.trace + [Seen(r)]), r)
  }

  function Turn<W>(env: Env<W>, cfg: Config, opening: Reading, p: Progress<W>): Progress<W>
    requires p.index < |cfg.steps|
  {
    if env.clock(p.w) - cfg.startedAt >= MAX_BATCH_DURATION_MS then p.(stopped := Some(TimeLimit))
    else
      var (q, reading) := ReadForTurn(env, cfg, opening, p);
      if q.threw then q
      else
        var end := GroupEnd(cfg.steps, q.index);
        var stop := CheckStop(cfg, reading, cfg.steps[q.index..end]);
        if stop.Some? then q.(stopped := stop) else SendGroup(env, cfg, q, end)
  }

  predicate Over<W>(cfg: Config, p: Progress<W>) {
    p.threw || p.stopped.Some? || p.index >= |cfg.steps|
  }

  lemma TurnAdvances<W>(env: Env<W>, cfg: Config, opening: Reading, p: Progress<W>)
    requires !Over(cfg, p)
    ensures var q := Turn(env, cfg, opening, p); Over(cfg, q) || q.index > p.index
  {
  }

  function Loop<W>(env: Env<W>, cfg: Config, opening: Reading, p: Progress<W>): Progress<W>
    decreases |cfg.steps| - p.index, if Over(cfg, p) then 0 else 1
  {
    if Over(cfg, p) then p
    else
      TurnAdvances(env, cfg, opening, p);
      var q := Turn(env, cfg, opening, p);
      if Over(cfg, q) then q else Loop(env, cfg, opening, q)
  }

  // What the opening listing decides: refuse to start, or the pins the run keeps.
  datatype Opening<!W> =
    | Refused(p: Progress<W>, origin: Option<string>, frames: map<string, string>)
    | Opened(cfg: Config, reading: Reading, p: Progress<W>)

  function Open<W>(env: Env<W>, w0: W, steps: seq<Step>, approved: Option<string>,
                   approvedFrames: Option<map<string, string>>): Opening<W> {
    var framed := exists k :: 0 <= k < |steps| && steps[k].frame.Some?;
    var (w, reply) := env.list(w0, framed);
    var p := Progress(w, 0, [], None, None, false, []);
    match reply
    case Threw => Refused(p.(threw := true), None, map[])
    case Listed(r) =>
      var frames := approvedFrames.GetOr(r.frames);
      var pinned := if approved.Some? then approved else r.origin;
      var q := p.(trace := [Seen(r)]);
      if approved.Some? && r.origin.Some? && r.origin != approved then Refused(q.(stopped := Some(OriginChanged)), pinned, frames)
      else if pinned.None? then Refused(q.(stopped := Some(OriginUnverifiable)), pinned, frames)
      else Opened(Config(steps, framed, approved.Some?, pinned.value, frames, env.clock(w0)), r, q)
  }

  // The whole run, before its result is trimmed.
  function Batch<W>(env: Env<W>, w0: W, steps: seq<Step>, approved: Option<string>,
                    approvedFrames: Option<map<string, string>>): Progress<W> {
    match Open(env, w0, steps, approved, approvedFrames)
    case Refused(p, _, _) => p
    case Opened(cfg, reading, p) => Loop(env, cfg, reading, p)
  }
}
