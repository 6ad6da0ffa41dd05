/** The batch runner as the loop it is. */
module BatchHost {
  import opened Wrappers
  import opened BatchRunner
  import opened BatchSafety
  import opened BatchReport
  import opened BatchStops

  method FindGroupEnd(steps: seq<Step>, index: nat) returns (end: nat)
    requires index < |steps|
    ensures end == GroupEnd(steps, index)
  {
    end := index;
    while end < |steps| && IsRead(steps[end])
      invariant index <= end <= |steps|
      invariant ReadsEnd(steps, index) == ReadsEnd(steps, end)
    {
      end := end + 1;
    }
    if end == index { end := index + 1; }
  }

  // Asks about every region the group targets before any of it is sent.
  method CheckRegions(group: seq<Step>, pins: map<string, string>, now: map<string, string>) returns (stop: Option<StopReason>)
    ensures stop == RegionStop(group, pins, now)
  {
    var i := 0;
    while i < |group|
      invariant i <= |group|
      invariant RegionStop(group, pins, now) == RegionStop(group[i..], pins, now)
    {
      assert group[i..][1..] == group[i + 1..];
      if group[i].frame.Some? {
        var frame := group[i].frame.value;
        if frame !in pins || frame !in now { return Some(OriginUnverifiable); }
        if now[frame] != pins[frame] { return Some(FrameOriginChanged); }
      }
      i := i + 1;
    }
    return None;
  }

  method Account(before: seq<Outcome>, outcomes: seq<Outcome>) returns (completed: seq<Outcome>, failed: Option<Outcome>)
    ensures completed == before + Succeeded(outcomes)
    ensures failed == FirstFailure(outcomes)
  {
    completed, failed := before, None;
    var i := 0;
    while i < |outcomes|
      invariant i <= |outcomes|
      invariant before + Succeeded(outcomes) == completed + Succeeded(outcomes[i..])
      invariant FirstFailure(outcomes) == if failed.Some? then failed else FirstFailure(outcomes[i..])
    {
      assert outcomes[i..][1..] == outcomes[i + 1..];
      if outcomes[i].ok {
        completed := completed + [outcomes[i]];
      } else if failed.None? {
        failed := Some(outcomes[i]);
      }
      i := i + 1;
    }
  }

  // Dispatches one group at one instant and accounts for every outcome.
  method Send<W>(env: Env<W>, cfg: Config, p: Progress<W>, end: nat) returns (q: Progress<W>)
    requires p.index <= end <= |cfg.steps|
    ensures q == SendGroup(env, cfg, p, end)
  {
    var (w, sent) := Dispatched(env, p.w, NextGroup(env, cfg, p, end));
    var completed, failed := Account(p.completed, sent.outcomes);
    q := Progress(w, if failed.Some? then p.index else end, completed, failed,
                  if failed.Some? then Some(StepFailed) else None, false, p.trace + [sent]);
  }

  // One turn of the loop.
  method TakeTurn<W>(env: Env<W>, cfg: Config, opening: Reading, p: Progress<W>) returns (q: Progress<W>)
    requires !Over(cfg, p)
    ensures q == Turn(env, cfg, opening, p)
  {
    q := p;
    if env.clock(q.w) - cfg.startedAt >= MAX_BATCH_DURATION_MS { return q.(stopped := Some(TimeLimit)); }
    var reading := Reading(Some(cfg.pinned), opening.frames);
    if q.index != 0 {
      var (w, reply) := env.list(q.w, cfg.framed);
      q := q.(w := w);
      if reply.Threw? { return q.(threw := true); }
      reading := reply.reading;
      q := q.(trace := q.trace + [Seen(reading)]);
    }
    var end := FindGroupEnd(cfg.steps, q.index);
    if reading.origin.None? { return q.(stopped := Some(OriginUnverifiable)); }
    if reading.origin.value != cfg.pinned { return q.(stopped := Some(OriginChanged)); }
    var regionStop := CheckRegions(cfg.steps[q.index..end], cfg.pinnedFrames, reading.frames);
    if regionStop.Some? { return q.(stopped := regionStop); }

    q := Send(env, cfg, q, end);
  }

  method RunLoop<W>(env: Env<W>, cfg: Config, opening: Reading, start: Progress<W>) returns (p: Progress<W>)
    ensures p == Loop(env, cfg, opening, start)
  {
    p := start;
    while !Over(cfg, p)
      invariant Loop(env, cfg, opening, start) == Loop(env, cfg, opening, p)
      decreases |cfg.steps| - p.index, if Over(cfg, p) then 0 else 1
    {
      TurnAdvances(env, cfg, opening, p);
      p := TakeTurn(env, cfg, opening, p);
    }
  }

  // The origin a run is pinned to, and the regions' pins if the batch names regions.
  function PinOf<W>(open: Opening<W>): Option<string> {
    match open
    case Refused(_, origin, _) => origin
    case Opened(cfg, _, _) => Some(cfg.pinned)
  }

  function FramePins<W>(open: Opening<W>, steps: seq<Step>): Option<map<string, string>> {
    if exists k :: 0 <= k < |steps| && steps[k].frame.Some?
    then Some(if open.Refused? then open.frames else open.cfg.pinnedFrames)
    else None
  }

  // The text of a report's message: why it stopped, how far it came, of how many, on which page.
  type Wording = (Option<StopReason>, nat, nat, Option<string>) -> string

  // o reports the answer b as it came, or with its result dropped and marked as dropped.
  predicate Reports(o: Outcome, b: Outcome) {
    o == b || (b.result.Some? && o == b.(result := None, resultTruncated := true))
  }

  // These outcomes are the answers that were ok, every one of them and in order.
  ghost predicate NamesTheOk(completed: seq<Outcome>, answers: seq<Outcome>) {
    && Increasing(completed)
    && (forall i :: 0 <= i < |completed| ==>
          var k := completed[i].index; k < |answers| && answers[k].ok && Reports(completed[i], answers[k]))
    && (forall k :: 0 <= k < |answers| && answers[k].ok ==> NamedIn(completed, k))
  }

  ghost predicate NamedIn(completed: seq<Outcome>, k: nat) {
    exists i :: 0 <= i < |completed| && completed[i].index == k
  }

  // f is the first answer that was not ok; there is none without one.
  ghost predicate FirstNotOk(f: Option<Outcome>, answers: seq<Outcome>) {
    match f
    case None => forall k :: 0 <= k < |answers| ==> answers[k].ok
    case Some(o) => o.index < |answers| && answers[o.index] == o && !o.ok && forall k :: 0 <= k < o.index ==> answers[k].ok
  }

  // The report names every answer that was ok, in order, the first that was not, and how
  // many of the submitted steps are left.
  ghost predicate SaysWhatHappened(r: BatchResult, answers: seq<Outcome>, submitted: nat) {
    && NamesTheOk(r.completed, answers)
    && FirstNotOk(r.failed, answers)
    && r.remaining == submitted - |r.completed| - if r.failed.Some? then 1 else 0
  }

  lemma TrimmedNames(completed: seq<Outcome>, trimmed: seq<Outcome>, answers: seq<Outcome>)
    requires NamesTheOk(completed, answers) && |trimmed| == |completed|
    requires forall i :: 0 <= i < |completed| ==> trimmed[i] == completed[i] || trimmed[i] == Dropped(completed[i])
    ensures NamesTheOk(trimmed, answers)
  {
    forall i | 0 <= i < |completed|
      ensures trimmed[i].index == completed[i].index
      ensures var k := trimmed[i].index; k < |answers| && answers[k].ok && Reports(trimmed[i], answers[k])
    {
      var k := completed[i].index;
      assert Reports(completed[i], answers[k]);
    }
    forall k | 0 <= k < |answers| && answers[k].ok
      ensures NamedIn(trimmed, k)
    {
      assert NamedIn(completed, k);
      var i :| 0 <= i < |completed| && completed[i].index == k;
      assert trimmed[i].index == k;
    }
  }

  lemma TrimmedSays(z: Sizes, r: BatchResult, answers: seq<Outcome>, submitted: nat)
    requires SaysWhatHappened(r, answers, submitted)
    ensures SaysWhatHappened(Fitted(z, r), answers, submitted)
  {
    TrimmingKeepsTheReport(z, r);
    TrimmedNames(r.completed, Fitted(z, r).completed, answers);
  }

  lemma OkAnswersAreNamed(a: seq<Outcome>)
    requires NumberedFrom(a, 0)
    ensures NamesTheOk(Succeeded(a), a)
  {
    var completed := Succeeded(a);
    SucceededInOrder(a, 0);
    forall i | 0 <= i < |completed|
      ensures completed[i].index < |a| && a[completed[i].index] == completed[i] && completed[i].ok
    {
      assert completed[i] in completed;
      var k :| 0 <= k < |a| && a[k] == completed[i];
    }
    forall k | 0 <= k < |a| && a[k].ok
      ensures NamedIn(completed, k)
    {
      assert a[k] in completed;
      var i :| 0 <= i < |completed| && completed[i] == a[k];
    }
  }

  lemma FailureIsFirst(a: seq<Outcome>)
    requires NumberedFrom(a, 0)
    ensures FirstNotOk(FirstFailure(a), a)
  {
    NoFailureAllOk(a);
    if FirstFailure(a).Some? { FirstFailureIsFirst(a, 0); }
  }

  lemma RunSays<W>(env: Env<W>, w0: W, tabId: nat, steps: seq<Step>, approved: Option<string>,
                   approvedFrames: Option<map<string, string>>, origin: Option<string>,
                   frames: Option<map<string, string>>, message: string)
    ensures var p := Batch(env, w0, steps, approved, approvedFrames);
            SaysWhatHappened(Report(p, tabId, steps, origin, frames, message), Answers(p.trace), |steps|)
  {
    var p := Batch(env, w0, steps, approved, approvedFrames);
    AnswersAreReported(env, w0, steps, approved, approvedFrames);
    OkAnswersAreNamed(Answers(p.trace));
    FailureIsFirst(Answers(p.trace));
  }

  lemma AnswersAreReported<W>(env: Env<W>, w0: W, steps: seq<Step>, approved: Option<string>,
                              approvedFrames: Option<map<string, string>>)
    ensures var p := Batch(env, w0, steps, approved, approvedFrames);
            NumberedFrom(Answers(p.trace), 0) && p.completed == Succeeded(Answers(p.trace))
            && p.failed == FirstFailure(Answers(p.trace))
  {
    BatchIsSafe(env, w0, steps, approved, approvedFrames);
  }

  // The pins a report names are the approved ones, or else those the opening listing showed.
  lemma PinsAreReported<W>(env: Env<W>, w0: W, steps: seq<Step>, approved: Option<string>,
                           approvedFrames: Option<map<string, string>>)
    requires !Batch(env, w0, steps, approved, approvedFrames).threw
    ensures var open, reply := Open(env, w0, steps, approved, approvedFrames), env.list(w0, Framed(steps)).1;
            && reply.Listed?
            && PinOf(open) == (if approved.Some? then approved else reply.reading.origin)
            && FramePins(open, steps) == if Framed(steps) then Some(approvedFrames.GetOr(reply.reading.frames)) else None
  {
    OpeningDecides(env, w0, steps, approved, approvedFrames);
  }

  // None when a listing itself threw; otherwise the trimmed report of the run.
  method RunBatch<W>(env: Env<W>, w0: W, tabId: nat, steps: seq<Step>, approved: Option<string>,
                     approvedFrames: Option<map<string, string>>, say: Wording, z: Sizes)
      returns (out: Option<BatchResult>, p: Progress<W>)
    ensures p == Batch(env, w0, steps, approved, approvedFrames)
    ensures out.None? <==> p.threw
    ensures out.Some? ==>
              var r, reply := out.value, env.list(w0, Framed(steps)).1;
              && SaysWhatHappened(r, Answers(p.trace), |steps|) && r.remaining >= 0
              && r.tabId == tabId && r.stopped == p.stopped && reply.Listed?
              && r.origin == (if approved.Some? then approved else reply.reading.origin)
              && r.frameOrigins == (if Framed(steps) then Some(approvedFrames.GetOr(reply.reading.frames)) else None)
              && r.message == say(p.stopped, |r.completed|, |steps|, r.origin)
    ensures out.Some? ==>
              var open := Open(env, w0, steps, approved, approvedFrames);
              out.value == Fitted(z, Report(p, tabId, steps, PinOf(open), FramePins(open, steps), out.value.message))
  {
    var open := Open(env, w0, steps, approved, approvedFrames);
    match open {
      case Refused(q, _, _) => p := q;
      case Opened(cfg, reading, q) => p := RunLoop(env, cfg, reading, q);
    }
    if p.threw { return None, p; }
    var message := say(p.stopped, |p.completed|, |steps|, PinOf(open));
    var report := Report(p, tabId, steps, PinOf(open), FramePins(open, steps), message);
    var fitted := FitEnvelope(z, report);
    TrimmingKeepsTheReport(z, report);
    RunSays(env, w0, tabId, steps, approved, approvedFrames, PinOf(open), FramePins(open, steps), message);
    TrimmedSays(z, report, Answers(p.trace), |steps|);
    PinsAreReported(env, w0, steps, approved, approvedFrames);
    ReportAddsUp(env, w0, steps, approved, approvedFrames);
    out := Some(fitted);
  }
}
