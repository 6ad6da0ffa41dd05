/** What every run of a batch keeps, whatever the environment answers. */
module BatchSafety {
  import opened Wrappers
  import opened BatchRunner

  // Every answer received, in dispatch order.
  function Answers(trace: seq<TraceEvent>): seq<Outcome> {
    if trace == [] then []
    else
      var last := trace[|trace| - 1];
      Answers(trace[..|trace| - 1]) + if last.Sent? then last.outcomes else []
  }

  lemma AnswersSnoc(trace: seq<TraceEvent>, e: TraceEvent)
    ensures Answers(trace + [e]) == Answers(trace) + if e.Sent? then e.outcomes else []
  {
    assert (trace + [e])[..|trace|] == trace;
  }

  // Steps 0, 1, ... answered in this order, all of them ok.
  ghost predicate AllOk(a: seq<Outcome>) {
    NumberedFrom(a, 0) && forall k :: 0 <= k < |a| ==> a[k].ok
  }

  // A step aimed into a region finds it at that region's pin and carries that pin.
  ghost predicate PinnedTo(cfg: Config, frames: map<string, string>, d: Dispatch) {
    if d.step.frame.Some? then
      var f := d.step.frame.value;
      f in cfg.pinnedFrames && f in frames && frames[f] == cfg.pinnedFrames[f] && d.pin == Some(cfg.pinnedFrames[f])
    else d.pin.None?
  }

  // The listing just before a group showed the tab at the pin and every region the
  // group names at that region's pin, and each step carries its own region's pin.
  // The first group of a gated run may follow an opening listing without an origin.
  ghost predicate GroupSafe(cfg: Config, trace: seq<TraceEvent>, t: nat)
    requires t < |trace| && trace[t].Sent?
  {
    && t > 0 && trace[t - 1].Seen?
    && var seen := trace[t - 1].reading;
       && (seen.origin == Some(cfg.pinned) || (t == 1 && cfg.gated && seen.origin.None?))
       && forall d :: d in trace[t].group ==> PinnedTo(cfg, seen.frames, d)
  }

  // A group is sent only after every earlier step answered ok, it is the next
  // stretch of submitted steps, and only reads share a group.
  ghost predicate GroupInOrder(cfg: Config, trace: seq<TraceEvent>, t: nat)
    requires t < |trace| && trace[t].Sent?
  {
    var group, before := trace[t].group, Answers(trace[..t]);
    && AllOk(before)
    && 0 < |group| == |trace[t].outcomes| <= |cfg.steps| - |before|
    && (forall k :: 0 <= k < |group| ==> group[k].index == |before| + k && group[k].step == cfg.steps[|before| + k])
    && (|group| > 1 ==> forall k :: 0 <= k < |group| ==> IsRead(group[k].step))
  }

  ghost predicate TraceSafe(cfg: Config, trace: seq<TraceEvent>) {
    forall t :: 0 <= t < |trace| && trace[t].Sent? ==> GroupSafe(cfg, trace, t) && GroupInOrder(cfg, trace, t)
  }

  // The report accounts for every answer: the completed steps are all that answered
  // ok, the failed step is the first that did not, and while nothing failed the
  // next step is the first unanswered one.
  ghost predicate Accounted<W>(cfg: Config, p: Progress<W>) {
    var a := Answers(p.trace);
    && |a| <= |cfg.steps|
    && NumberedFrom(a, 0)
    && p.completed == Succeeded(a)
    && p.failed == FirstFailure(a)
    && (p.failed.None? ==> p.index == |a|)
    && (p.failed.Some? ==> p.stopped == Some(StepFailed))
  }

  // State of the loop before the first turn: only the opening listing was seen.
  ghost predicate FreshlyOpened<W>(cfg: Config, opening: Reading, p: Progress<W>) {
    p.index == 0 && !p.threw && p.stopped.None? ==>
      p.trace == [Seen(opening)] && (opening.origin == Some(cfg.pinned) || (cfg.gated && opening.origin.None?))
  }

  ghost predicate RunValid<W>(cfg: Config, opening: Reading, p: Progress<W>) {
    && TraceSafe(cfg, p.trace)
    && Accounted(cfg, p)
    && FreshlyOpened(cfg, opening, p)
    && (p.failed.Some? ==> p.stopped.Some?)
  }

  lemma ConcatTail<T>(a: seq<T>, b: seq<T>)
    requires a != []
    ensures (a + b)[0] == a[0] && (a + b)[1..] == a[1..] + b
  {
  }

  lemma {:induction false} SucceededConcat(a: seq<Outcome>, b: seq<Outcome>)
    ensures Succeeded(a + b) == Succeeded(a) + Succeeded(b)
  {
    if a == [] {
      assert a + b == b;
    } else {
      SucceededConcat(a[1..], b);
      ConcatTail(a, b);
    }
  }

  lemma {:induction false} FirstFailureConcat(a: seq<Outcome>, b: seq<Outcome>)
    ensures FirstFailure(a + b) == if FirstFailure(a).Some? then FirstFailure(a) else FirstFailure(b)
  {
    if a == [] {
      assert a + b == b;
    } else {
      FirstFailureConcat(a[1..], b);
      ConcatTail(a, b);
    }
  }

  lemma {:induction false} NoFailureAllOk(a: seq<Outcome>)
    ensures FirstFailure(a).None? <==> forall k :: 0 <= k < |a| ==> a[k].ok
  {
    if a != [] {
      NoFailureAllOk(a[1..]);
      assert forall k :: 0 < k < |a| ==> a[k] == a[1..][k - 1];
    }
  }

  lemma CheckedGroup(cfg: Config, reading: Reading, i: nat, end: nat, budget: real)
    requires i <= end <= |cfg.steps| && CheckStop(cfg, reading, cfg.steps[i..end]).None?
    ensures reading.origin == Some(cfg.pinned)
    ensures forall d :: d in GroupOf(cfg, i, end, budget) ==> PinnedTo(cfg, reading.frames, d)
  {
    var group, steps := GroupOf(cfg, i, end, budget), cfg.steps[i..end];
    forall k | 0 <= k < |group|
      ensures PinnedTo(cfg, reading.frames, group[k])
    {
      assert steps[k] == cfg.steps[i + k];
    }
  }

  // The accounting half of one dispatched group.
  lemma {:induction false} AbsorbAccounted<W>(cfg: Config, p: Progress<W>, w: W, end: nat, sent: TraceEvent)
    requires Accounted(cfg, p) && p.failed.None? && sent.Sent?
    requires NumberedFrom(sent.outcomes, p.index) && end == p.index + |sent.outcomes| <= |cfg.steps|
    ensures Accounted(cfg, Absorb(p, w, end, sent))
  {
    AnswersSnoc(p.trace, sent);
    SucceededConcat(Answers(p.trace), sent.outcomes);
    FirstFailureConcat(Answers(p.trace), sent.outcomes);
  }

  lemma {:induction false} SendAccounted<W>(env: Env<W>, cfg: Config, p: Progress<W>, end: nat)
    requires p.index < end <= |cfg.steps| && Accounted(cfg, p) && p.failed.None?
    ensures Accounted(cfg, SendGroup(env, cfg, p, end))
  {
    DispatchedNumbered(env, cfg, p, end);
    var r := Dispatched(env, p.w, NextGroup(env, cfg, p, end));
    AbsorbAccounted(cfg, p, r.0, end, r.1);
  }

  // One more event keeps what was safe, and is safe itself if it was sent as it should.
  lemma TraceSafeSnoc(cfg: Config, trace: seq<TraceEvent>, e: TraceEvent)
    requires TraceSafe(cfg, trace)
    requires e.Sent? ==> GroupSafe(cfg, trace + [e], |trace|) && GroupInOrder(cfg, trace + [e], |trace|)
    ensures TraceSafe(cfg, trace + [e])
  {
    var more := trace + [e];
    forall t | 0 <= t < |more| && more[t].Sent?
      ensures GroupSafe(cfg, more, t) && GroupInOrder(cfg, more, t)
    {
      if t < |trace| {
        assert more[..t] == trace[..t];
        assert more[t] == trace[t];
      }
    }
  }

  // A listing fit for the group at hand, possibly the opening one of a gated run.
  ghost predicate FitReading(cfg: Config, trace: seq<TraceEvent>, i: nat)
    requires i < |cfg.steps|
  {
    && trace != [] && trace[|trace| - 1].Seen?
    && var seen := trace[|trace| - 1].reading;
       && (seen.origin == Some(cfg.pinned) || (|trace| == 1 && cfg.gated && seen.origin.None?))
       && CheckStop(cfg, seen.(origin := Some(cfg.pinned)), cfg.steps[i..GroupEnd(cfg.steps, i)]).None?
  }

  lemma GroupIsInOrder(cfg: Config, trace: seq<TraceEvent>, i: nat, budget: real, e: TraceEvent)
    requires i < |cfg.steps| && AllOk(Answers(trace)) && |Answers(trace)| == i
    requires e.Sent? && e.group == GroupOf(cfg, i, GroupEnd(cfg.steps, i), budget) && |e.outcomes| == |e.group|
    ensures GroupInOrder(cfg, trace + [e], |trace|)
  {
    assert (trace + [e])[..|trace|] == trace;
  }

  // The checks half of one dispatched group.
  lemma SendSafe<W>(env: Env<W>, cfg: Config, p: Progress<W>)
    requires p.index < |cfg.steps| && TraceSafe(cfg, p.trace) && Accounted(cfg, p) && p.failed.None?
    requires FitReading(cfg, p.trace, p.index)
    ensures TraceSafe(cfg, SendGroup(env, cfg, p, GroupEnd(cfg.steps, p.index)).trace)
  {
    var end := GroupEnd(cfg.steps, p.index);
    var e := SendGroup(env, cfg, p, end).trace[|p.trace|];
    var budget := Max(0.0, MAX_BATCH_DURATION_MS - (env.clock(p.w) - cfg.startedAt));
    CheckedGroup(cfg, p.trace[|p.trace| - 1].reading.(origin := Some(cfg.pinned)), p.index, end, budget);
    NoFailureAllOk(Answers(p.trace));
    GroupIsInOrder(cfg, p.trace, p.index, budget, e);
    TraceSafeSnoc(cfg, p.trace, e);
  }

  // Another listing leaves a run valid.
  lemma ListingValid<W>(cfg: Config, opening: Reading, p: Progress<W>, q: Progress<W>, r: Reading)
    requires RunValid(cfg, opening, p) && p.index > 0
    requires q == p.(w := q.w, trace := p.trace + [Seen(r)])
    ensures RunValid(cfg, opening, q)
  {
    AnswersSnoc(p.trace, Seen(r));
    TraceSafeSnoc(cfg, p.trace, Seen(r));
    assert Answers(p.trace) + [] == Answers(p.trace);
  }

  lemma ReadValid<W>(env: Env<W>, cfg: Config, opening: Reading, p: Progress<W>)
    requires RunValid(cfg, opening, p) && !Over(cfg, p)
    ensures var q := ReadForTurn(env, cfg, opening, p).0;
            RunValid(cfg, opening, q) && q.index == p.index && q.failed.None? && q.stopped.None?
  {
    var (q, reading) := ReadForTurn(env, cfg, opening, p);
    if p.index > 0 && !q.threw {
      ListingValid(cfg, opening, p, q, reading);
    }
  }

  lemma ReadFit<W>(env: Env<W>, cfg: Config, opening: Reading, p: Progress<W>)
    requires FreshlyOpened(cfg, opening, p) && !Over(cfg, p)
    ensures var (q, reading) := ReadForTurn(env, cfg, opening, p);
            !q.threw && CheckStop(cfg, reading, cfg.steps[q.index..GroupEnd(cfg.steps, q.index)]).None? ==>
              FitReading(cfg, q.trace, q.index)
  {
    var (q, reading) := ReadForTurn(env, cfg, opening, p);
    assert reading.origin == Some(cfg.pinned) ==> reading == reading.(origin := Some(cfg.pinned));
  }

  lemma TurnValid<W>(env: Env<W>, cfg: Config, opening: Reading, p: Progress<W>)
    requires RunValid(cfg, opening, p) && !Over(cfg, p)
    ensures RunValid(cfg, opening, Turn(env, cfg, opening, p))
  {
    if env.clock(p.w) - cfg.startedAt < MAX_BATCH_DURATION_MS {
      var (q, reading) := ReadForTurn(env, cfg, opening, p);
      ReadValid(env, cfg, opening, p);
      ReadFit(env, cfg, opening, p);
      if !q.threw && CheckStop(cfg, reading, cfg.steps[q.index..GroupEnd(cfg.steps, q.index)]).None? {
        SendSafe(env, cfg, q);
        SendAccounted(env, cfg, q, GroupEnd(cfg.steps, q.index));
      }
    }
  }

  lemma {:induction false} LoopValid<W>(env: Env<W>, cfg: Config, opening: Reading, p: Progress<W>)
    requires RunValid(cfg, opening, p)
    ensures RunValid(cfg, opening, Loop(env, cfg, opening, p))
    decreases |cfg.steps| - p.index, if Over(cfg, p) then 0 else 1
  {
    if !Over(cfg, p) {
      TurnAdvances(env, cfg, opening, p);
      TurnValid(env, cfg, opening, p);
      var q := Turn(env, cfg, opening, p);
      if !Over(cfg, q) {
        LoopValid(env, cfg, opening, q);
      }
    }
  }

  lemma NothingAnswered(trace: seq<TraceEvent>)
    requires trace == [] || (|trace| == 1 && trace[0].Seen?)
    ensures Answers(trace) == []
  {
    if trace != [] {
      AnswersSnoc([], trace[0]);
      assert [] + [trace[0]] == trace;
    }
  }

  lemma OpenedIsValid<W>(env: Env<W>, w: W, steps: seq<Step>, approved: Option<string>,
      approvedFrames: Option<map<string, string>>)
    ensures match Open(env, w, steps, approved, approvedFrames)
            case Refused(p, _, _) =>
              Answers(p.trace) == [] && p.completed == [] && p.failed.None? && (p.threw || p.stopped.Some?)
            case Opened(cfg, reading, p) => RunValid(cfg, reading, p)
  {
    var open := Open(env, w, steps, approved, approvedFrames);
    NothingAnswered(open.p.trace);
  }

  // Every group of every run was checked before any of it was sent, and nothing is
  // sent unless every earlier step answered ok. A refused run sends nothing.
  lemma BatchIsSafe<W>(env: Env<W>, w0: W, steps: seq<Step>, approved: Option<string>,
      approvedFrames: Option<map<string, string>>)
    ensures var r, open := Batch(env, w0, steps, approved, approvedFrames), Open(env, w0, steps, approved, approvedFrames);
            match open
            case Refused(_, _, _) =>
              Answers(r.trace) == [] && r.completed == [] && r.failed.None? && (r.threw || r.stopped.Some?)
            case Opened(cfg, _, _) => TraceSafe(cfg, r.trace) && Accounted(cfg, r)
  {
    OpenedIsValid(env, w0, steps, approved, approvedFrames);
    match Open(env, w0, steps, approved, approvedFrames) {
      case Refused(_, _, _) =>
      case Opened(cfg, reading, p) => LoopValid(env, cfg, reading, p);
    }
  }

  // A run is refused exactly when the opening listing threw, shows another origin than
  // the approved one, or leaves nothing to pin. Otherwise the approved origin and the
  // approved regions are the pins, never the observed ones.
  lemma OpeningDecides<W>(env: Env<W>, w: W, steps: seq<Step>, approved: Option<string>,
      approvedFrames: Option<map<string, string>>)
    ensures var open, reply := Open(env, w, steps, approved, approvedFrames),
                               env.list(w, exists k :: 0 <= k < |steps| && steps[k].frame.Some?).1;
            && (open.Refused? <==>
                  || reply.Threw?
                  || (approved.Some? && reply.reading.origin.Some? && reply.reading.origin != approved)
                  || (approved.None? && reply.reading.origin.None?))
            && (open.Opened? ==>
                  && open.cfg.steps == steps && open.reading == reply.reading
                  && open.cfg.pinned == approved.GetOr(reply.reading.origin.GetOr(""))
                  && open.cfg.pinnedFrames == approvedFrames.GetOr(reply.reading.frames))
  {
  }

  // d left alone, as the submitted step of its index, after every earlier step answered ok.
  ghost predicate LeavesInTurn(steps: seq<Step>, trace: seq<TraceEvent>, t: nat, d: Dispatch)
    requires t < |trace| && trace[t].Sent?
  {
    && trace[t].group == [d] && d.index < |steps| && d.step == steps[d.index]
    && AllOk(Answers(trace[..t])) && |Answers(trace[..t])| == d.index
  }

  lemma InOrderMeansInTurn(cfg: Config, trace: seq<TraceEvent>, t: nat, d: Dispatch)
    requires t < |trace| && trace[t].Sent? && GroupInOrder(cfg, trace, t)
    requires d in trace[t].group && !IsRead(d.step)
    ensures LeavesInTurn(cfg.steps, trace, t, d)
  {
    var k :| 0 <= k < |trace[t].group| && trace[t].group[k] == d;
    assert trace[t].group == [trace[t].group[0]];
  }

  ghost predicate ActionsInTurn(steps: seq<Step>, trace: seq<TraceEvent>) {
    forall t, d :: 0 <= t < |trace| && trace[t].Sent? && d in trace[t].group && !IsRead(d.step) ==>
                     LeavesInTurn(steps, trace, t, d)
  }

  lemma SafeMeansInTurn(cfg: Config, trace: seq<TraceEvent>)
    requires TraceSafe(cfg, trace)
    ensures ActionsInTurn(cfg.steps, trace)
  {
    forall t, d | 0 <= t < |trace| && trace[t].Sent? && d in trace[t].group && !IsRead(d.step)
      ensures LeavesInTurn(cfg.steps, trace, t, d)
    {
      InOrderMeansInTurn(cfg, trace, t, d);
    }
  }

  // An action, as opposed to a read, leaves alone and only after every earlier step answered ok.
  lemma ActionsWaitTheirTurn<W>(env: Env<W>, w0: W, steps: seq<Step>, approved: Option<string>,
      approvedFrames: Option<map<string, string>>)
    ensures ActionsInTurn(steps, Batch(env, w0, steps, approved, approvedFrames).trace)
  {
    var open := Open(env, w0, steps, approved, approvedFrames);
    if open.Opened? {
      BatchIsSafe(env, w0, steps, approved, approvedFrames);
      OpeningDecides(env, w0, steps, approved, approvedFrames);
      SafeMeansInTurn(open.cfg, Batch(env, w0, steps, approved, approvedFrames).trace);
    }
  }

  ghost predicate Increasing(os: seq<Outcome>) {
    forall i, j :: 0 <= i < j < |os| ==> os[i].index < os[j].index
  }

  lemma {:induction false} SucceededInOrder(os: seq<Outcome>, base: nat)
    requires NumberedFrom(os, base)
    ensures Increasing(Succeeded(os))
    ensures forall o :: o in Succeeded(os) <==> o in os && o.ok
    ensures forall o :: o in Succeeded(os) ==> base <= o.index
    ensures |Succeeded(os)| <= |os|
  {
    if os != [] {
      SucceededInOrder(os[1..], base + 1);
      assert os == [os[0]] + os[1..];
    }
  }

  lemma {:induction false} FirstFailureIsFirst(os: seq<Outcome>, base: nat)
    requires NumberedFrom(os, base) && FirstFailure(os).Some?
    ensures var f := FirstFailure(os).value;
            && base <= f.index < base + |os| && os[f.index - base] == f && !f.ok
            && |Succeeded(os)| < |os|
            && forall k :: 0 <= k < f.index - base ==> os[k].ok
  {
    SucceededInOrder(os[1..], base + 1);
    if os[0].ok {
      FirstFailureIsFirst(os[1..], base + 1);
      assert forall k :: 0 < k < |os| ==> os[k] == os[1..][k - 1];
    }
  }

  // The failed answers are the first failure and those after it.
  lemma {:induction false} FailuresOf(os: seq<Outcome>)
    ensures FirstFailure(os) == if Failures(os) == [] then None else Some(Failures(os)[0])
    ensures |Succeeded(os)| + |Failures(os)| == |os|
    ensures forall o :: o in Failures(os) <==> o in os && !o.ok
  {
    if os != [] {
      FailuresOf(os[1..]);
      assert os == [os[0]] + os[1..];
    }
  }

  // Event t sent the last group of the trace, and every answer before it was ok.
  ghost predicate AllFailedLast(trace: seq<TraceEvent>, t: nat) {
    && t < |trace| && trace[t].Sent? && (forall u :: t < u < |trace| ==> trace[u].Seen?)
    && AllOk(Answers(trace[..t]))
    && (forall o :: o in Failures(Answers(trace)) ==> o in trace[t].outcomes)
    && (|Failures(Answers(trace))| > 1 ==> forall d :: d in trace[t].group ==> IsRead(d.step))
  }

  lemma {:induction false} FailuresOfOk(a: seq<Outcome>, b: seq<Outcome>)
    requires forall k :: 0 <= k < |a| ==> a[k].ok
    ensures Failures(a + b) == Failures(b)
  {
    if a == [] {
      assert a + b == b;
    } else {
      FailuresOfOk(a[1..], b);
      assert (a + b)[1..] == a[1..] + b;
    }
  }

  // The last group sent among the first n events.
  lemma {:induction false} LastSent(trace: seq<TraceEvent>, n: nat) returns (t: nat)
    requires n <= |trace| && Answers(trace[..n]) != []
    ensures t < n && trace[t].Sent? && (forall u :: t < u < n ==> trace[u].Seen?)
    ensures Answers(trace[..n]) == Answers(trace[..t]) + trace[t].outcomes
  {
    assert trace[..n] == trace[..n - 1] + [trace[n - 1]];
    AnswersSnoc(trace[..n - 1], trace[n - 1]);
    if trace[n - 1].Sent? {
      t := n - 1;
    } else {
      t := LastSent(trace, n - 1);
    }
  }

  lemma {:induction false} FailuresAreLast(cfg: Config, trace: seq<TraceEvent>) returns (t: nat)
    requires TraceSafe(cfg, trace) && Failures(Answers(trace)) != []
    ensures AllFailedLast(trace, t)
  {
    assert trace[..|trace|] == trace;
    t := LastSent(trace, |trace|);
    assert GroupInOrder(cfg, trace, t);
    FailuresOfOk(Answers(trace[..t]), trace[t].outcomes);
    FailuresOf(trace[t].outcomes);
  }

  // What the report adds up to: completed, failed and remaining are the submitted
  // steps, and the remaining ones are those never answered and the failures after the
  // first. All failures were answered by the last group sent, of reads if there are several.
  lemma ReportAddsUp<W>(env: Env<W>, w0: W, steps: seq<Step>, approved: Option<string>,
      approvedFrames: Option<map<string, string>>)
    ensures var r := Batch(env, w0, steps, approved, approvedFrames);
            var a := Answers(r.trace);
            var later := if Failures(a) == [] then [] else Failures(a)[1..];
            var remaining := |steps| - (|r.completed| + if r.failed.Some? then 1 else 0);
            && |a| <= |steps| && remaining == (|steps| - |a|) + |later|
            && Increasing(r.completed)
            && (forall o :: o in r.completed <==> o in a && o.ok)
            && (r.failed.None? <==> Failures(a) == [])
            && (r.failed.Some? ==>
                  && r.failed.value == Failures(a)[0] && r.stopped == Some(StepFailed)
                  && (forall o :: o in a && o.index < r.failed.value.index ==> o.ok)
                  && exists t :: AllFailedLast(r.trace, t))
            && (r.stopped.None? && !r.threw ==> remaining == 0 && r.failed.None? && |r.completed| == |steps|)
  {
    var r := Batch(env, w0, steps, approved, approvedFrames);
    var a := Answers(r.trace);
    var open := Open(env, w0, steps, approved, approvedFrames);
    BatchIsSafe(env, w0, steps, approved, approvedFrames);
    FailuresOf(a);
    if open.Opened? {
      OpeningDecides(env, w0, steps, approved, approvedFrames);
      ReportOfAnswers(a);
      LoopIsOver(env, open.cfg, open.reading, open.p);
      if Failures(a) != [] {
        var t := FailuresAreLast(open.cfg, r.trace);
      }
    }
  }

  lemma ReportOfAnswers(a: seq<Outcome>)
    requires NumberedFrom(a, 0)
    ensures Increasing(Succeeded(a))
    ensures forall o :: o in Succeeded(a) <==> o in a && o.ok
    ensures FirstFailure(a).Some? ==> forall o :: o in a && o.index < FirstFailure(a).value.index ==> o.ok
  {
    SucceededInOrder(a, 0);
    if FirstFailure(a).Some? {
      FirstFailureIsFirst(a, 0);
    }
  }

  lemma {:induction false} LoopIsOver<W>(env: Env<W>, cfg: Config, opening: Reading, p: Progress<W>)
    ensures Over(cfg, Loop(env, cfg, opening, p))
    decreases |cfg.steps| - p.index, if Over(cfg, p) then 0 else 1
  {
    if !Over(cfg, p) {
      TurnAdvances(env, cfg, opening, p);
      var q := Turn(env, cfg, opening, p);
      if !Over(cfg, q) {
        LoopIsOver(env, cfg, opening, q);
      }
    }
  }
}
