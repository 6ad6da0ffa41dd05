/** The report of a batch as the text `JSON.stringify` makes of it, and that its measured size is that text's length. */
module BatchJson {
  import opened Wrappers
  import opened BatchRunner
  import opened BatchReport

  // How single values are written; `result` and `frames` may span lines where they stand.
  datatype Words = Words(
    text: string -> string, number: real -> string, result: string -> string, frames: map<string, string> -> string)

  function LengthsOf(w: Words): Sizes {
    Sizes((s: string) => |w.text(s)|, (x: real) => |w.number(x)|, (s: string) => |w.result(s)|,
          (m: map<string, string>) => |w.frames(m)|)
  }

  function Spaces(n: nat): (s: string)
    ensures |s| == n
  {
    if n == 0 then "" else Spaces(n - 1) + " "
  }

  function Quoted(s: string): (q: string)
    ensures |q| == |s| + 2
  {
    "\"" + s + "\""
  }

  // One line of an object, with its comma.
  function Line(pad: nat, key: string, value: string): (s: string)
    ensures |s| == Property(pad, |key|, |value|)
  {
    Spaces(pad) + Quoted(key) + ": " + value + ",\n"
  }

  // An object of such lines: braces around them, and no comma behind the last.
  function Object(pad: nat, lines: string): (s: string)
    requires pad >= 2 && |lines| >= 2
    ensures |s| == |lines| + pad
  {
    "{\n" + lines[..|lines| - 2] + "\n" + Spaces(pad - 2) + "}"
  }

  function NameOf(a: StepType): (s: string)
    ensures |s| == ActionName(a)
  {
    match a
    case Fill => "fill"
    case Select => "select"
    case Click => "click"
    case Keyboard => "keyboard"
    case WaitFor => "wait_for"
    case Find => "find"
    case Read => "read"
  }

  function ReasonOf(r: StopReason): (s: string)
    ensures |s| == StopName(r)
  {
    match r
    case StepFailed => "step-failed"
    case OriginChanged => "origin-changed"
    case OriginUnverifiable => "origin-unverifiable"
    case FrameOriginChanged => "frame-origin-changed"
    case TimeLimit => "time-limit"
  }

  function StepLines(w: Words, pad: nat, o: Outcome): string {
    Line(pad, "index", w.number(o.index as real)) + Line(pad, "action", Quoted(NameOf(o.action)))
    + Line(pad, "ok", if o.ok then "true" else "false") + Line(pad, "durationMs", w.number(o.durationMs))
    + (if o.result.Some? then Line(pad, "result", w.result(o.result.value)) else "")
    + (if o.resultTruncated then Line(pad, "resultTruncated", "true") else "")
    + (if o.error.Some? then Line(pad, "error", w.text(o.error.value)) else "")
  }

  function StepText(w: Words, pad: nat, o: Outcome): (s: string)
    requires pad >= 2
    ensures |s| == StepSize(LengthsOf(w), pad, o)
  {
    Object(pad, StepLines(w, pad, o))
  }

  // The steps of a list, one after the other, each with its comma.
  function StepTexts(w: Words, os: seq<Outcome>): (s: string)
    ensures |s| == StepsSize(LengthsOf(w), os)
    ensures os != [] ==> |s| >= 2
  {
    if os == [] then ""
    else StepTexts(w, os[..|os| - 1]) + Spaces(4) + StepText(w, 6, os[|os| - 1]) + ",\n"
  }

  function StepList(w: Words, os: seq<Outcome>): (s: string)
    ensures |s| == if os == [] then 2 else 4 + StepsSize(LengthsOf(w), os)
  {
    if os == [] then "[]"
    else
      var steps := StepTexts(w, os);
      "[\n" + steps[..|steps| - 2] + "\n" + Spaces(2) + "]"
  }

  // What trimming adds to the message.
  function Notice(): (s: string)
    ensures |s| == 112
  {
    var first := " Some step results were dropped to stay within the size budget; ";
    var second := "re-read what you need with find or extract_text.";
    assert |first| == 64;
    assert |second| == 48;
    first + second
  }

  function MessageOf(r: BatchResult): string {
    if r.truncated then r.message + Notice() else r.message
  }

  function HeadLines(w: Words, r: BatchResult): string {
    Line(2, "tabId", w.number(r.tabId as real))
    + Line(2, "origin", if r.origin.Some? then w.text(r.origin.value) else "null")
    + (if r.frameOrigins.Some? then Line(2, "frameOrigins", w.frames(r.frameOrigins.value)) else "")
  }

  function StepsLines(w: Words, r: BatchResult): string {
    Line(2, "completedSteps", StepList(w, r.completed))
    + (if r.failed.Some? then Line(2, "failedStep", StepText(w, 4, r.failed.value)) else "")
    + Line(2, "remainingSteps", w.number(r.remaining as real))
  }

  function EndLines(w: Words, r: BatchResult): string {
    (if r.stopped.Some? then Line(2, "stopped", Quoted(ReasonOf(r.stopped.value))) else "")
    + Line(2, "message", w.text(MessageOf(r)))
    + (if r.truncated then Line(2, "truncated", "true") else "")
  }

  function ReportText(w: Words, r: BatchResult): string {
    Object(2, HeadLines(w, r) + StepsLines(w, r) + EndLines(w, r))
  }

  function HeadSize(z: Sizes, r: BatchResult): nat {
    Property(2, 5, z.number(r.tabId as real)) + Property(2, 6, if r.origin.Some? then z.text(r.origin.value) else 4)
    + (if r.frameOrigins.Some? then Property(2, 12, z.frames(r.frameOrigins.value)) else 0)
  }

  function StepsPartSize(z: Sizes, r: BatchResult): nat {
    Property(2, 14, if r.completed == [] then 2 else 4 + StepsSize(z, r.completed))
    + (if r.failed.Some? then Property(2, 10, StepSize(z, 4, r.failed.value)) else 0)
    + Property(2, 14, z.number(r.remaining as real))
  }

  function EndSize(z: Sizes, r: BatchResult): nat {
    (if r.stopped.Some? then Property(2, 7, StopName(r.stopped.value) + 2) else 0)
    + Property(2, 7, z.text(r.message)) + if r.truncated then NOTICE_CHARS else 0
  }

  lemma SizeOfParts(z: Sizes, r: BatchResult)
    ensures SizeOf(z, r) == 2 + HeadSize(z, r) + StepsPartSize(z, r) + EndSize(z, r)
  {
  }

  lemma HeadLength(w: Words, r: BatchResult)
    ensures |HeadLines(w, r)| == HeadSize(LengthsOf(w), r)
  {
  }

  lemma StepsLength(w: Words, r: BatchResult)
    ensures |StepsLines(w, r)| == StepsPartSize(LengthsOf(w), r)
  {
  }

  lemma EndLength(w: Words, r: BatchResult)
    requires forall s :: |w.text(s + Notice())| == |w.text(s)| + |Notice()|
    ensures |EndLines(w, r)| == EndSize(LengthsOf(w), r)
  {
  }

  lemma PartsLength(w: Words, r: BatchResult)
    ensures |ReportText(w, r)| == 2 + |HeadLines(w, r)| + |StepsLines(w, r)| + |EndLines(w, r)|
  {
  }

  // Where the notice is written as it stands, the size a report is measured by is the
  // length of its text.
  lemma SizeIsLength(w: Words, r: BatchResult)
    requires forall s :: |w.text(s + Notice())| == |w.text(s)| + |Notice()|
    ensures |ReportText(w, r)| == SizeOf(LengthsOf(w), r)
  {
    HeadLength(w, r);
    StepsLength(w, r);
    EndLength(w, r);
    PartsLength(w, r);
    SizeOfParts(LengthsOf(w), r);
  }
}
