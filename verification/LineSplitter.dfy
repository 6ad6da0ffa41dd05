/**
 Newline framing of a byte stream that arrives in arbitrary chunks. The cut is made
 on bytes and every finished line is decoded whole, so `decode` may be any function.
 */
module LineSplitter {

  newtype Byte = b: int | 0 <= b < 256

  const LINE_FEED: Byte := 0x0a
  const CARRIAGE_RETURN: Byte := 0x0d

  type Bytes = seq<Byte>

  type Decoder = Bytes -> string

  function WithoutCr(line: Bytes): Bytes {
    if line != [] && line[|line| - 1] == CARRIAGE_RETURN then line[..|line| - 1] else line
  }

  // The stream read byte by byte: the lines finished so far, and the unfinished one.
  function Cut(s: Bytes): seq<Bytes> {
    if s == [] then []
    else
      var init := s[..|s| - 1];
      if s[|s| - 1] == LINE_FEED then Cut(init) + [Rest(init)] else Cut(init)
  }

  function Rest(s: Bytes): (r: Bytes)
    ensures LINE_FEED !in r
  {
    if s == [] || s[|s| - 1] == LINE_FEED then [] else Rest(s[..|s| - 1]) + [s[|s| - 1]]
  }

  function Flatten(chunks: seq<Bytes>): Bytes {
    if chunks == [] then [] else Flatten(chunks[..|chunks| - 1]) + chunks[|chunks| - 1]
  }

  function DecodeAll(decode: Decoder, cut: seq<Bytes>): (lines: seq<string>)
    ensures |lines| == |cut|
    ensures forall k :: 0 <= k < |cut| ==> lines[k] == decode(WithoutCr(cut[k]))
  {
    if cut == [] then [] else [decode(WithoutCr(cut[0]))] + DecodeAll(decode, cut[1..])
  }

  // What a stream says once it has ended: a last line without terminator counts.
  function Lines(decode: Decoder, s: Bytes): seq<string> {
    DecodeAll(decode, Cut(s)) + if Rest(s) == [] then [] else [decode(WithoutCr(Rest(s)))]
  }

  // Chunks of the unfinished line, and the lines handed over so far.
  datatype Splitter = Splitter(pending: seq<Bytes>, lines: seq<string>)

  const START := Splitter([], [])

  // One chunk: it finishes every line it holds a feed for and leaves its tail behind.
  function Push(decode: Decoder, s: Splitter, chunk: Bytes): Splitter {
    if chunk == [] then s
    else if LINE_FEED !in chunk then s.(pending := s.pending + [chunk])
    else Splitter(if Rest(chunk) == [] then [] else [Rest(chunk)],
                  s.lines + DecodeAll(decode, Cut(Flatten(s.pending) + chunk)))
  }

  function End(decode: Decoder, s: Splitter): Splitter {
    if s.pending == [] then s
    else Splitter([], s.lines + [decode(WithoutCr(Flatten(s.pending)))])
  }

  function PushAll(decode: Decoder, chunks: seq<Bytes>): Splitter {
    if chunks == [] then START else Push(decode, PushAll(decode, chunks[..|chunks| - 1]), chunks[|chunks| - 1])
  }

  lemma CutSnoc(s: Bytes, b: Byte)
    ensures Cut(s + [b]) == Cut(s) + if b == LINE_FEED then [Rest(s)] else []
    ensures Rest(s + [b]) == if b == LINE_FEED then [] else Rest(s) + [b]
  {
    assert (s + [b])[..|s|] == s;
  }

  lemma {:induction false} NoFeedAfter(s: Bytes, k: nat)
    requires k <= |s| && LINE_FEED !in s[k..]
    ensures Cut(s) == Cut(s[..k]) && Rest(s) == Rest(s[..k]) + s[k..]
  {
    if k == |s| {
      assert s[..k] == s;
    } else {
      var init, last := s[..|s| - 1], |s| - 1;
      assert init[..k] == s[..k] && init[k..] + [s[last]] == s[k..];
      NoFeedAfter(init, k);
      assert s[last] in s[k..];
      assert Rest(s) == Rest(init) + [s[last]];
    }
  }

  // Bytes without a feed only lengthen the unfinished line.
  lemma NoFeed(s: Bytes, more: Bytes)
    requires LINE_FEED !in more
    ensures Cut(s + more) == Cut(s) && Rest(s + more) == Rest(s) + more
  {
    assert (s + more)[..|s|] == s && (s + more)[|s|..] == more;
    NoFeedAfter(s + more, |s|);
  }

  lemma LineClosed(s: Bytes, line: Bytes)
    requires LINE_FEED !in line
    ensures Cut(s + line + [LINE_FEED]) == Cut(s) + [Rest(s) + line]
    ensures Rest(s + line + [LINE_FEED]) == []
  {
    NoFeed(s, line);
    CutSnoc(s + line, LINE_FEED);
  }

  // `whole` holds what `done` holds, and then what its unfinished line becomes with `more`.
  ghost predicate Continues(whole: Bytes, done: Bytes, more: Bytes) {
    Cut(whole) == Cut(done) + Cut(more) && Rest(whole) == Rest(more)
  }

  lemma {:induction false} ContinuesSnoc(whole: Bytes, done: Bytes, more: Bytes, b: Byte)
    requires Continues(whole, done, more)
    ensures Continues(whole + [b], done, more + [b])
  {
    CutSnoc(whole, b);
    CutSnoc(more, b);
  }

  // Only the unfinished line of what came before matters to what comes next.
  lemma {:induction false} CutOfConcat(a: Bytes, b: Bytes)
    ensures Continues(a + b, a, Rest(a) + b)
  {
    if b == [] {
      assert a + b == a && Rest(a) + b == [] + Rest(a);
      NoFeed([], Rest(a));
    } else {
      var init, x := b[..|b| - 1], b[|b| - 1];
      CutOfConcat(a, init);
      ContinuesSnoc(a + init, a, Rest(a) + init, x);
      assert a + b == (a + init) + [x];
      assert Rest(a) + b == (Rest(a) + init) + [x];
    }
  }

  // After a feed the rest of a chunk starts a line of its own.
  lemma RestForgets(a: Bytes, b: Bytes)
    requires LINE_FEED in b
    ensures Rest(a + b) == Rest(b)
  {
    var init, x := b[..|b| - 1], b[|b| - 1];
    assert a + b == (a + init) + [x] && b == init + [x];
    CutSnoc(a + init, x);
    CutSnoc(init, x);
    if x != LINE_FEED {
      RestForgets(a, init);
    }
  }

  lemma FlattenSnoc(chunks: seq<Bytes>, chunk: Bytes)
    ensures Flatten(chunks + [chunk]) == Flatten(chunks) + chunk
  {
    assert (chunks + [chunk])[..|chunks|] == chunks;
  }

  lemma {:induction false} DecodeAllConcat(decode: Decoder, a: seq<Bytes>, b: seq<Bytes>)
    ensures DecodeAll(decode, a + b) == DecodeAll(decode, a) + DecodeAll(decode, b)
  {
  }

  ghost predicate SplitterValid(s: Splitter) {
    LINE_FEED !in Flatten(s.pending) && (s.pending == [] <==> Flatten(s.pending) == [])
  }

  lemma PushExtends(decode: Decoder, s: Splitter, chunk: Bytes)
    requires SplitterValid(s)
    ensures var t, joined := Push(decode, s, chunk), Flatten(s.pending) + chunk;
            && SplitterValid(t)
            && t.lines == s.lines + DecodeAll(decode, Cut(joined))
            && Flatten(t.pending) == Rest(joined)
  {
    var carried := Flatten(s.pending);
    FlattenSnoc(s.pending, chunk);
    NoFeed([], carried);
    assert [] + carried == carried;
    if LINE_FEED in chunk {
      RestForgets(carried, chunk);
      FlattenSnoc([], Rest(chunk));
    } else {
      NoFeed(carried, chunk);
      assert carried + [] == carried;
    }
  }

  // After `read` the finished lines are out and the unfinished one is kept.
  ghost predicate Handed(decode: Decoder, before: seq<string>, read: Bytes, s: Splitter) {
    s.lines == before + DecodeAll(decode, Cut(read)) && Flatten(s.pending) == Rest(read)
  }

  lemma {:induction false} NothingRead(decode: Decoder, s: Splitter, chunk: Bytes)
    requires SplitterValid(s)
    ensures Handed(decode, s.lines, Flatten(s.pending) + chunk[..0], s)
  {
    var carried := Flatten(s.pending);
    NoFeed([], carried);
    assert [] + carried == carried + chunk[..0] == carried;
  }

  lemma LineBytes(carried: Bytes, chunk: Bytes, start: nat, index: nat)
    requires start <= index < |chunk| && chunk[index] == LINE_FEED
    ensures carried + chunk[..index + 1] == carried + chunk[..start] + chunk[start..index] + [LINE_FEED]
  {
  }

  lemma {:induction false} ClosedLineHanded(decode: Decoder, before: seq<string>, s: Splitter, read: Bytes, line: Bytes)
    requires Handed(decode, before, read, s) && LINE_FEED !in line
    ensures Handed(decode, before, read + line + [LINE_FEED],
                   Splitter([], s.lines + [decode(WithoutCr(Flatten(s.pending) + line))]))
  {
    LineClosed(read, line);
    DecodeAllConcat(decode, Cut(read), [Rest(read) + line]);
  }

  // The line between `start` and the next feed, at `index`, is handed over.
  lemma {:induction false} LineRead(decode: Decoder, before: seq<string>, s: Splitter,
                                    carried: Bytes, chunk: Bytes, start: nat, index: nat)
    requires start <= index < |chunk| && LINE_FEED !in chunk[start..index] && chunk[index] == LINE_FEED
    requires Handed(decode, before, carried + chunk[..start], s)
    ensures Handed(decode, before, carried + chunk[..index + 1],
                   Splitter([], s.lines + [decode(WithoutCr(Flatten(s.pending) + chunk[start..index]))]))
  {
    LineBytes(carried, chunk, start, index);
    ClosedLineHanded(decode, before, s, carried + chunk[..start], chunk[start..index]);
  }

  lemma {:induction false} TailRest(chunk: Bytes, start: nat)
    requires 0 < start <= |chunk| && chunk[start - 1] == LINE_FEED && LINE_FEED !in chunk[start..]
    ensures Rest(chunk) == chunk[start..] && LINE_FEED in chunk
  {
    NoFeedAfter(chunk, start);
    assert Rest(chunk[..start]) == [];
  }

  lemma {:induction false} TailCut(carried: Bytes, chunk: Bytes, start: nat)
    requires start <= |chunk| && LINE_FEED !in chunk[start..]
    ensures Cut(carried + chunk) == Cut(carried + chunk[..start])
  {
    var whole, k := carried + chunk, |carried| + start;
    assert whole[k..] == chunk[start..] && whole[..k] == carried + chunk[..start];
    NoFeedAfter(whole, k);
  }

  // What a chunk leaves behind once its last feed, just before `start`, was found.
  lemma {:induction false} TailKept(decode: Decoder, s: Splitter, chunk: Bytes, start: nat)
    requires 0 < start <= |chunk| && chunk[start - 1] == LINE_FEED && LINE_FEED !in chunk[start..]
    ensures Push(decode, s, chunk)
         == Splitter(if start < |chunk| then [chunk[start..]] else [],
                     s.lines + DecodeAll(decode, Cut(Flatten(s.pending) + chunk[..start])))
  {
    TailRest(chunk, start);
    TailCut(Flatten(s.pending), chunk, start);
  }

  // However a stream is chunked, the lines handed over are those of the whole
  // stream, and what is kept back is its unfinished line.
  lemma {:induction false} ChunkingIsInvisible(decode: Decoder, chunks: seq<Bytes>)
    ensures var s, stream := PushAll(decode, chunks), Flatten(chunks);
            && SplitterValid(s)
            && s.lines == DecodeAll(decode, Cut(stream)) && Flatten(s.pending) == Rest(stream)
            && End(decode, s).lines == Lines(decode, stream)
  {
    if chunks != [] {
      var init, chunk := chunks[..|chunks| - 1], chunks[|chunks| - 1];
      ChunkingIsInvisible(decode, init);
      PushExtends(decode, PushAll(decode, init), chunk);
      CutOfConcat(Flatten(init), chunk);
      assert Continues(Flatten(init) + chunk, Flatten(init), Rest(Flatten(init)) + chunk);
      DecodeAllConcat(decode, Cut(Flatten(init)), Cut(Rest(Flatten(init)) + chunk));
    }
  }

  // Every line followed by a feed, the form in which the shell writes them.
  function Terminated(lines: seq<Bytes>): Bytes {
    if lines == [] then [] else lines[0] + [LINE_FEED] + Terminated(lines[1..])
  }

  predicate Framable(line: Bytes) {
    LINE_FEED !in line && (line == [] || line[|line| - 1] != CARRIAGE_RETURN)
  }

  lemma {:induction false} FirstLine(line: Bytes, more: Bytes)
    requires LINE_FEED !in line
    ensures Cut(line + [LINE_FEED] + more) == [line] + Cut(more)
    ensures Rest(line + [LINE_FEED] + more) == Rest(more)
  {
    assert [] + line == line;
    LineClosed([], line);
    CutOfConcat(line + [LINE_FEED], more);
    assert [] + more == more;
  }

  lemma {:induction false} CutOfTerminated(lines: seq<Bytes>, tail: Bytes)
    requires LINE_FEED !in tail && forall k :: 0 <= k < |lines| ==> LINE_FEED !in lines[k]
    ensures Cut(Terminated(lines) + tail) == lines && Rest(Terminated(lines) + tail) == tail
  {
    if lines == [] {
      NoFeed([], tail);
    } else {
      CutOfTerminated(lines[1..], tail);
      FirstLine(lines[0], Terminated(lines[1..]) + tail);
      assert Terminated(lines) + tail == lines[0] + [LINE_FEED] + (Terminated(lines[1..]) + tail);
    }
  }

  lemma {:induction false} CutHasNoFeeds(s: Bytes)
    ensures forall k :: 0 <= k < |Cut(s)| ==> LINE_FEED !in Cut(s)[k]
  {
    if s != [] {
      CutHasNoFeeds(s[..|s| - 1]);
    }
  }

  function Stripped(cut: seq<Bytes>): (lines: seq<Bytes>)
    ensures |lines| == |cut|
    ensures forall k :: 0 <= k < |cut| ==> lines[k] == WithoutCr(cut[k])
  {
    if cut == [] then [] else [WithoutCr(cut[0])] + Stripped(cut[1..])
  }

  lemma {:induction false} StrippedChanges(lines: seq<Bytes>)
    ensures Stripped(lines) == lines <==> forall k :: 0 <= k < |lines| ==> WithoutCr(lines[k]) == lines[k]
  {
    if forall k :: 0 <= k < |lines| ==> WithoutCr(lines[k]) == lines[k] {
      assert forall k :: 0 <= k < |lines| ==> Stripped(lines)[k] == lines[k];
    }
  }

  // Framing lines and splitting them again gives them back exactly when none holds
  // a line feed or ends in a carriage return.
  lemma {:induction false} RoundTripExactly(lines: seq<Bytes>)
    ensures Stripped(Cut(Terminated(lines))) == lines <==> forall k :: 0 <= k < |lines| ==> Framable(lines[k])
  {
    if forall k :: 0 <= k < |lines| ==> LINE_FEED !in lines[k] {
      CutOfTerminated(lines, []);
      assert Terminated(lines) + [] == Terminated(lines);
      StrippedChanges(lines);
      assert forall k :: 0 <= k < |lines| ==> (Framable(lines[k]) <==> WithoutCr(lines[k]) == lines[k]);
    } else {
      CutHasNoFeeds(Terminated(lines));
      var cut := Cut(Terminated(lines));
      assert forall k :: 0 <= k < |cut| ==> LINE_FEED !in Stripped(cut)[k];
    }
  }

  // Framable lines, then an unterminated one, come out as they went in, however
  // the bytes are chunked.
  lemma RoundTripOverAnyChunking(decode: Decoder, lines: seq<Bytes>, tail: Bytes, chunks: seq<Bytes>)
    requires Framable(tail) && (forall k :: 0 <= k < |lines| ==> Framable(lines[k]))
    requires Flatten(chunks) == Terminated(lines) + tail
    ensures var out := End(decode, PushAll(decode, chunks)).lines;
            && |out| == |lines| + (if tail == [] then 0 else 1)
            && (forall k :: 0 <= k < |lines| ==> out[k] == decode(lines[k]))
            && (tail != [] ==> out[|lines|] == decode(tail))
  {
    ChunkingIsInvisible(decode, chunks);
    CutOfTerminated(lines, tail);
  }

  // The splitter object: a list of carried-over chunks, and the lines given to `onLine`.
  class StdinLineSplitter {
    const decode: Decoder
    var pending: seq<Bytes>
    var lines: seq<string>

    ghost function View(): Splitter
      reads this
    {
      Splitter(pending, lines)
    }

    constructor (decode: Decoder)
      ensures this.decode == decode && View() == START
    {
      this.decode := decode;
      pending, lines := [], [];
    }

    // Emits the line that `tail` closes.
    method Flush(tail: Bytes)
      modifies this
      ensures pending == [] && lines == old(lines) + [decode(WithoutCr(Flatten(old(pending)) + tail))]
    {
      if |pending| == 0 {
        assert Flatten(pending) + tail == tail;
        lines := lines + [decode(WithoutCr(tail))];
        return;
      }
      FlattenSnoc(pending, tail);
      var parts := pending + [tail];
      pending := [];
      lines := lines + [decode(WithoutCr(Flatten(parts)))];
    }

    method FindFeed(chunk: Bytes, start: nat) returns (i: nat)
      requires start <= |chunk|
      ensures start <= i <= |chunk| && LINE_FEED !in chunk[start..i]
      ensures i < |chunk| ==> chunk[i] == LINE_FEED
    {
      i := start;
      while i < |chunk| && chunk[i] != LINE_FEED
        invariant start <= i <= |chunk| && LINE_FEED !in chunk[start..i]
      {
        i := i + 1;
      }
    }

    // Hands over every line the chunk finishes; `start` is where its tail begins.
    method TakeLines(chunk: Bytes) returns (start: nat)
      requires SplitterValid(View())
      modifies this
      ensures start <= |chunk| && LINE_FEED !in chunk[start..]
      ensures if start == 0 then View() == old(View()) else pending == [] && chunk[start - 1] == LINE_FEED
      ensures lines == old(lines) + DecodeAll(decode, Cut(Flatten(old(pending)) + chunk[..start]))
    {
      ghost var carried := Flatten(pending);
      NothingRead(decode, View(), chunk);
      start := 0;
      while true
        invariant start <= |chunk|
        invariant if start == 0 then View() == old(View()) else pending == [] && chunk[start - 1] == LINE_FEED
        invariant Handed(decode, old(lines), carried + chunk[..start], View())
        decreases |chunk| - start
      {
        var index := FindFeed(chunk, start);
        if index == |chunk| {
          assert chunk[start..index] == chunk[start..];
          return;
        }
        LineRead(decode, old(lines), View(), carried, chunk, start, index);
        Flush(chunk[start..index]);
        start := index + 1;
      }
    }

    method PushChunk(chunk: Bytes)
      requires SplitterValid(View())
      modifies this
      ensures View() == Push(decode, old(View()), chunk)
      ensures SplitterValid(View())
    {
      PushExtends(decode, View(), chunk);
      var start := TakeLines(chunk);
      if start == 0 {
        assert chunk[0..] == chunk;
      } else {
        TailKept(decode, old(View()), chunk, start);
      }
      if start < |chunk| { pending := pending + [chunk[start..]]; }
    }

    method Finish()
      modifies this
      ensures View() == End(decode, old(View()))
    {
      if |pending| == 0 { return; }
      var parts := pending;
      pending := [];
      lines := lines + [decode(WithoutCr(Flatten(parts)))];
    }
  }
}
