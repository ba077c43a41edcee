/** Reading a byte stream line by line: whatever the chunks it arrives in and however the consumer's
    reads interleave with the reader task, the lines are served whole, in order, once. */
module LineReader {
  import opened Options
  import opened Bytes

  const MAX_LINE_SIZE: nat := 64 * 1024 * 1024
  const NEWLINE: byte := 10

  datatype Error = TooLong | Io(code: int)

  /** How the source ends once its bytes are used up. */
  datatype End = Eof | Broken(code: int)

  /** What the reader task sends through the channel. */
  datatype Message = Line(bytes: seq<byte>) | Failed(error: Error)

  // ----- The stream as lines -----

  predicate Free(s: seq<byte>, n: nat)
    requires n <= |s|
  {
    forall k :: 0 <= k < n ==> s[k] != NEWLINE
  }

  /** Where the first newline is. */
  function Position(s: seq<byte>): (p: Option<nat>)
    ensures p.Some? ==> p.value < |s| && s[p.value] == NEWLINE && Free(s, p.value)
    ensures p.None? ==> Free(s, |s|)
  {
    if s == [] then None
    else if s[0] == NEWLINE then Some(0)
    else
      var rest := Position(s[1..]);
      assert forall k :: 1 <= k < |s| ==> s[k] == s[1..][k - 1];
      if rest.Some? then Some(rest.value + 1) else None
  }

  /** The length of the first line, its newline included. */
  function FirstLine(s: seq<byte>): (n: nat)
    ensures n <= |s| && (s != [] ==> n > 0)
  {
    match Position(s)
    case Some(p) => p + 1
    case None => |s|
  }

  predicate Terminated(s: seq<byte>) { s != [] && s[|s| - 1] == NEWLINE }

  /** What is sent for a source with these bytes left: its lines, up to the end of the input, the
      first line that is too long, or the read error, which swallows the line it interrupts. */
  function Messages(bytes: seq<byte>, end: End): seq<Message>
    decreases |bytes|
  {
    var n := FirstLine(bytes);
    var line := bytes[..n];
    if n > MAX_LINE_SIZE then [Failed(TooLong)]
    else if Terminated(line) then [Line(line)] + Messages(bytes[n..], end)
    else if end.Broken? then [Failed(Io(end.code))]
    else if bytes == [] then []
    else [Line(line)]
  }

  /** The bytes of the lines. */
  function Content(messages: seq<Message>): seq<byte> {
    if messages == [] then []
    else (if messages[0].Line? then messages[0].bytes else []) + Content(messages[1..])
  }

  /** Not empty, not over the limit, and no newline before its last byte. */
  predicate OneLine(line: seq<byte>) {
    0 < |line| <= MAX_LINE_SIZE && Free(line, |line| - 1)
  }

  /** Single lines, each but the last message with its newline; an error only at the end. */
  predicate LinesWhole(messages: seq<Message>) {
    messages != [] ==>
      && (messages[0].Line? ==> OneLine(messages[0].bytes))
      && (|messages| > 1 ==> messages[0].Line? && Terminated(messages[0].bytes))
      && LinesWhole(messages[1..])
  }

  function ErrorIn(messages: seq<Message>): Option<Error> {
    if messages == [] then None
    else if messages[0].Failed? then Some(messages[0].error)
    else ErrorIn(messages[1..])
  }

  /** What the bytes that are never served look like. */
  predicate Leaves(error: Option<Error>, left: seq<byte>, end: End) {
    match error
    case None => end == Eof && left == []
    case Some(TooLong) => FirstLine(left) > MAX_LINE_SIZE
    case Some(Io(code)) => end == Broken(code) && Free(left, |left|) && |left| <= MAX_LINE_SIZE
  }

  lemma LineIsOne(bytes: seq<byte>)
    ensures var n := FirstLine(bytes);
      && (bytes != [] ==> Free(bytes[..n], n - 1))
      && (!Terminated(bytes[..n]) ==> n == |bytes| && Free(bytes, n))
  {
  }

  /** Every message carries one whole line. */
  lemma {:induction false} MessagesWhole(bytes: seq<byte>, end: End)
    ensures LinesWhole(Messages(bytes, end))
    decreases |bytes|
  {
    hide FirstLine;
    var n := FirstLine(bytes);
    LineIsOne(bytes);
    if n <= MAX_LINE_SIZE && Terminated(bytes[..n]) {
      MessagesWhole(bytes[n..], end);
      assert Messages(bytes, end)[1..] == Messages(bytes[n..], end);
    }
  }

  /** The lines are the source from its start, without gap; after a line over the limit that line and
      what follows is left, after a read error the unfinished line, and otherwise nothing. */
  lemma {:induction false} ContentIsPrefix(bytes: seq<byte>, end: End)
    ensures var served := Content(Messages(bytes, end));
      && |served| <= |bytes| && served == bytes[..|served|]
      && Leaves(ErrorIn(Messages(bytes, end)), bytes[|served|..], end)
    decreases |bytes|
  {
    hide FirstLine;
    var n := FirstLine(bytes);
    var line := bytes[..n];
    var ms := Messages(bytes, end);
    LineIsOne(bytes);
    if n <= MAX_LINE_SIZE && Terminated(line) {
      var rest := Messages(bytes[n..], end);
      ContentIsPrefix(bytes[n..], end);
      var served := Content(rest);
      hide Leaves, Messages, Content, ErrorIn;
      assert ms == [Line(line)] + rest by { MessagesCons(bytes, end); }
      ContentPush(Line(line), rest);
      ErrorPush(line, rest);
      PrefixAfter(bytes, n, |served|);
    } else {
      assert ms != [] ==> ms[1..] == [];
      assert bytes[0..] == bytes && bytes[..|bytes|] == bytes;
    }
  }

  /** No line is over the limit. */
  predicate AllShort(bytes: seq<byte>)
    decreases |bytes|
  {
    var n := FirstLine(bytes);
    n <= MAX_LINE_SIZE && (bytes != [] ==> AllShort(bytes[n..]))
  }

  /** Every byte is served if and only if no line is over the limit and, should the source break, it
      does so between lines. */
  lemma {:induction false} NothingLostIff(bytes: seq<byte>, end: End)
    ensures Content(Messages(bytes, end)) == bytes <==>
      AllShort(bytes) && (end.Eof? || bytes == [] || Terminated(bytes))
    decreases |bytes|
  {
    var n := FirstLine(bytes);
    var line, left := bytes[..n], bytes[n..];
    LineIsOne(bytes);
    if n <= MAX_LINE_SIZE && Terminated(line) {
      assert AllShort(bytes) == AllShort(left);
      hide FirstLine, Messages, Content, AllShort;
      NothingLostIff(left, end);
      MessagesCons(bytes, end);
      ContentPush(Line(line), Messages(left, end));
      assert bytes == line + left;
      TerminatedBehind(line, left);
    } else {
      assert line == bytes || n > MAX_LINE_SIZE;
      assert n <= MAX_LINE_SIZE ==> left == [] && !Terminated(bytes);
      assert AllShort([]);
      ShortMessages(bytes, end);
    }
  }

  lemma TerminatedBehind(line: seq<byte>, left: seq<byte>)
    requires Terminated(line)
    ensures Terminated(line + left) <==> left == [] || Terminated(left)
  {
  }

  /** The messages of a source whose first line is the last thing read. */
  lemma ShortMessages(bytes: seq<byte>, end: End)
    requires FirstLine(bytes) > MAX_LINE_SIZE || !Terminated(bytes[..FirstLine(bytes)])
    ensures Content(Messages(bytes, end)) ==
      if FirstLine(bytes) > MAX_LINE_SIZE || end.Broken? then [] else bytes[..FirstLine(bytes)]
  {
    assert forall m: Message :: [m][1..] == [];
  }

  /** A source that breaks in the middle of a line: the bytes of that line were read and are gone. */
  lemma BrokenLineIsLost(code: int)
    ensures var bytes: seq<byte> := [104, 105];
      Content(Messages(bytes, Broken(code))) == [] && Leaves(Some(Io(code)), bytes, Broken(code))
  {
    var bytes: seq<byte> := [104, 105];
    LineIsOne(bytes);
    ShortMessages(bytes, Broken(code));
  }

  lemma PrefixAfter(bytes: seq<byte>, n: nat, m: nat)
    requires n <= |bytes| && m <= |bytes[n..]|
    ensures bytes[n..][m..] == bytes[n + m..] && bytes[..n] + bytes[n..][..m] == bytes[..n + m]
  {
  }

  lemma ErrorPush(line: seq<byte>, rest: seq<Message>)
    ensures ErrorIn([Line(line)] + rest) == ErrorIn(rest)
  {
    assert ([Line(line)] + rest)[1..] == rest;
  }

  lemma MessagesCons(bytes: seq<byte>, end: End)
    requires FirstLine(bytes) <= MAX_LINE_SIZE && Terminated(bytes[..FirstLine(bytes)])
    ensures Messages(bytes, end) == [Line(bytes[..FirstLine(bytes)])] + Messages(bytes[FirstLine(bytes)..], end)
  {
  }

  lemma NothingToCome()
    ensures Content([]) == [] && ErrorIn([]) == None
  {
  }

  function Min(a: nat, b: nat): nat { if a < b then a else b }

  /** Taking a message off the front: an error is the last, and only the last line may be open. */
  lemma TakeMessage(m: Message, ms: seq<Message>)
    requires LinesWhole([m] + ms)
    ensures LinesWhole(ms) && Content([m] + ms) == (if m.Line? then m.bytes else []) + Content(ms)
    ensures m.Failed? ==> ms == [] && Content(ms) == [] && ErrorIn([m] + ms) == Some(m.error)
    ensures m.Line? ==> ErrorIn([m] + ms) == ErrorIn(ms)
    ensures m.Line? ==> m.bytes != [] && (Terminated(m.bytes) || Content(ms) == [])
  {
    assert ([m] + ms)[1..] == ms;
  }

  lemma AfterLine(before: seq<byte>, line: seq<byte>)
    ensures Terminated(line) ==> Terminated(before + line)
  {
  }

  lemma SplitAt(done: seq<byte>, line: seq<byte>, pos: nat, n: nat)
    requires pos + n <= |line|
    ensures done + line[pos..pos + n] + line[pos + n..] == done + line[pos..]
  {
    assert line[pos..] == line[pos..pos + n] + line[pos + n..];
    Assoc(done, line[pos..pos + n], line[pos + n..]);
  }

  lemma Regroup(done: seq<byte>, line: seq<byte>, n: nat, later: seq<byte>)
    requires n <= |line|
    ensures done + line[..n] + line[n..] == done + line
    ensures done + (line + later) == done + line + later
  {
  }

  lemma ContentPush(m: Message, ms: seq<Message>)
    ensures Content([m] + ms) == (if m.Line? then m.bytes else []) + Content(ms)
  {
    assert ([m] + ms)[1..] == ms;
  }

  // ----- The buffered source -----

  function Flat(chunks: seq<seq<byte>>): seq<byte> {
    if chunks == [] then [] else chunks[0] + Flat(chunks[1..])
  }

  function Longest(chunks: seq<seq<byte>>): (n: nat)
    ensures forall k :: 0 <= k < |chunks| ==> |chunks[k]| <= n
  {
    if chunks == [] then 0
    else
      var rest := Longest(chunks[1..]);
      assert forall k :: 1 <= k < |chunks| ==> chunks[k] == chunks[1..][k - 1];
      if |chunks[0]| > rest then |chunks[0]| else rest
  }

  datatype Fill = Available(bytes: seq<byte>) | FillError(code: int)

  /** A buffered source: what its fills will yield, the first of them partly consumed. */
  class BufferedSource {
    var chunks: seq<seq<byte>>
    const end: End

    constructor (chunks: seq<seq<byte>>, end: End)
      requires [] !in chunks
      ensures this.chunks == chunks && this.end == end && Valid()
    {
      this.chunks, this.end := chunks, end;
    }

    predicate Valid() reads this { [] !in chunks }

    function Rest(): seq<byte> reads this { Flat(chunks) }

    function FillBuf(): Fill reads this {
      if chunks != [] then Available(chunks[0])
      else if end.Eof? then Available([])
      else FillError(end.code)
    }

    method Consume(n: nat)
      requires Valid() && chunks != [] && 0 < n <= |chunks[0]|
      modifies this
      ensures Valid()
      ensures chunks == (if n == |old(chunks[0])| then [] else [old(chunks[0])[n..]]) + old(chunks[1..])
      ensures old(Rest()) == old(chunks[0])[..n] + Rest()
    {
      var first, others := chunks[0], chunks[1..];
      assert first == first[..n] + first[n..];
      if n == |first| {
        chunks := others;
      } else {
        chunks := [first[n..]] + others;
        assert chunks[1..] == others;
        assert first + Flat(others) == first[..n] + (first[n..] + Flat(others));
      }
    }
  }

  // ----- Reading one line -----

  datatype LineResult = Read(count: nat) | ReadError(error: Error)

  /** How reading a line must come out, seen from the bytes alone. */
  function LineOutcome(bytes: seq<byte>, end: End): LineResult {
    var n := FirstLine(bytes);
    if n > MAX_LINE_SIZE then ReadError(TooLong)
    else if end.Broken? && !Terminated(bytes[..n]) then ReadError(Io(end.code))
    else Read(n)
  }

  function Sent(outcome: LineResult, bytes: seq<byte>, end: End): seq<Message>
    requires outcome.Read? ==> outcome.count <= |bytes|
  {
    match outcome
    case ReadError(e) => [Failed(e)]
    case Read(n) => if n == 0 then [] else [Line(bytes[..n])] + Messages(bytes[n..], end)
  }

  lemma NextMessage(bytes: seq<byte>, end: End)
    ensures Messages(bytes, end) == Sent(LineOutcome(bytes, end), bytes, end)
  {
    var n := FirstLine(bytes);
    LineIsOne(bytes);
    if LineOutcome(bytes, end).Read? && n > 0 && !Terminated(bytes[..n]) {
      assert bytes[n..] == [] && bytes[..n] == bytes;
      assert Messages([], end) == [];
    }
  }

  lemma FoundNewline(line: seq<byte>, chunk: seq<byte>, after: seq<byte>, p: nat)
    requires Free(line, |line|) && Position(chunk) == Some(p)
    ensures var bytes := line + (chunk + after); var n := |line| + p + 1;
      && FirstLine(bytes) == n && bytes[..n] == line + chunk[..p + 1] && Terminated(bytes[..n])
  {
    var bytes := line + (chunk + after);
    assert bytes[|line| + p] == NEWLINE;
    assert Free(bytes, |line| + p);
    var q := Position(bytes).value;
  }

  lemma NoNewlineYet(line: seq<byte>, after: seq<byte>)
    requires Free(line, |line|)
    ensures FirstLine(line + after) >= |line|
    ensures after == [] ==> FirstLine(line + after) == |line| && !Terminated(line)
  {
    var bytes := line + after;
    match Position(bytes)
    case Some(p) => assert bytes[p] == NEWLINE;
    case None =>
  }

  lemma LongerFree(line: seq<byte>, chunk: seq<byte>)
    requires Free(line, |line|) && Free(chunk, |chunk|)
    ensures Free(line + chunk, |line + chunk|)
  {
  }

  /** What one more fill tells about the outcome. */
  lemma FillTells(before: seq<byte>, chunk: seq<byte>, after: seq<byte>, end: End)
    requires Free(before, |before|)
    ensures var found := Position(chunk); var line := before + chunk[..ToConsume(chunk)];
      && (|line| > MAX_LINE_SIZE ==> LineOutcome(before + (chunk + after), end) == ReadError(TooLong))
      && (|line| <= MAX_LINE_SIZE && found.Some? ==> LineOutcome(before + (chunk + after), end) == Read(|line|))
      && (found.None? ==> Free(line, |line|))
  {
    hide FirstLine, Free, Position;
    match Position(chunk)
    case Some(p) => FoundNewline(before, chunk, after, p);
    case None =>
      assert chunk[..|chunk|] == chunk;
      LongerFree(before, chunk);
      NoNewlineYet(before + chunk, after);
      assert before + chunk + after == before + (chunk + after);
  }

  /** Through the first newline if there is one, else everything. */
  function ToConsume(chunk: seq<byte>): (n: nat)
    ensures n <= |chunk| && (chunk != [] ==> n > 0)
  {
    match Position(chunk)
    case Some(p) => p + 1
    case None => |chunk|
  }

  lemma EndTells(bytes: seq<byte>, end: End)
    requires Free(bytes, |bytes|) && |bytes| <= MAX_LINE_SIZE
    ensures LineOutcome(bytes, end) == if end.Broken? then ReadError(Io(end.code)) else Read(|bytes|)
  {
    NoNewlineYet(bytes, []);
    assert bytes + [] == bytes && bytes[..|bytes|] == bytes;
  }

  /** One newline-terminated line, gathered over as many fills as it takes. */
  method ReadLineCapped(source: BufferedSource) returns (result: LineResult, line: seq<byte>)
    requires source.Valid()
    modifies source
    ensures source.Valid()
    ensures result == LineOutcome(old(source.Rest()), source.end)
    ensures result.Read? ==> result.count == |line| && old(source.Rest()) == line + source.Rest()
    ensures |line| <= MAX_LINE_SIZE + Longest(old(source.chunks))
  {
    line := [];
    assert Free(line, 0);
    hide Position, ToConsume, Flat, Longest, LineOutcome, Free;
    ghost var bytes := source.Rest();
    assert [] + bytes == bytes;
    while true
      invariant source.Valid() && bytes == line + source.Rest()
      invariant Free(line, |line|) && |line| <= MAX_LINE_SIZE
      invariant Longest(source.chunks) <= Longest(old(source.chunks))
      decreases |source.chunks|
    {
      var fill := source.FillBuf();
      if fill.FillError? || fill.bytes == [] {
        NothingLeft(source.chunks);
        assert bytes == line;
        EndTells(line, source.end);
        return if fill.FillError? then ReadError(Io(fill.code)) else Read(|line|), line;
      }
      var chunk := fill.bytes;
      FlatStep(source.chunks);
      FillTells(line, chunk, Flat(source.chunks[1..]), source.end);
      LongestTail(source.chunks);
      var consumed, done := ToConsume(chunk), Position(chunk).Some?;
      ghost var before := source.chunks;
      source.Consume(consumed);
      Assoc(line, chunk[..consumed], source.Rest());
      line := line + chunk[..consumed];
      if |line| > MAX_LINE_SIZE {
        return ReadError(TooLong), line;
      }
      if done {
        return Read(|line|), line;
      }
      assert consumed == |chunk| by { ConsumesAll(chunk); }
      assert source.chunks == before[1..];
    }
  }

  lemma OutcomeSent(before: seq<byte>, line: seq<byte>, after: seq<byte>, end: End, outcome: LineResult)
    requires outcome.Read? ==> outcome.count == |line| && before == line + after
    ensures outcome.ReadError? ==> Sent(outcome, before, end) == [Failed(outcome.error)]
    ensures outcome.Read? ==>
      Sent(outcome, before, end) == if line == [] then [] else [Line(line)] + Messages(after, end)
  {
    hide Messages;
    if outcome.Read? {
      assert before[..|line|] == line && before[|line|..] == after;
    }
  }

  lemma LongestTail(chunks: seq<seq<byte>>)
    requires chunks != []
    ensures |chunks[0]| <= Longest(chunks) && Longest(chunks[1..]) <= Longest(chunks)
  {
  }

  lemma Assoc<T>(a: seq<T>, b: seq<T>, c: seq<T>)
    ensures a + (b + c) == a + b + c
  {
  }

  lemma ConsumesAll(chunk: seq<byte>)
    requires Position(chunk).None?
    ensures ToConsume(chunk) == |chunk|
  {
  }

  lemma NothingLeft(chunks: seq<seq<byte>>)
    requires chunks == []
    ensures Flat(chunks) == []
  {
  }

  lemma FlatStep(chunks: seq<seq<byte>>)
    requires chunks != []
    ensures Flat(chunks) == chunks[0] + Flat(chunks[1..])
  {
  }

  // ----- The reader task, the channel and the consumer -----

  datatype Poll = Ready(count: nat) | ReadyError(error: Error) | Pending

  /** The consumer's side, with the reader task behind it. `served` records what reads have handed
      out, `failed` the error they reported. */
  class LineBufferedRead {
    var buf: seq<byte>
    var pos: nat
    var rx: seq<Message>
    var closed: bool
    const source: BufferedSource
    ghost var served: seq<byte>
    ghost var failed: Option<Error>
    ghost const all: seq<byte>

    constructor (source: BufferedSource)
      requires source.Valid()
      ensures Valid() && this.source == source && all == source.Rest() && served == [] && failed == None
      ensures Stream() == Messages(all, source.end)
    {
      buf, pos, rx, closed := [], 0, [], false;
      this.source := source;
      served, failed, all := [], None, source.Rest();
      new;
      MessagesWhole(all, source.end);
      assert [] + Messages(all, source.end) == Messages(all, source.end);
    }

    /** What is still to come: queued messages, then those the reader task will yet send. */
    ghost function Stream(): seq<Message> reads this, source {
      rx + if closed then [] else Messages(source.Rest(), source.end)
    }

    /** Served, buffered and still to come make up the original content; a line is left only after
        its newline, or when nothing is to come. */
    ghost predicate Valid() reads this, source {
      && source.Valid()
      && (if buf == [] then pos == 0 else pos < |buf|)
      && served + buf[pos..] + Content(Stream()) == Content(Messages(all, source.end))
      && LinesWhole(Stream())
      && (if failed.Some? then Stream() == [] && failed == ErrorIn(Messages(all, source.end))
          else ErrorIn(Stream()) == ErrorIn(Messages(all, source.end)))
      && (served + buf[pos..] == [] || Terminated(served + buf[pos..]) || Content(Stream()) == [])
    }

    /** One round of the reader task's loop: a line, an error or the end of the input reaches the channel. */
    method TaskStep()
      requires Valid() && !closed
      modifies this`rx, this`closed, source
      ensures Valid() && Stream() == old(Stream())
      ensures closed || |source.Rest()| < old(|source.Rest()|)
    {
      hide Messages, LineOutcome, Content, ErrorIn, LinesWhole, Terminated, Flat, Sent;
      ghost var before, queued := source.Rest(), rx;
      var result, line := ReadLineCapped(source);
      NextMessage(before, source.end);
      OutcomeSent(before, line, source.Rest(), source.end, result);
      match result {
        case Read(n) =>
          if n == 0 {
            closed := true;
          } else {
            rx := rx + [Line(line)];
            Assoc(queued, [Line(line)], Messages(source.Rest(), source.end));
          }
        case ReadError(e) =>
          rx := rx + [Failed(e)];
          closed := true;
      }
      assert closed ==> rx + [] == rx;
      assert Stream() == queued + Messages(before, source.end);
    }

    /** Serves from the line at hand. */
    method ServeBuffered(out: array<byte>) returns (n: nat)
      requires Valid() && buf != []
      modifies this`buf, this`pos, this`served, out
      ensures Valid() && n <= out.Length && (out.Length > 0 ==> n > 0)
      ensures served == old(served) + out[..n] && out[n..] == old(out[n..])
    {
      hide Messages, Content, ErrorIn, LinesWhole, Terminated, Flat;
      n := if |buf| - pos < out.Length then |buf| - pos else out.Length;
      CopyInto(out, buf[pos..pos + n]);
      served := served + buf[pos..pos + n];
      SplitAt(old(served), buf, pos, n);
      pos := pos + n;
      if pos >= |buf| {
        buf, pos := [], 0;
      }
      assert buf[pos..] == old(buf)[old(pos) + n..];
    }

    /** Takes the next message; a line longer than the caller's buffer is stashed. */
    method ServeNext(out: array<byte>) returns (poll: Poll)
      requires Valid() && buf == [] && rx != []
      modifies this`buf, this`pos, this`rx, this`served, this`failed, out
      ensures Valid()
      ensures rx == old(rx[1..])
      ensures poll ==
        if old(rx[0]).Failed? then ReadyError(old(rx[0]).error) else Ready(Min(|old(rx[0]).bytes|, out.Length))
      ensures poll.Ready? ==> served == old(served) + out[..poll.count] && out[poll.count..] == old(out[poll.count..])
      ensures poll.Ready? && out.Length > 0 ==> poll.count > 0
      ensures failed == if poll.ReadyError? then Some(poll.error) else old(failed)
      ensures poll.ReadyError? ==> served == old(served) && out[..] == old(out[..]) && buf == [] && Stream() == []
    {
      hide Messages, Content, ErrorIn, LinesWhole, Terminated, Flat;
      var message := rx[0];
      rx := rx[1..];
      ghost var later, done := Stream(), served;
      assert old(Stream()) == [message] + later;
      TakeMessage(message, later);
      assert done + old(buf[pos..]) == done;
      if message.Failed? {
        assert done + Content(later) == done && done + ([] + Content(later)) == done;
        failed := Some(message.error);
        return ReadyError(message.error);
      }
      var line := message.bytes;
      var n := Min(|line|, out.Length);
      CopyInto(out, line[..n]);
      served := served + line[..n];
      if n < |line| {
        buf, pos := line, n;
      }
      Regroup(done, line, n, Content(later));
      assert buf[pos..] == line[n..];
      AfterLine(done, line);
      return Ready(n);
    }

    method PollRead(out: array<byte>) returns (poll: Poll)
      requires Valid()
      modifies this`buf, this`pos, this`rx, this`served, this`failed, out
      ensures Valid()
      ensures poll.Ready? ==> poll.count <= out.Length && served == old(served) + out[..poll.count]
      ensures poll.Ready? ==> out[poll.count..] == old(out[poll.count..])
      ensures !poll.Ready? ==> served == old(served) && out[..] == old(out[..])
      ensures poll == Ready(0) && out.Length > 0 ==> closed && Stream() == [] && buf == []
      ensures poll == Pending <==> old(buf) == [] && old(rx) == [] && !closed
      ensures poll == Pending ==> served == [] || Terminated(served) || Content(Stream()) == []
      ensures poll.ReadyError? <==> old(buf) == [] && old(rx) != [] && old(rx[0].Failed?)
      ensures failed == if poll.ReadyError? then Some(poll.error) else old(failed)
      ensures poll.ReadyError? ==>
        failed == ErrorIn(Messages(all, source.end)) && served == Content(Messages(all, source.end))
      ensures poll == Ready(0) && out.Length > 0 ==>
        failed == ErrorIn(Messages(all, source.end)) && served == Content(Messages(all, source.end))
    {
      hide Messages, Content, ErrorIn, LinesWhole, Terminated, Flat;
      NothingToCome();
      if pos < |buf| {
        var n := ServeBuffered(out);
        return Ready(n);
      }
      if rx == [] {
        assert closed ==> Stream() == [];
        assert served + buf[pos..] == served;
        return if closed then Ready(0) else Pending;
      }
      assert Stream() == [rx[0]] + (rx[1..] + if closed then [] else Messages(source.Rest(), source.end));
      poll := ServeNext(out);
      assert served + buf[pos..] == served || poll.Ready?;
    }

    /** Copies bytes to the front of the caller's buffer. */
    method CopyInto(out: array<byte>, bytes: seq<byte>)
      requires |bytes| <= out.Length
      modifies out
      ensures out[..|bytes|] == bytes && out[|bytes|..] == old(out[|bytes|..])
    {
      forall i | 0 <= i < |bytes| {
        out[i] := bytes[i];
      }
    }
  }
}
