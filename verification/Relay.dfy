// The socket protocol between the daemon and its relay: the daemon frames reply
// lines, trace lines and nar bytes; the relay splits them apart again. Texts are
// sequences of characters, each standing for one character of the UTF-8 stream.

module Relay {
  import opened Common
  import opened Blocks
  import Base64

  // What the daemon writes in answer to one request.
  datatype Op = Line(line: string) | Trace(trace: string) | End | Nar(data: Bytes)

  datatype Mode = Fd4 | Buffer | Socket

  const NAR_CHUNK_SIZE: nat := 48 * 1024

  // ---- The writer ----

  function NarLines(chunks: seq<Bytes>): string {
    if chunks == [] then "" else "nar:" + Base64.Encode(chunks[0]) + "\n" + NarLines(chunks[1..])
  }

  function NarText(data: Bytes): string {
    NarLines(Chunks(data, NAR_CHUNK_SIZE)) + "nar-end\n"
  }

  function SocketText(op: Op): string {
    match op
    case Line(line) => if line == "" then "fd4-empty:\n" else "fd4:" + line + "\n"
    case Trace(trace) => "out:" + trace + "\n"
    case End => "fd4:\n"
    case Nar(data) => NarText(data)
  }

  // The two descriptors of direct mode: replies on 4, traces on 1.
  function DirectFd4(op: Op): string {
    match op
    case Line(line) => line + "\n"
    case End => "\n"
    case _ => ""
  }

  function DirectOut(op: Op): string {
    match op
    case Trace(trace) => trace + "\n"
    case _ => ""
  }

  function SocketTexts(ops: seq<Op>): string {
    if ops == [] then "" else SocketTexts(ops[..|ops| - 1]) + SocketText(ops[|ops| - 1])
  }

  function DirectFd4s(ops: seq<Op>): string {
    if ops == [] then "" else DirectFd4s(ops[..|ops| - 1]) + DirectFd4(ops[|ops| - 1])
  }

  function DirectOuts(ops: seq<Op>): string {
    if ops == [] then "" else DirectOuts(ops[..|ops| - 1]) + DirectOut(ops[|ops| - 1])
  }

  class ReplyWriter {
    const mode: Mode
    var fd4: string
    var out: string
    var buf: string

    constructor (mode: Mode)
      ensures this.mode == mode && fd4 == out == buf == ""
    {
      this.mode := mode;
      fd4, out, buf := "", "", "";
    }

    // What one operation adds to the three channels.
    twostate predicate Appended(op: Op)
      reads this
    {
      && fd4 == old(fd4) + (if mode == Fd4 then DirectFd4(op) else "")
      && out == old(out) + (if mode == Fd4 then DirectOut(op) else "")
      && buf == old(buf) + (match mode case Fd4 => "" case Buffer => DirectFd4(op) + DirectOut(op) case Socket => SocketText(op))
    }

    method WriteLine(line: string)
      modifies this
      ensures Appended(Line(line))
    {
      match mode {
        case Fd4 => fd4 := fd4 + line + "\n";
        case Buffer => buf := buf + line + "\n";
        case Socket =>
          if line == "" {
            buf := buf + "fd4-empty:" + "\n";
          } else {
            buf := buf + "fd4:" + line + "\n";
          }
      }
    }

    method WriteTrace(line: string)
      modifies this
      ensures Appended(Trace(line))
    {
      match mode {
        case Fd4 => out := out + line + "\n";
        case Buffer => buf := buf + line + "\n";
        case Socket => buf := buf + "out:" + line + "\n";
      }
    }

    method WriteEnd()
      modifies this
      ensures Appended(End)
    {
      if mode == Socket {
        buf := buf + "fd4:" + "" + "\n";
      } else {
        WriteLine("");
      }
    }

    method WriteNarData(data: Bytes)
      modifies this
      ensures Appended(Nar(data))
    {
      if mode == Socket {
        var chunks := Chunks(data, NAR_CHUNK_SIZE);
        ghost var start := buf;
        for k := 0 to |chunks|
          invariant fd4 == old(fd4) && out == old(out)
          invariant buf == start + NarLines(chunks[..k])
        {
          NarLinesExtend(start, chunks, k);
          buf := buf + "nar:";
          buf := buf + Base64.Encode(chunks[k]);
          buf := buf + "\n";
        }
        assert chunks[..|chunks|] == chunks;
        assert start + NarLines(chunks) + "nar-end\n" == start + NarText(data);
        buf := buf + "nar-end\n";
      }
    }
  }

  lemma {:induction false} NarLinesAppend(a: seq<Bytes>, b: seq<Bytes>)
    ensures NarLines(a + b) == NarLines(a) + NarLines(b)
  {
    if a == [] {
      assert a + b == b;
    } else {
      assert (a + b)[1..] == a[1..] + b;
      NarLinesAppend(a[1..], b);
      var head := "nar:" + Base64.Encode(a[0]) + "\n";
      assert head + (NarLines(a[1..]) + NarLines(b)) == (head + NarLines(a[1..])) + NarLines(b);
    }
  }

  lemma NarLinesExtend(start: string, chunks: seq<Bytes>, k: nat)
    requires k < |chunks|
    ensures start + NarLines(chunks[..k + 1]) == start + NarLines(chunks[..k]) + "nar:" + Base64.Encode(chunks[k]) + "\n"
  {
    assert chunks[..k + 1] == chunks[..k] + [chunks[k]];
    NarLinesAppend(chunks[..k], [chunks[k]]);
    var line := "nar:" + Base64.Encode(chunks[k]) + "\n";
    assert NarLines([chunks[k]]) == line + "" == line;
    assert start + (NarLines(chunks[..k]) + line) == start + NarLines(chunks[..k]) + line;
  }

  // ---- The relay ----

  datatype RelayMode = Query | Substitute

  // Blocked: a nar chunk came and no destination is left to write it to. The
  // destination channel's sender stays open, so the relay waits for ever.
  datatype Status = Running | Failed | Blocked

  datatype RelayState = RelayState(
    mode: RelayMode, fd4: string, out: string, files: seq<(string, Bytes)>,
    current: Option<(string, Bytes)>, dests: seq<string>, sawTerminal: bool, status: Status)

  function Start(mode: RelayMode, dests: seq<string>): RelayState {
    RelayState(mode, "", "", [], None, dests, mode != Substitute, Running)
  }

  // char::is_whitespace
  predicate IsWhitespace(c: char) {
    var u := c as int;
    0x9 <= u <= 0xD || u == 0x20 || u == 0x85 || u == 0xA0 || u == 0x1680 || 0x2000 <= u <= 0x200A ||
    u == 0x2028 || u == 0x2029 || u == 0x202F || u == 0x205F || u == 0x3000
  }

  function TrimEnd(s: string): string {
    if s != "" && IsWhitespace(s[|s| - 1]) then TrimEnd(s[..|s| - 1]) else s
  }

  function TrimStart(s: string): string {
    if s != "" && IsWhitespace(s[0]) then TrimStart(s[1..]) else s
  }

  function Trim(s: string): string {
    TrimEnd(TrimStart(s))
  }

  predicate IsTerminal(line: string) {
    var t := Trim(line);
    t == "not-found" || "success " <= t || "hash-mismatch " <= t
  }

  function HandleChunk(st: RelayState, text: string): RelayState {
    if st.current.None? && st.dests == [] then st.(status := Blocked)
    else AppendChunk(if st.current.None? then st.(current := Some((st.dests[0], [])), dests := st.dests[1..]) else st, text)
  }

  function AppendChunk(st: RelayState, text: string): RelayState
    requires st.current.Some?
  {
    match Base64.Decode(TrimEnd(text))
    case None => st.(status := Failed)
    case Some(data) => st.(current := Some((st.current.value.0, st.current.value.1 + data)))
  }

  function HandleReply(st: RelayState, data: string): RelayState {
    st.(fd4 := st.fd4 + data, sawTerminal := st.sawTerminal || (st.mode == Substitute && IsTerminal(data)))
  }

  function HandleNarEnd(st: RelayState): RelayState {
    if st.current.None? then st.(status := Failed) else st.(files := st.files + [st.current.value], current := None)
  }

  function HandleLine(st: RelayState, line: string): RelayState {
    if st.status != Running then st
    else if line == "fd4-empty:\n" || line == "fd4-empty:\r\n" then st.(fd4 := st.fd4 + "\n")
    else if "fd4:" <= line then HandleReply(st, line[4..])
    else if "out:" <= line then st.(out := st.out + line[4..])
    else if "nar:" <= line then HandleChunk(st, line[4..])
    else if line == "nar-end\n" || line == "nar-end\r\n" then
      HandleNarEnd(st)
    else st.(fd4 := st.fd4 + line)
  }

  function HandleLines(st: RelayState, lines: seq<string>): RelayState
    decreases |lines|
  {
    if lines == [] then st else HandleLines(HandleLine(st, lines[0]), lines[1..])
  }

  // read_line: up to and including the next newline, or to the end of the stream.
  function LineLength(text: string): (n: nat)
    ensures n <= |text| && (text != "" ==> n > 0)
  {
    if text == "" then 0 else if text[0] == '\n' then 1 else 1 + LineLength(text[1..])
  }

  function Lines(text: string): seq<string> {
    if text == "" then [] else [text[..LineLength(text)]] + Lines(text[LineLength(text)..])
  }

  // How the stream's end is judged.
  predicate EndsWell(st: RelayState) {
    st.status == Running && st.current.None? && st.sawTerminal
  }

  // The relay's read loop.
  method Forward(mode: RelayMode, dests: seq<string>, stream: string) returns (st: RelayState, ok: bool)
    ensures st == HandleLines(Start(mode, dests), Lines(stream))
    ensures ok <==> EndsWell(st)
  {
    st := Start(mode, dests);
    var rest := stream;
    while rest != "" && st.status == Running
      invariant HandleLines(st, Lines(rest)) == HandleLines(Start(mode, dests), Lines(stream))
      decreases |rest|
    {
      var line := rest[..LineLength(rest)];
      var next := rest[LineLength(rest)..];
      assert Lines(rest)[0] == line && Lines(rest)[1..] == Lines(next);
      if line == "fd4-empty:\n" || line == "fd4-empty:\r\n" {
        st := st.(fd4 := st.fd4 + "\n");
      } else if "fd4:" <= line {
        var data := line[4..];
        if st.mode == Substitute && IsTerminal(data) {
          st := st.(sawTerminal := true);
        }
        st := st.(fd4 := st.fd4 + data);
      } else if "out:" <= line {
        st := st.(out := st.out + line[4..]);
      } else if "nar:" <= line {
        if st.current.None? && st.dests == [] {
          st := st.(status := Blocked);
        } else {
          if st.current.None? {
            st := st.(current := Some((st.dests[0], [])), dests := st.dests[1..]);
          }
          st := AppendChunk(st, line[4..]);
        }
      } else if line == "nar-end\n" || line == "nar-end\r\n" {
        if st.current.None? {
          st := st.(status := Failed);
        } else {
          st := st.(files := st.files + [st.current.value], current := None);
        }
      } else {
        st := st.(fd4 := st.fd4 + line);
      }
      rest := next;
    }
    if st.status != Running {
      StoppedStays(st, Lines(rest));
    }
    ok := st.status == Running && st.current.None? && st.sawTerminal;
  }

  lemma {:induction false} StoppedStays(st: RelayState, lines: seq<string>)
    requires st.status != Running
    ensures HandleLines(st, lines) == st
  {
    if lines != [] {
      StoppedStays(st, lines[1..]);
    }
  }

  // ---- Splitting undoes framing ----

  predicate NewlineFree(s: string) {
    '\n' !in s
  }

  lemma {:induction false} OneLine(body: string, rest: string)
    requires NewlineFree(body)
    ensures LineLength(body + "\n" + rest) == |body| + 1
  {
    var text := body + "\n" + rest;
    if body == "" {
      assert text[0] == '\n';
    } else {
      assert text[0] == body[0] && text[1..] == body[1..] + "\n" + rest;
      OneLine(body[1..], rest);
    }
  }

  lemma FirstLine(body: string, rest: string)
    requires NewlineFree(body)
    ensures Lines(body + "\n" + rest) == [body + "\n"] + Lines(rest)
  {
    OneLine(body, rest);
    var text := body + "\n" + rest;
    assert text[..|body| + 1] == body + "\n" && text[|body| + 1..] == rest;
  }

  lemma {:induction false} LinesInTurn(st: RelayState, a: seq<string>, b: seq<string>)
    ensures HandleLines(st, a + b) == HandleLines(HandleLines(st, a), b)
    decreases |a|
  {
    if a == [] {
      assert a + b == b;
    } else {
      assert (a + b)[1..] == a[1..] + b;
      LinesInTurn(HandleLine(st, a[0]), a[1..], b);
    }
  }

  // The channel prefixes do not overlap.
  lemma LineKinds(st: RelayState, line: string)
    requires st.status == Running
    ensures line == "fd4-empty:\n" ==> HandleLine(st, line) == st.(fd4 := st.fd4 + "\n")
    ensures "fd4:" <= line ==> HandleLine(st, line) == HandleReply(st, line[4..])
    ensures "out:" <= line ==> HandleLine(st, line) == st.(out := st.out + line[4..])
    ensures "nar:" <= line ==> HandleLine(st, line) == HandleChunk(st, line[4..])
    ensures line == "nar-end\n" ==> HandleLine(st, line) == HandleNarEnd(st)
  {
    var fd4, out, nar := "fd4:", "out:", "nar:";
    assert forall p: string :: p <= line && |p| == 4 ==> line[0] == p[0] && line[3] == p[3];
  }

  lemma OneLineHandled(st: RelayState, body: string, rest: string)
    requires NewlineFree(body)
    ensures HandleLines(st, Lines(body + "\n" + rest)) == HandleLines(HandleLine(st, body + "\n"), Lines(rest))
  {
    FirstLine(body, rest);
    assert ([body + "\n"] + Lines(rest))[1..] == Lines(rest);
  }

  lemma TextHasNoSpace(b: Bytes)
    ensures NewlineFree(Base64.Encode(b)) && TrimEnd(Base64.Encode(b) + "\n") == Base64.Encode(b)
  {
    var s := Base64.Encode(b);
    Base64.EncodedIsText(b);
    assert forall c: char :: Base64.IsText(c) ==> !IsWhitespace(c);
    assert (s + "\n")[..|s|] == s;
    assert TrimEnd(s + "\n") == TrimEnd(s);
  }

  // A chunk's line appends the chunk to the file that is open.
  lemma ChunkArrives(st: RelayState, chunk: Bytes, rest: string)
    requires st.status == Running && st.current.Some?
    ensures HandleLines(st, Lines("nar:" + Base64.Encode(chunk) + "\n" + rest))
         == HandleLines(Grown(st, chunk), Lines(rest))
  {
    var encoded := Base64.Encode(chunk);
    var line := "nar:" + encoded + "\n";
    TextHasNoSpace(chunk);
    Base64.DecodeInvertsEncode(chunk);
    OneLineHandled(st, "nar:" + encoded, rest);
    LineKinds(st, line);
    assert line[4..] == encoded + "\n";
  }

  function Grown(st: RelayState, data: Bytes): RelayState
    requires st.current.Some?
  {
    st.(current := Some((st.current.value.0, st.current.value.1 + data)))
  }

  lemma GrownTwice(st: RelayState, a: Bytes, b: Bytes)
    requires st.current.Some?
    ensures Grown(Grown(st, a), b) == Grown(st, a + b)
  {
    var sofar := st.current.value.1;
    assert (sofar + a) + b == sofar + (a + b);
  }

  // With a file open, nar lines append exactly their chunks.
  lemma {:induction false} ChunksArrive(st: RelayState, chunks: seq<Bytes>, rest: string)
    requires st.status == Running && st.current.Some?
    ensures HandleLines(st, Lines(NarLines(chunks) + rest)) == HandleLines(Grown(st, Flatten(chunks)), Lines(rest))
    decreases |chunks|
  {
    if chunks == [] {
      assert NarLines(chunks) + rest == rest;
      assert st.current.value.1 + Flatten<byte>(chunks) == st.current.value.1;
    } else {
      var first, others := chunks[0], chunks[1..];
      NarLinesSplit(chunks, rest);
      ChunkArrives(st, first, NarLines(others) + rest);
      var next := Grown(st, first);
      ChunksArrive(next, others, rest);
      GrownTwice(st, first, Flatten(others));
      assert Flatten(chunks) == first + Flatten(others);
    }
  }

  lemma NarLinesSplit(chunks: seq<Bytes>, rest: string)
    requires chunks != []
    ensures NarLines(chunks) + rest == "nar:" + Base64.Encode(chunks[0]) + "\n" + (NarLines(chunks[1..]) + rest)
  {
  }

  // The first chunk opens the file at the next destination; after that it reads
  // like any other chunk.
  function Opened(st: RelayState): RelayState
    requires st.dests != []
  {
    st.(current := Some((st.dests[0], [])), dests := st.dests[1..])
  }

  lemma FirstChunkOpens(st: RelayState, chunk: Bytes, rest: string)
    requires st.status == Running && st.current.None? && st.dests != []
    ensures var text := "nar:" + Base64.Encode(chunk) + "\n" + rest;
            HandleLines(st, Lines(text)) == HandleLines(Opened(st), Lines(text))
  {
    NarLineHandled(st, chunk, rest);
    NarLineHandled(Opened(st), chunk, rest);
    LineKinds(st, "nar:" + Base64.Encode(chunk) + "\n");
    LineKinds(Opened(st), "nar:" + Base64.Encode(chunk) + "\n");
  }

  lemma NarLineHandled(st: RelayState, chunk: Bytes, rest: string)
    ensures HandleLines(st, Lines("nar:" + Base64.Encode(chunk) + "\n" + rest))
         == HandleLines(HandleLine(st, "nar:" + Base64.Encode(chunk) + "\n"), Lines(rest))
  {
    TextHasNoSpace(chunk);
    OneLineHandled(st, "nar:" + Base64.Encode(chunk), rest);
  }

  lemma NowhereToPut(st: RelayState, chunk: Bytes, rest: string)
    requires st.status == Running && st.current.None? && st.dests == []
    ensures HandleLines(st, Lines("nar:" + Base64.Encode(chunk) + "\n" + rest)) == st.(status := Blocked)
  {
    var body := "nar:" + Base64.Encode(chunk);
    TextHasNoSpace(chunk);
    OneLineHandled(st, body, rest);
    LineKinds(st, body + "\n");
    StoppedStays(st.(status := Blocked), Lines(rest));
  }

  lemma EndArrives(st: RelayState, rest: string)
    requires st.status == Running
    ensures st.current.Some? ==>
              HandleLines(st, Lines("nar-end\n" + rest)) == HandleLines(st.(files := st.files + [st.current.value], current := None), Lines(rest))
    ensures st.current.None? ==> HandleLines(st, Lines("nar-end\n" + rest)) == st.(status := Failed)
  {
    assert "nar-end\n" == "nar-end" + "\n";
    OneLineHandled(st, "nar-end", rest);
    LineKinds(st, "nar-end\n");
    if st.current.None? {
      StoppedStays(st.(status := Failed), Lines(rest));
    }
  }

  // A framed nar lands whole at the next destination. It does so exactly when it
  // has a byte and a destination is left; an empty nar fails the relay, and one
  // with nowhere to go blocks it.
  lemma NarArrivesIff(st: RelayState, data: Bytes, rest: string)
    requires st.status == Running && st.current.None?
    ensures data != [] && st.dests != [] ==>
              HandleLines(st, Lines(NarText(data) + rest))
              == HandleLines(st.(files := st.files + [(st.dests[0], data)], dests := st.dests[1..]), Lines(rest))
    ensures data == [] ==> HandleLines(st, Lines(NarText(data) + rest)) == st.(status := Failed)
    ensures data != [] && st.dests == [] ==> HandleLines(st, Lines(NarText(data) + rest)) == st.(status := Blocked)
  {
    var chunks := Chunks(data, NAR_CHUNK_SIZE);
    var tail := "nar-end\n" + rest;
    assert NarText(data) + rest == NarLines(chunks) + tail;
    if data == [] {
      assert NarLines(chunks) + tail == tail;
      EndArrives(st, rest);
    } else {
      NarLinesSplit(chunks, tail);
      if st.dests == [] {
        NowhereToPut(st, chunks[0], NarLines(chunks[1..]) + tail);
      } else {
        FirstChunkOpens(st, chunks[0], NarLines(chunks[1..]) + tail);
        ChunksArrive(Opened(st), chunks, tail);
        ChunksFlatten(data, NAR_CHUNK_SIZE);
        assert [] + Flatten(chunks) == data;
        EndArrives(Grown(Opened(st), data), rest);
      }
    }
  }

  // ---- Socket mode refines direct mode ----

  predicate WellFormed(ops: seq<Op>) {
    forall k :: 0 <= k < |ops| ==>
      match ops[k]
      case Line(line) => NewlineFree(line)
      case Trace(trace) => NewlineFree(trace)
      case Nar(data) => data != []
      case End => true
  }

  function Nars(ops: seq<Op>): seq<Bytes> {
    if ops == [] then []
    else Nars(ops[..|ops| - 1]) + (if ops[|ops| - 1].Nar? then [ops[|ops| - 1].data] else [])
  }

  function Deliveries(dests: seq<string>, nars: seq<Bytes>): seq<(string, Bytes)>
    requires |nars| <= |dests|
  {
    seq(|nars|, k requires 0 <= k < |nars| => (dests[k], nars[k]))
  }

  predicate HasTerminal(ops: seq<Op>) {
    exists k :: 0 <= k < |ops| && ops[k].Line? && IsTerminal(ops[k].line + "\n")
  }

  // The state the relay is in once it has read everything these operations sent.
  function Delivered(mode: RelayMode, dests: seq<string>, ops: seq<Op>): RelayState
    requires |Nars(ops)| <= |dests|
  {
    RelayState(mode, DirectFd4s(ops), DirectOuts(ops), Deliveries(dests, Nars(ops)), None,
      dests[|Nars(ops)|..], mode != Substitute || HasTerminal(ops), Running)
  }

  // What one operation adds to a relay that is between nars.
  function Extended(st: RelayState, op: Op): RelayState
    requires op.Nar? ==> st.dests != []
  {
    match op
    case Line(line) => st.(fd4 := st.fd4 + DirectFd4(op), sawTerminal := st.sawTerminal || (st.mode == Substitute && IsTerminal(line + "\n")))
    case Trace(_) => st.(out := st.out + DirectOut(op))
    case End => st.(fd4 := st.fd4 + DirectFd4(op))
    case Nar(data) => st.(files := st.files + [(st.dests[0], data)], dests := st.dests[1..])
  }

  // Whatever the daemon writes on the socket, the relay ends up having written to
  // fd 4 and stdout exactly what direct mode writes there, and each nar whole to
  // its own destination.
  lemma {:induction false} SocketRefinesDirect(mode: RelayMode, dests: seq<string>, ops: seq<Op>, rest: string)
    requires WellFormed(ops) && |Nars(ops)| <= |dests|
    ensures HandleLines(Start(mode, dests), Lines(SocketTexts(ops) + rest))
         == HandleLines(Delivered(mode, dests, ops), Lines(rest))
    decreases |ops|
  {
    if ops == [] {
      assert SocketTexts(ops) + rest == rest;
      assert Deliveries(dests, []) == [] && dests[0..] == dests;
    } else {
      var front, op := ops[..|ops| - 1], ops[|ops| - 1];
      Regroup(SocketTexts(front), SocketText(op), rest);
      assert front + [op] == ops;
      SocketRefinesDirect(mode, dests, front, SocketText(op) + rest);
      DeliveredExtends(mode, dests, front, op);
      OpHandled(Delivered(mode, dests, front), op, rest);
    }
  }

  lemma Regroup(a: string, b: string, c: string)
    ensures (a + b) + c == a + (b + c)
  {
  }

  lemma OpHandled(st: RelayState, op: Op, rest: string)
    requires st.status == Running && st.current.None?
    requires op.Line? ==> NewlineFree(op.line)
    requires op.Trace? ==> NewlineFree(op.trace)
    requires op.Nar? ==> op.data != [] && st.dests != []
    ensures HandleLines(st, Lines(SocketText(op) + rest)) == HandleLines(Extended(st, op), Lines(rest))
  {
    if op.Nar? {
      NarArrivesIff(st, op.data, rest);
    } else {
      OneLineHandled(st, Body(op), rest);
      BodyHandled(st, op);
    }
  }

  // The single line a reply, trace or end is framed as.
  function Body(op: Op): (body: string)
    requires !op.Nar?
    ensures SocketText(op) == body + "\n"
  {
    match op
    case Line(line) => if line == "" then "fd4-empty:" else "fd4:" + line
    case Trace(trace) => "out:" + trace
    case End => "fd4:"
  }

  lemma BodyHandled(st: RelayState, op: Op)
    requires st.status == Running && !op.Nar?
    ensures HandleLine(st, Body(op) + "\n") == Extended(st, op)
  {
    var line := Body(op) + "\n";
    LineKinds(st, line);
    BlankIsNotTerminal();
    if op.Line? && op.line != "" {
      assert line[4..] == op.line + "\n";
    } else if op.Trace? {
      assert line[4..] == op.trace + "\n";
    } else if op.End? {
      assert line[4..] == "\n";
    }
  }

  lemma DeliveredExtends(mode: RelayMode, dests: seq<string>, front: seq<Op>, op: Op)
    requires |Nars(front + [op])| <= |dests|
    ensures |Nars(front)| <= |Nars(front + [op])|
    ensures op.Nar? ==> Delivered(mode, dests, front).dests != []
    ensures Delivered(mode, dests, front + [op]) == Extended(Delivered(mode, dests, front), op)
  {
    assert (front + [op])[..|front|] == front;
    TerminalExtends(front, op);
    var n := |Nars(front)|;
    if op.Nar? {
      assert dests[n..][0] == dests[n] && dests[n..][1..] == dests[n + 1..];
      assert Deliveries(dests, Nars(front + [op])) == Deliveries(dests, Nars(front)) + [(dests[n], op.data)];
    } else {
      assert Nars(front + [op]) == Nars(front);
      assert op.Trace? ==> DirectFd4s(front) + "" == DirectFd4s(front);
      assert !op.Trace? ==> DirectOuts(front) + "" == DirectOuts(front);
    }
  }

  lemma BlankIsNotTerminal()
    ensures "" + "\n" == "\n" && !IsTerminal("\n")
  {
    assert TrimStart("\n") == "";
  }

  lemma TerminalExtends(front: seq<Op>, op: Op)
    ensures HasTerminal(front + [op]) <==> HasTerminal(front) || (op.Line? && IsTerminal(op.line + "\n"))
  {
    var all := front + [op];
    assert forall k :: 0 <= k < |front| ==> all[k] == front[k];
    assert all[|front|] == op;
  }

  // So a whole session ends well exactly when a substitute got its terminal reply.
  lemma SessionEndsWellIff(mode: RelayMode, dests: seq<string>, ops: seq<Op>)
    requires WellFormed(ops) && |Nars(ops)| <= |dests|
    ensures HandleLines(Start(mode, dests), Lines(SocketTexts(ops))) == Delivered(mode, dests, ops)
    ensures EndsWell(HandleLines(Start(mode, dests), Lines(SocketTexts(ops)))) <==> mode == Query || HasTerminal(ops)
  {
    SocketRefinesDirect(mode, dests, ops, "");
    assert SocketTexts(ops) + "" == SocketTexts(ops);
  }

  // ---- The command line both ends read ----

  datatype Command = Have(paths: seq<string>) | Info(infoPaths: seq<string>) | SubstituteCommand(path: string, dest: string)

  function WordLength(s: string): (n: nat)
    ensures n <= |s|
  {
    if s == "" || IsWhitespace(s[0]) then 0 else 1 + WordLength(s[1..])
  }

  // str::split_whitespace
  function Words(s: string): seq<string>
    decreases |s|
  {
    if s == "" then []
    else if IsWhitespace(s[0]) then Words(s[1..])
    else [s[..WordLength(s)]] + Words(s[WordLength(s)..])
  }

  function SpaceAt(s: string): (n: nat)
    ensures n <= |s|
  {
    if s == "" || s[0] == ' ' then 0 else 1 + SpaceAt(s[1..])
  }

  // splitn(2, ' '): the text before the first space and the text after it.
  function SplitOnce(s: string): (string, Option<string>) {
    var n := SpaceAt(s);
    if n == |s| then (s, None) else (s[..n], Some(s[n + 1..]))
  }

  // The daemon's parser; anything unrecognised is a path to look up.
  function ParseCommand(line: string): Command {
    if "have " <= line then Have(Words(line[5..]))
    else if "info " <= line then Info(Words(line[5..]))
    else if "substitute " <= line then
      var (path, dest) := SplitOnce(line[11..]);
      SubstituteCommand(path, if dest.Some? then dest.value else "")
    else Have([line])
  }

  // The relay's own reading of the same line.
  function SubstituteDestination(line: string): Option<string> {
    if "substitute " <= line then
      var (_, dest) := SplitOnce(line[11..]);
      if dest == Some("") then None else dest
    else None
  }

  function DaemonDestination(line: string): Option<string> {
    match ParseCommand(Trim(line))
    case SubstituteCommand(_, dest) => if dest == "" then None else Some(dest)
    case _ => None
  }

  // A substitute command with something after the space that ends its path.
  predicate NamesDestination(text: string) {
    "substitute " <= text && exists n :: 11 <= n < |text| - 1 && text[n] == ' '
  }

  lemma {:induction false} SpaceAtIsFirst(s: string)
    ensures SpaceAt(s) < |s| ==> s[SpaceAt(s)] == ' '
    ensures forall i :: 0 <= i < SpaceAt(s) ==> s[i] != ' '
  {
    if s != "" && s[0] != ' ' {
      SpaceAtIsFirst(s[1..]);
    }
  }

  lemma DaemonReadsIff(line: string)
    ensures DaemonDestination(line).Some? <==> NamesDestination(Trim(line))
  {
    var t := Trim(line);
    if "substitute " <= t {
      assert t[0] == 's';
      assert !("have " <= t) && !("info " <= t);
      var rest := t[11..];
      SpaceAtIsFirst(rest);
      assert forall i :: 0 <= i < |rest| ==> rest[i] == t[11 + i];
    }
  }

  // The daemon trims both ends of the line and the relay only its end, so they
  // disagree about the destination exactly when the line starts with white space
  // and its trimmed text names one.
  lemma DestinationsDifferIff(line: string)
    ensures SubstituteDestination(TrimEnd(line)) != DaemonDestination(line)
       <==> line != "" && IsWhitespace(line[0]) && NamesDestination(Trim(line))
  {
    DaemonReadsIff(line);
    if line == "" || !IsWhitespace(line[0]) {
      assert TrimStart(line) == line;
      var t := TrimEnd(line);
      assert "have " <= t ==> t[0] == 'h';
      assert "info " <= t ==> t[0] == 'i';
      assert "substitute " <= t ==> t[0] == 's';
    } else {
      TrimEndIsPrefix(line);
      var t := TrimEnd(line);
      assert t != "" ==> t[0] == line[0] != 's';
    }
  }

  lemma {:induction false} TrimEndIsPrefix(s: string)
    ensures TrimEnd(s) <= s
  {
    if s != "" && IsWhitespace(s[|s| - 1]) {
      TrimEndIsPrefix(s[..|s| - 1]);
    }
  }
}
