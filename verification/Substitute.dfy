// Answering one substitute request: look the path up, fetch the nar by policy,
// check it, deliver it, and say so. The outcomes of the lookups, of the two
// kinds of download and of file writes are inputs; the connection to the relay
// carries a given number of characters before it breaks.

module Substitute {
  import opened Common
  import opened Relay
  import NixBase32
  import LocalNars = NarStore

  datatype Policy = P2pOnly | P2pFirst | HttpFirst
  datatype Source = P2p | Http

  datatype Narinfo = Narinfo(storePath: string, narSize: nat, narHash: string)

  // The swarm download can panic on what a first handshake announced.
  datatype P2pAnswer = P2pAnswer(triedFallback: bool, panicked: bool, nar: Option<Bytes>)
  datatype Progress = Progress(url: string, total: nat, transferred: nat)
  datatype HttpAnswer = HttpAnswer(progress: seq<Progress>, nar: Option<(Bytes, string)>)

  datatype Download = Download(data: Bytes, traceUrl: string, source: Source)

  datatype Request = Request(
    policy: Policy,
    hashPart: Option<string>, cached: Option<Narinfo>, localOnly: bool, fetched: Option<Narinfo>,
    p2p: P2pAnswer, httpUrl: string, http: HttpAnswer,
    hasWriter: bool, tempWrites: bool, placed: bool,
    seedP2p: bool, seedHttp: bool, now: nat)

  // ---- Texts ----

  function Decimal(n: nat): (s: string)
    ensures NewlineFree(s)
  {
    (if n < 10 then "" else Decimal(n / 10)) + ["0123456789"[n % 10]]
  }

  function TraceStarted(storePath: string, url: string, size: nat): string {
    "@ download-started " + storePath + " " + url + " " + Decimal(size)
  }

  function TraceProgress(storePath: string, url: string, total: nat, transferred: nat): string {
    "@ download-progress " + storePath + " " + url + " " + Decimal(total) + " " + Decimal(transferred)
  }

  function TraceSucceeded(storePath: string, url: string, size: nat): string {
    "@ download-succeeded " + storePath + " " + url + " " + Decimal(size)
  }

  function SuccessLine(digest: Bytes, size: nat): string {
    "success sha256:" + Hex(digest) + " " + Decimal(size)
  }

  function MismatchLine(expected: Bytes, actual: Digest): string {
    "hash-mismatch sha256 sha256:" + Hex(expected) + " sha256:" + Hex(actual)
  }

  // ---- Fetching ----

  function Known(q: Request): Option<Narinfo> {
    if q.hashPart.None? then None
    else if q.cached.Some? then q.cached
    else if q.localOnly then None
    else q.fetched
  }

  datatype Fetch = Fetch(traces: seq<string>, usedP2p: bool, usedHttp: bool, panicked: bool, nar: Option<Download>)

  function P2pUrl(q: Request): string
    requires q.hashPart.Some?
  {
    "p2p://" + q.hashPart.value
  }

  function FallbackUrl(q: Request): string
    requires q.hashPart.Some?
  {
    "p2p+connected-fallback://" + q.hashPart.value
  }

  function FromP2p(q: Request, info: Narinfo): Fetch
    requires q.hashPart.Some?
  {
    Fetch(
      [TraceStarted(info.storePath, P2pUrl(q), info.narSize)]
      + (if q.p2p.triedFallback then [TraceStarted(info.storePath, FallbackUrl(q), info.narSize)] else []),
      true, false, q.p2p.panicked,
      if !q.p2p.panicked && q.p2p.nar.Some? then Some(Download(q.p2p.nar.value, P2pUrl(q), P2p)) else None)
  }

  function ProgressTraces(info: Narinfo, progress: seq<Progress>): (traces: seq<string>)
    ensures |traces| == |progress|
  {
    seq(|progress|, k requires 0 <= k < |progress| =>
      TraceProgress(info.storePath, progress[k].url, progress[k].total, progress[k].transferred))
  }

  function FromHttp(q: Request, info: Narinfo): Fetch {
    Fetch(
      [TraceStarted(info.storePath, q.httpUrl, info.narSize)] + ProgressTraces(info, q.http.progress),
      false, true, false,
      if q.http.nar.Some? then Some(Download(q.http.nar.value.0, q.http.nar.value.1, Http)) else None)
  }

  // The second way is tried only when the first found nothing.
  function OrElse(a: Fetch, b: Fetch): Fetch {
    if a.nar.Some? || a.panicked then a
    else Fetch(a.traces + b.traces, a.usedP2p || b.usedP2p, a.usedHttp || b.usedHttp, b.panicked, b.nar)
  }

  function Fetched(q: Request, info: Narinfo): Fetch
    requires q.hashPart.Some?
  {
    match q.policy
    case P2pOnly => FromP2p(q, info)
    case P2pFirst => OrElse(FromP2p(q, info), FromHttp(q, info))
    case HttpFirst => OrElse(FromHttp(q, info), FromP2p(q, info))
  }

  // ---- The whole answer, on values ----

  // How a request ends. Aborted: the narinfo's hash field or the swarm download
  // panicked the handler, and a socket reply not yet flushed is lost with it.
  // Broken: the connection gave way before the nar was through.
  datatype Ending = Refused | Aborted | Unwritable | WrongHash(actual: Digest) | Broken | Delivered

  datatype Outcome = Outcome(ops: seq<Op>, ending: Ending, fetch: Option<Fetch>)

  function AsTraces(traces: seq<string>): (ops: seq<Op>)
    ensures |ops| == |traces| && forall k :: 0 <= k < |ops| ==> ops[k] == Trace(traces[k])
  {
    seq(|traces|, k requires 0 <= k < |traces| => Trace(traces[k]))
  }

  function DeliveryEnding(mode: Mode, capacity: nat, q: Request, traces: seq<string>, data: Bytes): Ending {
    if mode == Socket then
      if !q.hasWriter then Unwritable
      else if |SocketTexts(AsTraces(traces) + [Nar(data)])| > capacity then Broken
      else Delivered
    else if q.tempWrites && q.placed then Delivered
    else Unwritable
  }

  function EndingOf(h: Hasher, mode: Mode, capacity: nat, q: Request, expected: Bytes, f: Fetch): Ending {
    if f.nar.None? then Refused
    else if h(f.nar.value.data) != expected then WrongHash(h(f.nar.value.data))
    else DeliveryEnding(mode, capacity, q, f.traces, f.nar.value.data)
  }

  // In socket mode the nar itself travels ahead of the report.
  function Parcel(mode: Mode, data: Bytes): seq<Op> {
    if mode == Socket then [Nar(data)] else []
  }

  function Success(info: Narinfo, expected: Bytes, d: Download): seq<Op> {
    [Trace(TraceSucceeded(info.storePath, d.traceUrl, |d.data|)), Line(SuccessLine(expected, |d.data|))]
  }

  function Closing(mode: Mode, info: Narinfo, expected: Bytes, f: Fetch, ending: Ending): seq<Op>
    requires ending.Broken? || ending.Delivered? ==> f.nar.Some?
  {
    match ending
    case Refused => [Line("not-found")]
    case Unwritable => [Line("not-found")]
    case Aborted => []
    case WrongHash(actual) => [Line(MismatchLine(expected, actual))]
    case Broken => [Nar(f.nar.value.data)]
    case Delivered => Parcel(mode, f.nar.value.data) + Success(info, expected, f.nar.value)
  }

  ghost function Answered(h: Hasher, mode: Mode, capacity: nat, q: Request): Outcome {
    if Known(q).None? then Outcome([Line("not-found")], Refused, None)
    else
      var info := Known(q).value;
      match NixBase32.Sha256Spec(info.narHash)
      case Panic => Outcome([], Aborted, None)
      case Rejected => Outcome([Line("not-found")], Refused, None)
      case Decoded(expected) =>
        Concluded(h, mode, capacity, q, info, expected, Fetched(q, info))
  }

  function Concluded(h: Hasher, mode: Mode, capacity: nat, q: Request, info: Narinfo, expected: Bytes, f: Fetch): Outcome {
    if f.panicked then Outcome(if mode == Socket then [] else AsTraces(f.traces), Aborted, None)
    else Settled(h, mode, capacity, q, info, expected, f)
  }

  function Settled(h: Hasher, mode: Mode, capacity: nat, q: Request, info: Narinfo, expected: Bytes, f: Fetch): Outcome {
    var ending := EndingOf(h, mode, capacity, q, expected, f);
    Outcome(AsTraces(f.traces) + Closing(mode, info, expected, f, ending), ending, Some(f))
  }

  // Only a nar that was delivered is seeded, and only if its source may be.
  function SeededStore(e: LocalNars.Env, s: LocalNars.Store, q: Request, info: Narinfo, expected: Bytes, d: Download): LocalNars.Store
    requires e.blockSize > 0
  {
    if (if d.source == P2p then q.seedP2p else q.seedHttp) && Hex(expected) !in s.index
    then LocalNars.Saved(e, s, Hex(expected), d.data, Some(info.storePath), LocalNars.Downloaded, q.now)
    else s
  }

  // ---- The connection ----

  function Cut(text: string, n: nat): (s: string)
    ensures |s| == Min(|text|, n)
  {
    text[..Min(|text|, n)]
  }

  lemma CutAppend(a: string, b: string, n: nat)
    ensures Cut(a + b, n) == Cut(a, n) + Cut(b, n - |Cut(a, n)|)
  {
  }

  class Link {
    var wire: string
    var capacity: nat

    constructor (capacity: nat)
      ensures wire == "" && this.capacity == capacity
    {
      wire, this.capacity := "", capacity;
    }

    // write_all
    method Write(text: string) returns (ok: bool)
      modifies this
      ensures wire == old(wire) + Cut(text, old(capacity))
      ensures capacity == old(capacity) - |Cut(text, old(capacity))|
      ensures ok <==> |text| <= old(capacity)
    {
      ok := |text| <= capacity;
      var sent := Cut(text, capacity);
      wire, capacity := wire + sent, capacity - |sent|;
    }

    // One nar line, in the three pieces it is written in.
    method WriteChunk(chunk: Bytes) returns (ok: bool)
      modifies this
      ensures wire == old(wire) + Cut(ChunkLine(chunk), old(capacity))
      ensures capacity == old(capacity) - |Cut(ChunkLine(chunk), old(capacity))|
      ensures ok <==> |ChunkLine(chunk)| <= old(capacity)
    {
      var encoded := Base64.Encode(chunk);
      CutAppend("nar:", encoded + "\n", capacity);
      CutAppend("nar:" + encoded, "\n", capacity);
      CutAppend("nar:", encoded, capacity);
      assert "nar:" + (encoded + "\n") == "nar:" + encoded + "\n" == ChunkLine(chunk);
      ok := Write("nar:");
      if ok {
        ok := Write(encoded);
        if ok {
          ok := Write("\n");
        }
      }
    }

    // The k-th line, on a link that has taken the ones before it.
    method WriteChunkAt(chunks: seq<Bytes>, k: nat, ghost start: string, ghost n: nat) returns (ok: bool)
      requires k < |chunks| && |NarLines(chunks[..k])| <= n
      requires wire == start + NarLines(chunks[..k]) && capacity == n - |NarLines(chunks[..k])|
      modifies this
      ensures ok ==> |NarLines(chunks[..k + 1])| <= n
      ensures ok ==> wire == start + NarLines(chunks[..k + 1]) && capacity == n - |NarLines(chunks[..k + 1])|
      ensures !ok ==> |NarLines(chunks)| > n && wire == start + Cut(NarLines(chunks), n) && capacity == 0
    {
      ghost var sent, line, rest := NarLines(chunks[..k]), ChunkLine(chunks[k]), NarLines(chunks[k + 1..]);
      NarLinesAt(chunks, chunks[..k], chunks[k], chunks[k + 1..], chunks[..k + 1]);
      ok := WriteChunk(chunks[k]);
      if !ok {
        CutWithin(start, NarLines(chunks), sent, line, rest, n);
      } else {
        CutJoined(start, sent, line, n);
      }
    }

    method WriteChunks(chunks: seq<Bytes>) returns (ok: bool)
      modifies this
      ensures wire == old(wire) + Cut(NarLines(chunks), old(capacity))
      ensures capacity == old(capacity) - |Cut(NarLines(chunks), old(capacity))|
      ensures ok <==> |NarLines(chunks)| <= old(capacity)
    {
      ghost var start, n := wire, capacity;
      ok := true;
      for k := 0 to |chunks|
        invariant ok && |NarLines(chunks[..k])| <= n
        invariant wire == start + NarLines(chunks[..k]) && capacity == n - |NarLines(chunks[..k])|
      {
        ok := WriteChunkAt(chunks, k, start, n);
        if !ok {
          return;
        }
      }
      assert chunks[..|chunks|] == chunks;
    }

    // write_nar_data_to_socket
    method WriteNar(data: Bytes) returns (ok: bool)
      modifies this
      ensures wire == old(wire) + Cut(NarText(data), old(capacity))
      ensures capacity == old(capacity) - |Cut(NarText(data), old(capacity))|
      ensures ok <==> |NarText(data)| <= old(capacity)
    {
      var chunks := Blocks.Chunks(data, NAR_CHUNK_SIZE);
      ghost var start := wire;
      CutJoined(start, NarLines(chunks), "nar-end\n", capacity);
      ok := WriteChunks(chunks);
      if ok {
        ok := Write("nar-end\n");
      }
    }
  }

  ghost function ChunkLine(chunk: Bytes): string {
    "nar:" + Base64.Encode(chunk) + "\n"
  }

  lemma NarLinesAt(all: seq<Bytes>, a: seq<Bytes>, chunk: Bytes, b: seq<Bytes>, upTo: seq<Bytes>)
    requires upTo == a + [chunk] && all == upTo + b
    ensures NarLines(upTo) == NarLines(a) + ChunkLine(chunk)
    ensures NarLines(all) == (NarLines(a) + ChunkLine(chunk)) + NarLines(b)
  {
    NarLinesAround(a, chunk, b);
  }

  lemma NarLinesAround(a: seq<Bytes>, chunk: Bytes, b: seq<Bytes>)
    ensures NarLines(a + [chunk]) == NarLines(a) + ChunkLine(chunk)
    ensures NarLines(a + [chunk] + b) == (NarLines(a) + ChunkLine(chunk)) + NarLines(b)
  {
    NarLinesAppend(a, [chunk]);
    NarLinesOne(chunk);
    NarLinesAppend(a + [chunk], b);
  }

  lemma NarLinesOne(chunk: Bytes)
    ensures NarLines([chunk]) == ChunkLine(chunk)
  {
    assert NarLines([chunk]) == ChunkLine(chunk) + "";
  }

  // Where the first piece that does not fit cuts the whole.
  lemma CutWithin(start: string, all: string, sent: string, piece: string, rest: string, n: nat)
    requires all == (sent + piece) + rest && |sent| <= n < |sent| + |piece|
    ensures start + sent + Cut(piece, n - |sent|) == start + Cut(all, n) && |all| > n
  {
    assert sent + Cut(piece, n - |sent|) == Cut(all, n);
  }

  lemma CutJoined(start: string, a: string, b: string, n: nat)
    ensures |a| <= n ==> start + Cut(a, n) + Cut(b, n - |a|) == start + Cut(a + b, n)
    ensures |a| > n ==> Cut(a, n) == Cut(a + b, n)
  {
    CutAppend(a, b, n);
  }

  // ---- The handler ----

  // What was there before the request: the link's capacity and what the link, fd 4
  // and stdout already held.
  datatype Base = Base(capacity: nat, wire: string, fd4: string, out: string)

  // What this request has put on the link.
  ghost function Sent(link: Link, b: Base): string
    reads link
  {
    if b.wire <= link.wire then link.wire[|b.wire|..] else ""
  }

  ghost predicate Continues(link: Link, b: Base)
    reads link
  {
    b.wire <= link.wire && |Sent(link, b)| + link.capacity == b.capacity
  }

  // The operations so far, as each kind of writer shows them.
  ghost predicate Emitted(reply: ReplyWriter, link: Link, b: Base, ops: seq<Op>)
    reads reply, link
  {
    match reply.mode
    case Fd4 => reply.fd4 == b.fd4 + DirectFd4s(ops) && reply.out == b.out + DirectOuts(ops)
    case Buffer => true
    case Socket => Continues(link, b) && Sent(link, b) + reply.buf == SocketTexts(ops)
  }

  lemma TextsExtend(ops: seq<Op>, op: Op)
    ensures SocketTexts(ops + [op]) == SocketTexts(ops) + SocketText(op)
    ensures DirectFd4s(ops + [op]) == DirectFd4s(ops) + DirectFd4(op)
    ensures DirectOuts(ops + [op]) == DirectOuts(ops) + DirectOut(op)
  {
    assert (ops + [op])[..|ops|] == ops;
  }

  lemma Joins(a: string, b: string, c: string, bc: string)
    requires bc == b + c
    ensures a + b + c == a + bc
  {
  }

  method SayTrace(reply: ReplyWriter, link: Link, ghost b: Base, ghost ops: seq<Op>, text: string)
    requires Emitted(reply, link, b, ops)
    modifies reply
    ensures Emitted(reply, link, b, ops + [Trace(text)])
  {
    ghost var op := Trace(text);
    TextsExtend(ops, op);
    Joins(b.fd4, DirectFd4s(ops), DirectFd4(op), DirectFd4s(ops + [op]));
    Joins(b.out, DirectOuts(ops), DirectOut(op), DirectOuts(ops + [op]));
    Joins(Sent(link, b), reply.buf, SocketText(op), reply.buf + SocketText(op));
    reply.WriteTrace(text);
  }

  method SayLine(reply: ReplyWriter, link: Link, ghost b: Base, ghost ops: seq<Op>, text: string)
    requires Emitted(reply, link, b, ops)
    modifies reply
    ensures Emitted(reply, link, b, ops + [Line(text)])
  {
    ghost var op := Line(text);
    TextsExtend(ops, op);
    Joins(b.fd4, DirectFd4s(ops), DirectFd4(op), DirectFd4s(ops + [op]));
    Joins(b.out, DirectOuts(ops), DirectOut(op), DirectOuts(ops + [op]));
    Joins(Sent(link, b), reply.buf, SocketText(op), reply.buf + SocketText(op));
    reply.WriteLine(text);
  }

  // Until the nar is there, nothing but traces is written.
  method SayNext(reply: ReplyWriter, link: Link, ghost b: Base, ghost traces: seq<string>, text: string)
    requires Emitted(reply, link, b, AsTraces(traces))
    modifies reply
    ensures Emitted(reply, link, b, AsTraces(traces + [text]))
  {
    assert AsTraces(traces) + [Trace(text)] == AsTraces(traces + [text]);
    SayTrace(reply, link, b, AsTraces(traces), text);
  }

  method TryP2p(q: Request, info: Narinfo, reply: ReplyWriter, link: Link, ghost b: Base, ghost traces: seq<string>)
    returns (nar: Option<Download>, panicked: bool)
    requires q.hashPart.Some? && Emitted(reply, link, b, AsTraces(traces))
    modifies reply
    ensures Emitted(reply, link, b, AsTraces(traces + FromP2p(q, info).traces)) && nar == FromP2p(q, info).nar
    ensures panicked == q.p2p.panicked
  {
    var started, fallback := TraceStarted(info.storePath, P2pUrl(q), info.narSize), TraceStarted(info.storePath, FallbackUrl(q), info.narSize);
    assert FromP2p(q, info).traces == if q.p2p.triedFallback then [started] + [fallback] else [started];
    SayNext(reply, link, b, traces, started);
    if q.p2p.triedFallback {
      SayNext(reply, link, b, traces + [started], fallback);
      assert (traces + [started]) + [fallback] == traces + ([started] + [fallback]);
    }
    panicked := q.p2p.panicked;
    nar := if !panicked && q.p2p.nar.Some? then Some(Download(q.p2p.nar.value, P2pUrl(q), P2p)) else None;
  }

  method SayProgress(info: Narinfo, progress: seq<Progress>, reply: ReplyWriter, link: Link, ghost b: Base, ghost traces: seq<string>)
    requires Emitted(reply, link, b, AsTraces(traces))
    modifies reply
    ensures Emitted(reply, link, b, AsTraces(traces + ProgressTraces(info, progress)))
  {
    ghost var all := ProgressTraces(info, progress);
    assert traces + all[..0] == traces;
    for k := 0 to |progress|
      invariant Emitted(reply, link, b, AsTraces(traces + all[..k]))
    {
      var p := progress[k];
      assert (traces + all[..k]) + [all[k]] == traces + all[..k + 1];
      SayNext(reply, link, b, traces + all[..k], TraceProgress(info.storePath, p.url, p.total, p.transferred));
    }
    assert all[..|progress|] == all;
  }

  method TryHttp(q: Request, info: Narinfo, reply: ReplyWriter, link: Link, ghost b: Base, ghost traces: seq<string>)
    returns (nar: Option<Download>)
    requires Emitted(reply, link, b, AsTraces(traces))
    modifies reply
    ensures Emitted(reply, link, b, AsTraces(traces + FromHttp(q, info).traces)) && nar == FromHttp(q, info).nar
  {
    var started := TraceStarted(info.storePath, q.httpUrl, info.narSize);
    SayNext(reply, link, b, traces, started);
    SayProgress(info, q.http.progress, reply, link, b, traces + [started]);
    assert (traces + [started]) + ProgressTraces(info, q.http.progress) == traces + FromHttp(q, info).traces;
    nar := if q.http.nar.Some? then Some(Download(q.http.nar.value.0, q.http.nar.value.1, Http)) else None;
  }

  method FetchNar(q: Request, info: Narinfo, reply: ReplyWriter, link: Link, ghost b: Base) returns (nar: Option<Download>, panicked: bool)
    requires q.hashPart.Some? && Emitted(reply, link, b, AsTraces([]))
    modifies reply
    ensures Emitted(reply, link, b, AsTraces(Fetched(q, info).traces))
    ensures nar == Fetched(q, info).nar && panicked == Fetched(q, info).panicked
  {
    ghost var p2p, http := FromP2p(q, info).traces, FromHttp(q, info).traces;
    assert [] + p2p == p2p && [] + http == http;
    match q.policy {
      case P2pOnly =>
        nar, panicked := TryP2p(q, info, reply, link, b, []);
      case P2pFirst =>
        nar, panicked := TryP2p(q, info, reply, link, b, []);
        if nar.None? && !panicked {
          nar := TryHttp(q, info, reply, link, b, p2p);
        }
      case HttpFirst =>
        panicked := false;
        nar := TryHttp(q, info, reply, link, b, []);
        if nar.None? {
          nar, panicked := TryP2p(q, info, reply, link, b, http);
        }
    }
  }

  // flush_socket
  method FlushReply(reply: ReplyWriter, link: Link, ghost b: Base, ghost ops: seq<Op>) returns (ok: bool)
    requires reply.mode == Socket && Emitted(reply, link, b, ops)
    modifies reply, link
    ensures ok <==> |SocketTexts(ops)| <= b.capacity
    ensures ok ==> Emitted(reply, link, b, ops) && Sent(link, b) == SocketTexts(ops)
    ensures !ok ==> BrokeOff(link, b, ops)
  {
    ok := true;
    if reply.buf != "" {
      ghost var wire, sent, buf := link.wire, Sent(link, b), reply.buf;
      CutAppend(sent, buf, b.capacity);
      SentGrows(b.wire, wire, Cut(buf, link.capacity));
      ok := link.Write(reply.buf);
      assert Cut(sent, b.capacity) == sent;
      if ok {
        reply.buf := "";
      }
    }
  }

  // The buffered reply, and the nar after it.
  method StreamNar(data: Bytes, reply: ReplyWriter, link: Link, ghost b: Base, ghost ops: seq<Op>) returns (ok: bool)
    requires reply.mode == Socket && Emitted(reply, link, b, ops)
    modifies reply, link
    ensures ok <==> |SocketTexts(ops + [Nar(data)])| <= b.capacity
    ensures ok ==> Emitted(reply, link, b, ops + [Nar(data)])
    ensures !ok ==> BrokeOff(link, b, ops + [Nar(data)])
  {
    assert (ops + [Nar(data)])[..|ops|] == ops;
    ghost var before, text := SocketTexts(ops), NarText(data);
    CutAppend(before, text, b.capacity);
    ok := FlushReply(reply, link, b, ops);
    if !ok {
      return;
    }
    SentGrows(b.wire, link.wire, Cut(text, link.capacity));
    ok := link.WriteNar(data);
    assert Cut(before, b.capacity) == before;
  }

  lemma SentGrows(start: string, wire: string, more: string)
    requires start <= wire
    ensures start <= wire + more && (wire + more)[|start|..] == wire[|start|..] + more
  {
  }

  // The link gave way and carries what fitted of these operations.
  ghost predicate BrokeOff(link: Link, b: Base, ops: seq<Op>)
    reads link
  {
    b.wire <= link.wire && Sent(link, b) == Cut(SocketTexts(ops), b.capacity) && link.capacity == 0
  }

  datatype FileChange = Untouched | Deleted | Written(data: Bytes) | Unspecified

  function FileChangeOf(mode: Mode, q: Request, ending: Ending, data: Bytes): FileChange {
    match ending
    case WrongHash(_) => Deleted
    case Delivered => if mode == Socket then Untouched else Written(data)
    case Unwritable => if mode != Socket && q.tempWrites then Unspecified else Untouched
    case _ => Untouched
  }

  // Hand the checked nar over, in the reply's own way.
  method Deliver(q: Request, data: Bytes, reply: ReplyWriter, link: Link, ghost b: Base, ghost traces: seq<string>)
    returns (delivered: bool, change: FileChange, ghost ending: Ending)
    requires Emitted(reply, link, b, AsTraces(traces))
    modifies reply, link
    ensures ending == DeliveryEnding(reply.mode, b.capacity, q, traces, data)
    ensures change == FileChangeOf(reply.mode, q, ending, data)
    ensures delivered <==> ending.Delivered?
    ensures ending.Delivered? ==> Emitted(reply, link, b, AsTraces(traces) + Parcel(reply.mode, data))
    ensures ending.Unwritable? ==> Emitted(reply, link, b, AsTraces(traces) + [Line("not-found")])
    ensures ending.Broken? ==> BrokeOff(link, b, AsTraces(traces) + [Nar(data)])
  {
    if reply.mode == Socket {
      if !q.hasWriter {
        SayLine(reply, link, b, AsTraces(traces), "not-found");
        return false, Untouched, Unwritable;
      }
      delivered := StreamNar(data, reply, link, b, AsTraces(traces));
      return delivered, Untouched, if delivered then Delivered else Broken;
    }
    if !q.tempWrites {
      SayLine(reply, link, b, AsTraces(traces), "not-found");
      return false, Untouched, Unwritable;
    }
    if !q.placed {
      SayLine(reply, link, b, AsTraces(traces), "not-found");
      return false, Unspecified, Unwritable;
    }
    assert AsTraces(traces) + [] == AsTraces(traces);
    return true, Written(data), Delivered;
  }

  method Report(info: Narinfo, expected: Bytes, d: Download, reply: ReplyWriter, link: Link, ghost b: Base, ghost ops: seq<Op>)
    requires Emitted(reply, link, b, ops)
    modifies reply
    ensures Emitted(reply, link, b, ops + Success(info, expected, d))
  {
    var succeeded := TraceSucceeded(info.storePath, d.traceUrl, |d.data|);
    SayTrace(reply, link, b, ops, succeeded);
    assert (ops + [Trace(succeeded)]) + [Line(SuccessLine(expected, |d.data|))] == ops + Success(info, expected, d);
    SayLine(reply, link, b, ops + [Trace(succeeded)], SuccessLine(expected, |d.data|));
  }

  method Conclude(q: Request, info: Narinfo, expected: Bytes, d: Download, reply: ReplyWriter, link: Link, store: LocalNars.NarStore,
                  ghost b: Base, ghost ops: seq<Op>)
    returns (announced: bool)
    requires store.e.blockSize > 0 && Emitted(reply, link, b, ops)
    modifies reply, store
    ensures Emitted(reply, link, b, ops + Success(info, expected, d))
    ensures store.View() == SeededStore(store.e, old(store.View()), q, info, expected, d)
    ensures announced <==> Hex(expected) !in old(store.index) && Hex(expected) in store.index
  {
    announced := Seed(q, info, expected, d, store);
    Report(info, expected, d, reply, link, b, ops);
  }

  lemma ClosingOfDelivered(mode: Mode, info: Narinfo, expected: Bytes, f: Fetch)
    requires f.nar.Some?
    ensures AsTraces(f.traces) + Closing(mode, info, expected, f, Delivered)
         == (AsTraces(f.traces) + Parcel(mode, f.nar.value.data)) + Success(info, expected, f.nar.value)
  {
  }

  // Everything after the download: check, deliver, seed, report.
  method Settle(h: Hasher, q: Request, info: Narinfo, expected: Bytes, ghost f: Fetch, d: Download,
                reply: ReplyWriter, link: Link, store: LocalNars.NarStore, ghost b: Base)
    returns (change: FileChange, announced: bool, ghost ending: Ending)
    requires f.nar == Some(d) && store.e.blockSize > 0
    requires Emitted(reply, link, b, AsTraces(f.traces))
    modifies reply, link, store
    ensures ending == EndingOf(h, reply.mode, b.capacity, q, expected, f)
    ensures !ending.Broken? ==> Emitted(reply, link, b, AsTraces(f.traces) + Closing(reply.mode, info, expected, f, ending))
    ensures ending.Broken? ==> BrokeOff(link, b, AsTraces(f.traces) + Closing(reply.mode, info, expected, f, ending))
    ensures change == FileChangeOf(reply.mode, q, ending, d.data)
    ensures store.View() == if ending.Delivered? then SeededStore(store.e, old(store.View()), q, info, expected, d) else old(store.View())
    ensures announced <==> Hex(expected) !in old(store.index) && Hex(expected) in store.index
  {
    announced := false;
    if h(d.data) != expected {
      SayLine(reply, link, b, AsTraces(f.traces), MismatchLine(expected, h(d.data)));
      return Deleted, false, WrongHash(h(d.data));
    }
    var delivered;
    delivered, change, ending := Deliver(q, d.data, reply, link, b, f.traces);
    if delivered {
      announced := Conclude(q, info, expected, d, reply, link, store, b, AsTraces(f.traces) + Parcel(reply.mode, d.data));
      ClosingOfDelivered(reply.mode, info, expected, f);
    }
  }

  method Seed(q: Request, info: Narinfo, expected: Bytes, d: Download, store: LocalNars.NarStore) returns (announced: bool)
    requires store.e.blockSize > 0
    modifies store
    ensures store.View() == SeededStore(store.e, old(store.View()), q, info, expected, d)
    ensures announced <==> Hex(expected) !in old(store.index) && Hex(expected) in store.index
  {
    announced := false;
    var shouldSeed := match d.source case P2p => q.seedP2p case Http => q.seedHttp;
    if shouldSeed && Hex(expected) !in store.index {
      store.SaveWithSource(Hex(expected), d.data, Some(info.storePath), LocalNars.Downloaded, q.now);
      announced := true;
    }
  }

  // The narinfo to go by, if there is one.
  method LookUp(q: Request) returns (info: Option<Narinfo>)
    ensures info == Known(q)
  {
    if q.hashPart.None? {
      return None;
    }
    if q.cached.Some? {
      return q.cached;
    }
    if q.localOnly {
      return None;
    }
    return q.fetched;
  }

  // A panic leaves what was said so far, and the store as it was.
  method FetchAndSettle(h: Hasher, q: Request, info: Narinfo, expected: Bytes, reply: ReplyWriter, link: Link, store: LocalNars.NarStore, ghost b: Base)
    returns (change: FileChange, announced: bool, panicked: bool, ghost ending: Ending)
    requires q.hashPart.Some? && store.e.blockSize > 0 && Emitted(reply, link, b, AsTraces([]))
    modifies reply, link, store
    ensures panicked == Fetched(q, info).panicked
    ensures panicked ==>
              && Emitted(reply, link, b, AsTraces(Fetched(q, info).traces)) && link.wire == old(link.wire)
              && change == Untouched && store.View() == old(store.View())
    ensures !panicked ==>
              var f := Fetched(q, info);
              && ending == EndingOf(h, reply.mode, b.capacity, q, expected, f)
              && (!ending.Broken? ==> Emitted(reply, link, b, AsTraces(f.traces) + Closing(reply.mode, info, expected, f, ending)))
              && (ending.Broken? ==> BrokeOff(link, b, AsTraces(f.traces) + Closing(reply.mode, info, expected, f, ending)))
              && change == (if f.nar.None? then Untouched else FileChangeOf(reply.mode, q, ending, f.nar.value.data))
              && store.View() == (if ending.Delivered? then SeededStore(store.e, old(store.View()), q, info, expected, f.nar.value) else old(store.View()))
    ensures announced <==> Hex(expected) !in old(store.index) && Hex(expected) in store.index
  {
    var nar;
    nar, panicked := FetchNar(q, info, reply, link, b);
    ghost var f := Fetched(q, info);
    if panicked {
      return Untouched, false, true, Aborted;
    }
    if nar.None? {
      SayLine(reply, link, b, AsTraces(f.traces), "not-found");
      return Untouched, false, false, Refused;
    }
    change, announced, ending := Settle(h, q, info, expected, f, nar.value, reply, link, store, b);
  }

  // What the handler leaves behind besides its reply.
  ghost predicate LeftBehind(mode: Mode, e: LocalNars.Env, before: LocalNars.Store, after: LocalNars.Store, q: Request, o: Outcome, change: FileChange)
    requires e.blockSize > 0
  {
    if o.ending.Delivered? then
      && Known(q).Some? && NixBase32.Sha256Spec(Known(q).value.narHash).Decoded? && o.fetch.Some? && o.fetch.value.nar.Some?
      && after == SeededStore(e, before, q, Known(q).value, NixBase32.Sha256Spec(Known(q).value.narHash).value, o.fetch.value.nar.value)
      && (mode == Socket ==> change == Untouched)
      && (mode != Socket ==> change == Written(o.fetch.value.nar.value.data))
    else
      after == before && !change.Written? && (change.Deleted? <==> o.ending.WrongHash?)
  }

  // The handler's own view: what it said, or how far the link got. When it panics
  // over the socket, nothing of this request has reached the link.
  ghost predicate Answers(reply: ReplyWriter, link: Link, b: Base, o: Outcome)
    reads reply, link
  {
    if o.ending.Broken? then BrokeOff(link, b, o.ops)
    else if o.ending.Aborted? && reply.mode == Socket then link.wire == b.wire
    else Emitted(reply, link, b, o.ops)
  }

  method FetchAndAnswer(h: Hasher, q: Request, info: Narinfo, expected: Bytes, reply: ReplyWriter, link: Link, store: LocalNars.NarStore, ghost b: Base)
    returns (change: FileChange, announced: bool, panicked: bool, ghost o: Outcome)
    requires Known(q) == Some(info) && NixBase32.Sha256Spec(info.narHash) == NixBase32.Decoded(expected)
    requires store.e.blockSize > 0 && Emitted(reply, link, b, AsTraces([])) && link.wire == b.wire
    modifies reply, link, store
    ensures o == Concluded(h, reply.mode, b.capacity, q, info, expected, Fetched(q, info))
    ensures panicked <==> o.ending.Aborted?
    ensures Answers(reply, link, b, o)
    ensures LeftBehind(reply.mode, store.e, old(store.View()), store.View(), q, o, change)
  {
    ghost var f, ending := Fetched(q, info), Refused;
    change, announced, panicked, ending := FetchAndSettle(h, q, info, expected, reply, link, store, b);
    o := Concluded(h, reply.mode, b.capacity, q, info, expected, f);
  }

  lemma NothingSaid(reply: ReplyWriter, link: Link, b: Base)
    requires reply.buf == "" && b == Base(link.capacity, link.wire, reply.fd4, reply.out)
    ensures AsTraces([]) == [] && Emitted(reply, link, b, [])
  {
  }

  method Refuse(reply: ReplyWriter, link: Link, ghost b: Base) returns (ghost o: Outcome)
    requires Emitted(reply, link, b, [])
    modifies reply
    ensures o == Outcome([Line("not-found")], Refused, None) && Emitted(reply, link, b, o.ops)
  {
    o := Outcome([Line("not-found")], Refused, None);
    assert [] + [Line("not-found")] == o.ops;
    SayLine(reply, link, b, [], "not-found");
  }

  method TrySwarmSubstitute(h: Hasher, q: Request, reply: ReplyWriter, link: Link, store: LocalNars.NarStore)
    returns (change: FileChange, announced: bool, panicked: bool, ghost o: Outcome)
    requires reply.buf == "" && store.e.blockSize > 0
    modifies reply, link, store
    ensures o == Answered(h, reply.mode, old(link.capacity), q)
    ensures panicked <==> o.ending.Aborted?
    ensures Answers(reply, link, Base(old(link.capacity), old(link.wire), old(reply.fd4), old(reply.out)), o)
    ensures LeftBehind(reply.mode, store.e, old(store.View()), store.View(), q, o, change)
  {
    ghost var b := Base(link.capacity, link.wire, reply.fd4, reply.out);
    change, announced, panicked := Untouched, false, false;
    NothingSaid(reply, link, b);
    var info := LookUp(q);
    if info.None? {
      o := Refuse(reply, link, b);
      return;
    }
    var decoded := NixBase32.Sha256Bytes(info.value.narHash);
    if decoded.Panic? {
      panicked, o := true, Outcome([], Aborted, None);
      return;
    }
    if decoded.Rejected? {
      o := Refuse(reply, link, b);
      return;
    }
    change, announced, panicked, o := FetchAndAnswer(h, q, info.value, decoded.value, reply, link, store, b);
  }

  // One request over the socket: a fresh reply, the handler, and a last flush,
  // which a panic does not get to.
  method ServeSubstitute(h: Hasher, q: Request, link: Link, store: LocalNars.NarStore) returns (panicked: bool, ghost o: Outcome)
    requires q.hasWriter && store.e.blockSize > 0
    modifies link, store
    ensures o == Answered(h, Socket, old(link.capacity), q) && (panicked <==> o.ending.Aborted?)
    ensures link.wire == old(link.wire) + Cut(SocketTexts(o.ops), old(link.capacity))
  {
    ghost var b := Base(link.capacity, link.wire, "", "");
    var reply := new ReplyWriter(Socket);
    var change, announced;
    change, announced, panicked, o := TrySwarmSubstitute(h, q, reply, link, store);
    if panicked {
      assert o.ops == [];
      return;
    }
    if reply.buf != "" {
      ghost var wire, sent, buf := link.wire, Sent(link, b), reply.buf;
      CutAppend(sent, buf, b.capacity);
      SentGrows(b.wire, wire, Cut(buf, link.capacity));
      var ok := link.Write(reply.buf);
      assert Cut(sent, b.capacity) == sent;
    }
    assert link.wire == b.wire + Sent(link, b);
  }

  // ---- What every request is answered with ----

  function Replies(ops: seq<Op>): seq<string> {
    if ops == [] then []
    else Replies(ops[..|ops| - 1]) + (if ops[|ops| - 1].Line? then [ops[|ops| - 1].line] else [])
  }

  lemma {:induction false} RepliesAfterTraces(traces: seq<string>, ops: seq<Op>)
    ensures Replies(AsTraces(traces) + ops) == Replies(ops)
    decreases |ops|, |traces|
  {
    var all := AsTraces(traces) + ops;
    if ops != [] {
      assert all[..|all| - 1] == AsTraces(traces) + ops[..|ops| - 1];
      RepliesAfterTraces(traces, ops[..|ops| - 1]);
    } else if traces != [] {
      assert all[..|all| - 1] == AsTraces(traces[..|traces| - 1]) + [];
      RepliesAfterTraces(traces[..|traces| - 1], []);
    }
  }

  // The one reply each ending has, if it has one.
  ghost predicate RepliesFit(o: Outcome, q: Request, h: Hasher) {
    match o.ending
    case Aborted => Replies(o.ops) == []
    case Broken => Replies(o.ops) == []
    case Refused => Replies(o.ops) == ["not-found"]
    case Unwritable => Replies(o.ops) == ["not-found"]
    case WrongHash(actual) =>
      && Known(q).Some? && NixBase32.Sha256Spec(Known(q).value.narHash).Decoded?
      && actual != NixBase32.Sha256Spec(Known(q).value.narHash).value
      && Replies(o.ops) == [MismatchLine(NixBase32.Sha256Spec(Known(q).value.narHash).value, actual)]
    case Delivered =>
      && o.fetch.Some? && o.fetch.value.nar.Some?
      && Known(q).Some?
      && NixBase32.Sha256Spec(Known(q).value.narHash) == NixBase32.Decoded(h(o.fetch.value.nar.value.data))
      && Replies(o.ops) == [SuccessLine(h(o.fetch.value.nar.value.data), |o.fetch.value.nar.value.data|)]
  }

  lemma RepliesOfTwo(a: Op, b: Op)
    requires !a.Line? && b.Line?
    ensures Replies([b]) == [b.line] && Replies([a, b]) == [b.line] && Replies([a]) == []
  {
    assert [a, b][..1] == [a] && [a][..0] == [] && [b][..0] == [];
  }

  lemma RepliesOfDelivery(mode: Mode, info: Narinfo, expected: Bytes, d: Download)
    ensures Replies(Parcel(mode, d.data) + Success(info, expected, d)) == [SuccessLine(expected, |d.data|)]
  {
    var two := Success(info, expected, d);
    RepliesOfTwo(two[0], two[1]);
    if mode == Socket {
      var three := [Nar(d.data)] + two;
      assert three[..2] == [Nar(d.data), two[0]] && [Nar(d.data), two[0]][..1] == [Nar(d.data)];
      RepliesOfTwo(Nar(d.data), two[1]);
    } else {
      assert [] + two == two;
    }
  }

  // Whatever happens, at most one reply is given. None is given exactly when the
  // narinfo's hash panicked or the connection broke under the nar; success is
  // claimed only for bytes with the narinfo's hash.
  lemma AtMostOneReply(h: Hasher, mode: Mode, capacity: nat, q: Request)
    ensures RepliesFit(Answered(h, mode, capacity, q), q, h)
    ensures forall line :: line in Replies(Answered(h, mode, capacity, q).ops) ==> IsTerminal(line + "\n")
  {
    RepliesOfTwo(End, Line("not-found"));
    EndsInText("not-found");
    if Known(q).Some? && NixBase32.Sha256Spec(Known(q).value.narHash).Decoded? {
      var expected := NixBase32.Sha256Spec(Known(q).value.narHash).value;
      OneReply(h, mode, capacity, q, Known(q).value, expected, Fetched(q, Known(q).value));
    }
  }

  lemma OneReply(h: Hasher, mode: Mode, capacity: nat, q: Request, info: Narinfo, expected: Bytes, f: Fetch)
    requires Known(q) == Some(info) && NixBase32.Sha256Spec(info.narHash) == NixBase32.Decoded(expected)
    ensures RepliesFit(Concluded(h, mode, capacity, q, info, expected, f), q, h)
    ensures forall line :: line in Replies(Concluded(h, mode, capacity, q, info, expected, f).ops) ==> IsTerminal(line + "\n")
  {
    if f.panicked {
      RepliesAfterTraces(f.traces, []);
      assert AsTraces(f.traces) + [] == AsTraces(f.traces);
    } else {
      SettledReply(h, mode, capacity, q, info, expected, f);
    }
  }

  lemma SettledReply(h: Hasher, mode: Mode, capacity: nat, q: Request, info: Narinfo, expected: Bytes, f: Fetch)
    requires Known(q) == Some(info) && NixBase32.Sha256Spec(info.narHash) == NixBase32.Decoded(expected)
    ensures RepliesFit(Settled(h, mode, capacity, q, info, expected, f), q, h)
    ensures forall line :: line in Replies(Settled(h, mode, capacity, q, info, expected, f).ops) ==> IsTerminal(line + "\n")
  {
    var ending := EndingOf(h, mode, capacity, q, expected, f);
    EndsInText("not-found");
    RepliesAfterTraces(f.traces, Closing(mode, info, expected, f, ending));
    RepliesOfClosing(h, mode, info, expected, f, ending);
  }

  lemma RepliesOfClosing(h: Hasher, mode: Mode, info: Narinfo, expected: Bytes, f: Fetch, ending: Ending)
    requires ending.Broken? || ending.Delivered? ==> f.nar.Some?
    requires ending.Delivered? ==> h(f.nar.value.data) == expected
    ensures Replies(Closing(mode, info, expected, f, ending)) ==
            if ending.Aborted? || ending.Broken? then []
            else if ending.WrongHash? then [MismatchLine(expected, ending.actual)]
            else if ending.Delivered? then [SuccessLine(expected, |f.nar.value.data|)]
            else ["not-found"]
    ensures ending.WrongHash? ==> IsTerminal(MismatchLine(expected, ending.actual) + "\n")
    ensures ending.Delivered? ==> IsTerminal(SuccessLine(expected, |f.nar.value.data|) + "\n")
  {
    match ending {
      case WrongHash(actual) =>
        RepliesOfTwo(End, Line(MismatchLine(expected, actual)));
        MismatchIsTerminal(expected, actual);
      case Delivered =>
        RepliesOfDelivery(mode, info, expected, f.nar.value);
        SuccessIsTerminal(h(f.nar.value.data), |f.nar.value.data|);
      case Broken => RepliesOfTwo(Nar(f.nar.value.data), Line(""));
      case _ => RepliesOfTwo(End, Line("not-found"));
    }
  }

  lemma EndsInText(line: string)
    requires line != "" && !IsWhitespace(line[0]) && !IsWhitespace(line[|line| - 1])
    ensures Trim(line + "\n") == line
  {
    assert TrimStart(line + "\n") == line + "\n";
    assert (line + "\n")[..|line|] == line;
    assert TrimEnd(line + "\n") == TrimEnd(line) == line;
  }

  lemma {:induction false} HexEndsInText(b: Bytes)
    requires b != []
    ensures !IsWhitespace(Hex(b)[|Hex(b)| - 1])
  {
    var last := HexDigit(b[0] as nat % 16);
    if |b| == 1 {
      assert Hex(b[1..]) == "";
      assert !IsWhitespace(last);
    } else {
      HexEndsInText(b[1..]);
    }
  }

  lemma SuccessIsTerminal(digest: Bytes, size: nat)
    ensures IsTerminal(SuccessLine(digest, size) + "\n")
  {
    var line, number := SuccessLine(digest, size), Decimal(size);
    var last := "0123456789"[size % 10];
    assert number[|number| - 1] == last && !IsWhitespace(last);
    assert line[|line| - 1] == last;
    EndsInText(line);
    assert "success " <= line;
  }

  lemma MismatchIsTerminal(expected: Bytes, actual: Digest)
    ensures IsTerminal(MismatchLine(expected, actual) + "\n")
  {
    var line := MismatchLine(expected, actual);
    HexEndsInText(actual);
    assert line[|line| - 1] == Hex(actual)[|Hex(actual)| - 1];
    EndsInText(line);
    assert "hash-mismatch " <= line;
  }
}
