// What a substitute request leads to at the far end: the bytes the relay puts at
// the destination and the replies it forwards, whether or not the connection
// lasts; and what the request leaves in the local store.

module SubstituteSession {
  import opened Common
  import opened Relay
  import opened Substitute
  import Ledger
  import DownloadLoop
  import HttpFallback
  import NixBase32
  import Invariants
  import LocalNars = NarStore

  // ---- Policy, seeding, mismatches ----

  // The nar download that is not needed has no effect: the HTTP one under the
  // p2p-only policy, and otherwise the second way when the first brings the nar or
  // panics. (The narinfo itself always comes over HTTP or from the cache.)
  predicate HttpUnneeded(q: Request) {
    q.policy == P2pOnly || (q.policy == P2pFirst && (q.p2p.nar.Some? || q.p2p.panicked))
  }

  predicate P2pUnneeded(q: Request) {
    q.policy == HttpFirst && q.http.nar.Some?
  }

  lemma UnusedWayIsIgnored(h: Hasher, mode: Mode, capacity: nat, q: Request, p2p: P2pAnswer, http: HttpAnswer, httpUrl: string)
    ensures HttpUnneeded(q) ==> Answered(h, mode, capacity, q) == Answered(h, mode, capacity, q.(http := http, httpUrl := httpUrl))
    ensures P2pUnneeded(q) ==> Answered(h, mode, capacity, q) == Answered(h, mode, capacity, q.(p2p := p2p))
  {
    if Known(q).Some? {
      if HttpUnneeded(q) {
        SameFetch(h, mode, capacity, q, q.(http := http, httpUrl := httpUrl), Known(q).value);
      }
      if P2pUnneeded(q) {
        SameFetch(h, mode, capacity, q, q.(p2p := p2p), Known(q).value);
      }
    }
  }

  lemma SameFetch(h: Hasher, mode: Mode, capacity: nat, q: Request, q': Request, info: Narinfo)
    requires q.hashPart.Some?
    requires (HttpUnneeded(q) && q' == q.(http := q'.http, httpUrl := q'.httpUrl)) || (P2pUnneeded(q) && q' == q.(p2p := q'.p2p))
    ensures Fetched(q, info) == Fetched(q', info)
    ensures forall expected, f :: Concluded(h, mode, capacity, q, info, expected, f) == Concluded(h, mode, capacity, q', info, expected, f)
  {
    assert P2pUrl(q) == P2pUrl(q') && FallbackUrl(q) == FallbackUrl(q');
    if HttpUnneeded(q) {
      assert FromP2p(q, info) == FromP2p(q', info);
    } else {
      assert FromHttp(q, info) == FromHttp(q', info);
    }
    forall expected, f
      ensures Concluded(h, mode, capacity, q, info, expected, f) == Concluded(h, mode, capacity, q', info, expected, f)
    {
      assert EndingOf(h, mode, capacity, q, expected, f) == EndingOf(h, mode, capacity, q', expected, f);
    }
  }

  // Once the narinfo is known and its hash readable, the reply is not-found exactly
  // when every way the policy allows found nothing.
  lemma RefusedIff(h: Hasher, mode: Mode, capacity: nat, q: Request)
    requires Known(q).Some? && NixBase32.Sha256Spec(Known(q).value.narHash).Decoded?
    ensures Answered(h, mode, capacity, q).ending.Refused? <==>
            && !(q.p2p.panicked && (q.policy == HttpFirst ==> q.http.nar.None?))
            && q.p2p.nar.None? && (q.policy == P2pOnly || q.http.nar.None?)
  {
    EndingIs(h, mode, capacity, q, Known(q).value, NixBase32.Sha256Spec(Known(q).value.narHash).value, Fetched(q, Known(q).value));
    FetchedNothing(q, Known(q).value);
  }

  lemma FetchedNothing(q: Request, info: Narinfo)
    requires q.hashPart.Some?
    ensures !Fetched(q, info).panicked && Fetched(q, info).nar.None? <==>
            && !(q.p2p.panicked && (q.policy == HttpFirst ==> q.http.nar.None?))
            && q.p2p.nar.None? && (q.policy == P2pOnly || q.http.nar.None?)
  {
  }

  lemma EndingIs(h: Hasher, mode: Mode, capacity: nat, q: Request, info: Narinfo, expected: Bytes, f: Fetch)
    ensures Concluded(h, mode, capacity, q, info, expected, f).ending.Refused? <==> !f.panicked && f.nar.None?
    ensures Concluded(h, mode, capacity, q, info, expected, f).ending.WrongHash? <==>
            !f.panicked && f.nar.Some? && h(f.nar.value.data) != expected
  {
  }

  // What the HTTP download resolved to.
  datatype HttpRun = HttpRun(unpack: HttpFallback.Decompressor, targets: seq<HttpFallback.Target>, net: nat -> HttpFallback.Answer,
                             r: Result<HttpFallback.HttpNarDownload, HttpFallback.HttpError>)

  ghost predicate HttpResolved(h: Hasher, expected: Bytes, x: HttpRun) {
    HttpFallback.Resolves(HttpFallback.Tries(h, x.unpack, NixBase32.Decoded(expected), x.targets, x.net), x.targets, x.r)
  }

  // The nar a request got from the swarm is one the downloader returned for this
  // hash, and the one from HTTP is what the HTTP download resolved to.
  ghost predicate Sourced(q: Request, info: Narinfo, expected: Bytes, end: Invariants.State, c: Invariants.Setup, text: string, x: HttpRun) {
    && (q.p2p.nar.Some? ==> DownloadLoop.Outcome(c, Hex(expected), info.narSize, end, Ok((q.p2p.nar.value, text))))
    && HttpResolved(c.h, expected, x)
    && q.http.nar == if x.r.Ok? then Some((x.r.value.data, x.r.value.sourceUrl)) else None
  }

  // So a mismatch is reported exactly when the nar in hand came over HTTP and the
  // HTTP download could not verify it.
  lemma MismatchIff(mode: Mode, capacity: nat, q: Request, info: Narinfo, expected: Bytes, end: Invariants.State, c: Invariants.Setup, text: string, x: HttpRun)
    requires Known(q) == Some(info) && NixBase32.Sha256Spec(info.narHash) == NixBase32.Decoded(expected)
    requires Sourced(q, info, expected, end, c, text, x)
    ensures var f := Fetched(q, info);
            Answered(c.h, mode, capacity, q).ending.WrongHash? <==>
              !f.panicked && f.nar.Some? && f.nar.value.source == Http && !HttpVerified(x.r)
  {
    AnsweredIs(c.h, mode, capacity, q, info, expected);
    SourcedMeans(q, info, expected, end, c, text, x);
    MismatchWhen(c.h, mode, capacity, q, info, expected, x.r);
  }

  predicate HttpVerified(r: Result<HttpFallback.HttpNarDownload, HttpFallback.HttpError>) {
    r.Ok? && r.value.verified
  }

  // A swarm nar has the hash, an HTTP nar exactly when its flag says so.
  predicate Trusted(h: Hasher, q: Request, expected: Bytes, r: Result<HttpFallback.HttpNarDownload, HttpFallback.HttpError>) {
    && (q.p2p.nar.Some? ==> h(q.p2p.nar.value) == expected)
    && q.http.nar == (if r.Ok? then Some((r.value.data, r.value.sourceUrl)) else None)
    && (r.Ok? ==> (r.value.verified <==> h(r.value.data) == expected))
  }

  lemma SourcedMeans(q: Request, info: Narinfo, expected: Bytes, end: Invariants.State, c: Invariants.Setup, text: string, x: HttpRun)
    requires NixBase32.Sha256Spec(info.narHash) == NixBase32.Decoded(expected) && Sourced(q, info, expected, end, c, text, x)
    ensures Trusted(c.h, q, expected, x.r)
  {
    NixBase32.AcceptedIsDigest(info.narHash);
    if q.p2p.nar.Some? {
      SwarmMatches(c.h, expected, info.narSize, end, c, q.p2p.nar.value, text);
    }
    HttpFallback.VerifiedIff(c.h, x.unpack, NixBase32.Decoded(expected), x.targets, x.net, x.r);
  }

  lemma AnsweredIs(h: Hasher, mode: Mode, capacity: nat, q: Request, info: Narinfo, expected: Bytes)
    requires Known(q) == Some(info) && NixBase32.Sha256Spec(info.narHash) == NixBase32.Decoded(expected)
    ensures Answered(h, mode, capacity, q) == Concluded(h, mode, capacity, q, info, expected, Fetched(q, info))
  {
  }

  lemma MismatchWhen(h: Hasher, mode: Mode, capacity: nat, q: Request, info: Narinfo, expected: Bytes, r: Result<HttpFallback.HttpNarDownload, HttpFallback.HttpError>)
    requires q.hashPart.Some? && Trusted(h, q, expected, r)
    ensures var f := Fetched(q, info);
            Concluded(h, mode, capacity, q, info, expected, f).ending.WrongHash? <==>
              !f.panicked && f.nar.Some? && f.nar.value.source == Http && !HttpVerified(r)
  {
    FromEither(q, info);
    EndingIs(h, mode, capacity, q, info, expected, Fetched(q, info));
  }

  lemma SwarmMatches(h: Hasher, expected: Bytes, narSize: nat, end: Invariants.State, c: Invariants.Setup, data: Bytes, text: string)
    requires |expected| == 32 && c.h == h && DownloadLoop.Outcome(c, Hex(expected), narSize, end, Ok((data, text)))
    ensures h(data) == expected
  {
    DownloadLoop.ReturnedIsVerified(c, Hex(expected), narSize, end, data, text);
    MatchingHex(h, expected, data);
  }

  lemma FromEither(q: Request, info: Narinfo)
    requires q.hashPart.Some?
    ensures var nar := Fetched(q, info).nar;
            && (nar.Some? && nar.value.source == P2p ==> q.p2p.nar == Some(nar.value.data))
            && (nar.Some? && nar.value.source == Http ==> q.http.nar == Some((nar.value.data, nar.value.traceUrl)))
  {
  }

  lemma MatchingHex(h: Hasher, expected: Bytes, data: Bytes)
    requires |expected| == 32 && Ledger.NarHashMatches(h, Hex(expected), data)
    ensures h(data) == expected
  {
    assert |Hex(expected)| == 64 && |"sha256:" + Hex(h(data))| == 71;
    HexInjective(expected, h(data));
  }

  // Seeding keeps the store's index what a rescan would build, adds at most the
  // nar that was delivered, and only if its source may be seeded.
  lemma SeedingIsSound(e: LocalNars.Env, before: LocalNars.Store, after: LocalNars.Store, mode: Mode, capacity: nat, q: Request, change: FileChange)
    requires e.blockSize > 0 && LocalNars.Synced(e, before)
    requires LeftBehind(mode, e, before, after, q, Answered(e.h, mode, capacity, q), change)
    ensures LocalNars.Synced(e, after)
    ensures after != before ==>
              var o := Answered(e.h, mode, capacity, q);
              o.ending.Delivered? &&
              var d := o.fetch.value.nar.value;
              && (if d.source == P2p then q.seedP2p else q.seedHttp)
              && after.nars == before.nars[Hex(e.h(d.data)) := d.data]
              && after.index.Keys == before.index.Keys + {Hex(e.h(d.data))}
  {
    var o := Answered(e.h, mode, capacity, q);
    AtMostOneReply(e.h, mode, capacity, q);
    if o.ending.Delivered? {
      var d := o.fetch.value.nar.value;
      LocalNars.SaveKeepsSyncIff(e, before, Hex(e.h(d.data)), d.data, Some(Known(q).value.storePath), LocalNars.Downloaded, q.now);
    }
  }

  // ---- Streams that are cut short ----

  predicate NoneStarts(p: string, lines: seq<string>) {
    forall k :: 0 <= k < |lines| ==> !(p <= lines[k])
  }

  // The first line of a beginning of a text is that of the text, or all there is.
  lemma {:induction false} FirstLineOfPrefix(p: string, t: string)
    requires p <= t
    ensures LineLength(p) <= LineLength(t)
    ensures LineLength(p) == LineLength(t) || LineLength(p) == |p|
  {
    if p != "" && p[0] != '\n' {
      FirstLineOfPrefix(p[1..], t[1..]);
    }
  }

  lemma {:induction false} NoneStartsInPrefix(p: string, cut: string, t: string)
    requires cut <= t && NoneStarts(p, Lines(t))
    ensures NoneStarts(p, Lines(cut))
    decreases |cut|
  {
    if cut != "" {
      FirstLineOfPrefix(cut, t);
      var n, m := LineLength(cut), LineLength(t);
      assert Lines(t)[0] == t[..m] && Lines(cut)[0] == cut[..n];
      assert cut[..n] <= t[..m];
      assert Lines(t)[1..] == Lines(t[m..]) && Lines(cut)[1..] == Lines(cut[n..]);
      assert NoneStarts(p, Lines(t[m..]));
      if n == m {
        NoneStartsInPrefix(p, cut[n..], t[m..]);
      } else {
        assert cut[n..] == "";
      }
    }
  }

  // No reply line, no terminal reply; no nar line, no file.
  lemma {:induction false} NoReplyNoTerminal(st: RelayState, lines: seq<string>)
    requires NoneStarts("fd4:", lines)
    ensures HandleLines(st, lines).sawTerminal == st.sawTerminal
    decreases |lines|
  {
    if lines != [] {
      assert !("fd4:" <= lines[0]);
      NoReplyNoTerminal(HandleLine(st, lines[0]), lines[1..]);
    }
  }

  lemma {:induction false} NoNarNoFile(st: RelayState, lines: seq<string>)
    requires NoneStarts("nar:", lines) && st.current.None?
    ensures HandleLines(st, lines).files == st.files && HandleLines(st, lines).current.None?
    decreases |lines|
  {
    if lines != [] {
      assert !("nar:" <= lines[0]);
      NoNarNoFile(HandleLine(st, lines[0]), lines[1..]);
    }
  }

  lemma OneMoreLine(p: string, body: string, rest: string)
    requires NewlineFree(body) && !(p <= body + "\n") && NoneStarts(p, Lines(rest))
    ensures NoneStarts(p, Lines(body + "\n" + rest))
  {
    FirstLine(body, rest);
  }

  lemma DifferentStart(p: string, s: string)
    requires |p| > 0 && (s == "" || p[0] != s[0])
    ensures !(p <= s)
  {
  }

  lemma {:induction false} NarLinesStart(chunks: seq<Bytes>, rest: string)
    requires NoneStarts("fd4:", Lines(rest))
    ensures NoneStarts("fd4:", Lines(NarLines(chunks) + rest))
  {
    if chunks == [] {
      assert NarLines(chunks) + rest == rest;
    } else {
      NarLinesStart(chunks[1..], rest);
      NarLinesSplit(chunks, rest);
      TextHasNoSpace(chunks[0]);
      var body := "nar:" + Base64.Encode(chunks[0]);
      DifferentStart("fd4:", body + "\n");
      OneMoreLine("fd4:", body, NarLines(chunks[1..]) + rest);
    }
  }

  lemma NarTextStart(data: Bytes)
    ensures NoneStarts("fd4:", Lines(NarText(data)))
  {
    DifferentStart("fd4:", "nar-end\n");
    OneMoreLine("fd4:", "nar-end", "");
    assert "nar-end" + "\n" + "" == "nar-end\n";
    NarLinesStart(Blocks.Chunks(data, NAR_CHUNK_SIZE), "nar-end\n");
  }

  // Traces start with neither prefix.
  lemma {:induction false} TracesStart(p: string, traces: seq<string>, rest: string)
    requires p == "fd4:" || p == "nar:"
    requires (forall k :: 0 <= k < |traces| ==> NewlineFree(traces[k])) && NoneStarts(p, Lines(rest))
    ensures NoneStarts(p, Lines(SocketTexts(AsTraces(traces)) + rest))
  {
    var ops := AsTraces(traces);
    if traces == [] {
      assert SocketTexts(ops) + rest == rest;
    } else {
      var front, last := traces[..|traces| - 1], Trace(traces[|traces| - 1]);
      TraceStart(p, last.trace, rest);
      TracesStart(p, front, SocketText(last) + rest);
      TextsOfTraces(traces);
      Regroup(SocketTexts(AsTraces(front)), SocketText(last), rest);
    }
  }

  lemma TextsOfTraces(traces: seq<string>)
    requires traces != []
    ensures var n := |traces| - 1;
            SocketTexts(AsTraces(traces)) == SocketTexts(AsTraces(traces[..n])) + SocketText(Trace(traces[n]))
  {
    var n := |traces| - 1;
    assert AsTraces(traces) == AsTraces(traces[..n]) + [Trace(traces[n])];
    TextsExtend(AsTraces(traces[..n]), Trace(traces[n]));
  }

  lemma TraceStart(p: string, trace: string, rest: string)
    requires (p == "fd4:" || p == "nar:") && NewlineFree(trace) && NoneStarts(p, Lines(rest))
    ensures NoneStarts(p, Lines(SocketText(Trace(trace)) + rest))
  {
    DifferentStart(p, "out:" + trace + "\n");
    OneMoreLine(p, "out:" + trace, rest);
  }

  // ---- The whole session ----

  // Texts that came from one line of a narinfo, a path or a configured URL.
  ghost predicate OneLineTexts(q: Request) {
    && (q.hashPart.Some? ==> NewlineFree(q.hashPart.value))
    && NewlineFree(q.httpUrl)
    && (Known(q).Some? ==> NewlineFree(Known(q).value.storePath))
    && (forall k :: 0 <= k < |q.http.progress| ==> NewlineFree(q.http.progress[k].url))
    && (q.http.nar.Some? ==> NewlineFree(q.http.nar.value.1))
  }

  ghost predicate AllLines(texts: seq<string>) {
    forall k :: 0 <= k < |texts| ==> NewlineFree(texts[k])
  }

  lemma TracesAreLines(q: Request)
    requires OneLineTexts(q) && Known(q).Some?
    ensures AllLines(Fetched(q, Known(q).value).traces)
    ensures var nar := Fetched(q, Known(q).value).nar; nar.Some? ==> NewlineFree(nar.value.traceUrl)
  {
    SwarmTracesAreLines(q, Known(q).value);
    HttpTracesAreLines(q, Known(q).value);
  }

  ghost predicate IsLines(f: Fetch) {
    AllLines(f.traces) && (f.nar.Some? ==> NewlineFree(f.nar.value.traceUrl))
  }

  lemma SwarmTracesAreLines(q: Request, info: Narinfo)
    requires q.hashPart.Some? && NewlineFree(q.hashPart.value) && NewlineFree(info.storePath)
    ensures IsLines(FromP2p(q, info))
  {
  }

  lemma HttpTracesAreLines(q: Request, info: Narinfo)
    requires NewlineFree(q.httpUrl) && NewlineFree(info.storePath)
    requires forall k :: 0 <= k < |q.http.progress| ==> NewlineFree(q.http.progress[k].url)
    requires q.http.nar.Some? ==> NewlineFree(q.http.nar.value.1)
    ensures IsLines(FromHttp(q, info))
  {
    assert AllLines(ProgressTraces(info, q.http.progress));
  }

  lemma {:induction false} HexIsLine(b: Bytes)
    ensures NewlineFree(Hex(b))
  {
    if b != [] {
      HexIsLine(b[1..]);
      var digits := "0123456789abcdef";
      assert forall i :: 0 <= i < 16 ==> digits[i] != '\n';
    }
  }

  // The relay's state after so many characters of what the daemon wrote.
  function After(capacity: nat, dest: string, ops: seq<Op>): RelayState {
    HandleLines(Start(RelayMode.Substitute, [dest]), Lines(Cut(SocketTexts(ops), capacity)))
  }

  lemma {:induction false} NarsOfTraces(traces: seq<string>)
    ensures Nars(AsTraces(traces)) == [] && DirectFd4s(AsTraces(traces)) == ""
    ensures !HasTerminal(AsTraces(traces))
    ensures AllLines(traces) ==> WellFormed(AsTraces(traces))
  {
    if traces != [] {
      var ops, n := AsTraces(traces), |traces| - 1;
      assert ops[..n] == AsTraces(traces[..n]) && ops[n] == Trace(traces[n]);
      NarsOfTraces(traces[..n]);
    }
    TracesAreWellFormed(traces);
  }

  lemma TracesAreWellFormed(traces: seq<string>)
    ensures AllLines(traces) ==> WellFormed(AsTraces(traces))
  {
  }

  function AfterTraces(traces: seq<string>, dest: string): RelayState {
    RelayState(RelayMode.Substitute, "", DirectOuts(AsTraces(traces)), [], None, [dest], false, Running)
  }

  function AfterNar(traces: seq<string>, data: Bytes, dest: string): RelayState {
    RelayState(RelayMode.Substitute, "", DirectOuts(AsTraces(traces)), [(dest, data)], None, [], false, Running)
  }

  // Reading all the traces, and then something more.
  lemma TracesRead(traces: seq<string>, dest: string, rest: string)
    requires AllLines(traces)
    ensures HandleLines(Start(RelayMode.Substitute, [dest]), Lines(SocketTexts(AsTraces(traces)) + rest))
         == HandleLines(AfterTraces(traces, dest), Lines(rest))
  {
    NarsOfTraces(traces);
    SocketRefinesDirect(RelayMode.Substitute, [dest], AsTraces(traces), rest);
    assert [dest][0..] == [dest];
    assert Deliveries([dest], []) == [];
  }

  // Reading the traces and the nar, and then something more.
  lemma NarRead(traces: seq<string>, data: Bytes, dest: string, rest: string)
    requires AllLines(traces)
    ensures var st := HandleLines(Start(RelayMode.Substitute, [dest]), Lines((SocketTexts(AsTraces(traces)) + NarText(data)) + rest));
            st == if data == [] then AfterTraces(traces, dest).(status := Failed) else HandleLines(AfterNar(traces, data, dest), Lines(rest))
  {
    TracesRead(traces, dest, NarText(data) + rest);
    assert SocketTexts(AsTraces(traces)) + (NarText(data) + rest) == (SocketTexts(AsTraces(traces)) + NarText(data)) + rest;
    NarArrivesIff(AfterTraces(traces, dest), data, rest);
    assert [] + [(dest, data)] == [(dest, data)] && [dest][1..] == [];
  }

  // A closing part without a nar, read after the traces, whole or cut short.
  lemma NoNarClosing(traces: seq<string>, line: string, n: nat)
    requires AllLines(traces) && NewlineFree(line)
    ensures NoneStarts("nar:", Lines(Cut(SocketTexts(AsTraces(traces) + [Line(line)]), n)))
  {
    var body := Body(Line(line));
    DifferentStart("nar:", body + "\n");
    OneMoreLine("nar:", body, "");
    assert body + "\n" + "" == body + "\n";
    TracesStart("nar:", traces, body + "\n");
    TextsExtend(AsTraces(traces), Line(line));
    NoneStartsInPrefix("nar:", Cut(SocketTexts(AsTraces(traces) + [Line(line)]), n), SocketTexts(AsTraces(traces) + [Line(line)]));
  }

  lemma WithoutNar(traces: seq<string>, line: string, n: nat, dest: string)
    requires AllLines(traces) && NewlineFree(line)
    ensures After(n, dest, AsTraces(traces) + [Line(line)]).files == []
  {
    NoNarClosing(traces, line, n);
    NoNarNoFile(Start(RelayMode.Substitute, [dest]), Lines(Cut(SocketTexts(AsTraces(traces) + [Line(line)]), n)));
  }

  lemma BrokenNar(traces: seq<string>, data: Bytes, n: nat, dest: string)
    requires AllLines(traces)
    ensures !After(n, dest, AsTraces(traces) + [Nar(data)]).sawTerminal
  {
    var text := SocketTexts(AsTraces(traces) + [Nar(data)]);
    TextsExtend(AsTraces(traces), Nar(data));
    NarTextStart(data);
    TracesStart("fd4:", traces, NarText(data));
    NoneStartsInPrefix("fd4:", Cut(text, n), text);
    NoReplyNoTerminal(Start(RelayMode.Substitute, [dest]), Lines(Cut(text, n)));
  }

  lemma ReportHasNoNar(trace: string, line: string, n: nat)
    requires NewlineFree(trace) && NewlineFree(line)
    ensures NoneStarts("nar:", Lines(Cut(SocketText(Trace(trace)) + SocketText(Line(line)), n)))
  {
    var body := Body(Line(line));
    DifferentStart("nar:", body + "\n");
    OneMoreLine("nar:", body, "");
    assert body + "\n" + "" == body + "\n";
    DifferentStart("nar:", "out:" + trace + "\n");
    OneMoreLine("nar:", "out:" + trace, body + "\n");
    var text := SocketText(Trace(trace)) + SocketText(Line(line));
    assert text == "out:" + trace + "\n" + (body + "\n");
    NoneStartsInPrefix("nar:", Cut(text, n), text);
  }

  lemma {:induction false} TextsInTurn(a: seq<Op>, b: seq<Op>)
    ensures SocketTexts(a + b) == SocketTexts(a) + SocketTexts(b)
    decreases |b|
  {
    if b == [] {
      assert a + b == a;
    } else {
      var n := |b| - 1;
      assert a + b == (a + b[..n]) + [b[n]];
      TextsExtend(a + b[..n], b[n]);
      TextsInTurn(a, b[..n]);
      Joins(SocketTexts(a), SocketTexts(b[..n]), SocketText(b[n]), SocketTexts(b));
    }
  }

  lemma TextsOfTwo(a: Op, b: Op)
    ensures SocketTexts([a]) == SocketText(a) && SocketTexts([a, b]) == SocketText(a) + SocketText(b)
  {
    assert [] + [a] == [a] && [a] + [b] == [a, b];
    TextsExtend([], a);
    TextsExtend([a], b);
  }

  lemma ThreeMore(ops: seq<Op>, a: Op, b: Op, c: Op)
    ensures SocketTexts(ops + ([a] + [b, c])) == (SocketTexts(ops) + SocketText(a)) + (SocketText(b) + SocketText(c))
  {
    SameThree(ops, a, b, c);
    TextsExtend(ops, a);
    TextsInTurn(ops + [a], [b, c]);
    TextsOfTwo(b, c);
  }

  lemma SameThree(ops: seq<Op>, a: Op, b: Op, c: Op)
    ensures ops + ([a] + [b, c]) == (ops + [a]) + [b, c]
  {
  }

  lemma DeliveredText(traces: seq<string>, data: Bytes, trace: string, line: string)
    ensures SocketTexts(AsTraces(traces) + [Nar(data)]) == SocketTexts(AsTraces(traces)) + NarText(data)
    ensures SocketTexts(AsTraces(traces) + ([Nar(data)] + [Trace(trace), Line(line)]))
         == (SocketTexts(AsTraces(traces)) + NarText(data)) + (SocketText(Trace(trace)) + SocketText(Line(line)))
  {
    TextsExtend(AsTraces(traces), Nar(data));
    ThreeMore(AsTraces(traces), Nar(data), Trace(trace), Line(line));
  }

  lemma CutAfter(head: string, tail: string, n: nat)
    requires |head| <= n
    ensures Cut(head + tail, n) == head + Cut(tail, n - |head|)
  {
  }

  // A nar that got through, and a report that may be cut short.
  lemma DeliveredNar(traces: seq<string>, data: Bytes, trace: string, line: string, n: nat, dest: string)
    requires AllLines(traces) && NewlineFree(trace) && NewlineFree(line)
    requires |SocketTexts(AsTraces(traces) + [Nar(data)])| <= n
    ensures var st := After(n, dest, AsTraces(traces) + ([Nar(data)] + [Trace(trace), Line(line)]));
            if data == [] then !st.sawTerminal && st.status == Failed else st.files == [(dest, data)]
  {
    var head, tail := SocketTexts(AsTraces(traces)) + NarText(data), SocketText(Trace(trace)) + SocketText(Line(line));
    DeliveredText(traces, data, trace, line);
    CutAfter(head, tail, n);
    NarRead(traces, data, dest, Cut(tail, n - |head|));
    if data != [] {
      ReportHasNoNar(trace, line, n - |head|);
      NoNarNoFile(AfterNar(traces, data, dest), Lines(Cut(tail, n - |head|)));
    }
  }

  lemma RepliesAreLines(expected: Bytes, actual: Digest, size: nat)
    ensures NewlineFree(MismatchLine(expected, actual)) && NewlineFree(SuccessLine(expected, size)) && NewlineFree("not-found")
  {
    HexIsLine(expected);
    HexIsLine(actual);
  }

  // What the relay has after a request whose narinfo was found.
  lemma CutKnown(h: Hasher, capacity: nat, q: Request, info: Narinfo, expected: Bytes, f: Fetch, dest: string)
    requires q.hasWriter && AllLines(f.traces) && NewlineFree(info.storePath) && (f.nar.Some? ==> NewlineFree(f.nar.value.traceUrl))
    ensures var ending := EndingOf(h, Socket, capacity, q, expected, f);
            var st := After(capacity, dest, AsTraces(f.traces) + Closing(Socket, info, expected, f, ending));
            && (ending.Broken? ==> !st.sawTerminal)
            && (ending.Delivered? && st.sawTerminal ==> st.files == [(dest, f.nar.value.data)])
            && (!ending.Delivered? && !ending.Broken? ==> st.files == [])
  {
    var ending := EndingOf(h, Socket, capacity, q, expected, f);
    match ending {
      case WrongHash(actual) =>
        RepliesAreLines(expected, actual, 0);
        WithoutNar(f.traces, MismatchLine(expected, actual), capacity, dest);
      case Refused =>
        RepliesAreLines(expected, h([]), 0);
        WithoutNar(f.traces, "not-found", capacity, dest);
      case Broken => BrokenNar(f.traces, f.nar.value.data, capacity, dest);
      case Delivered =>
        var d := f.nar.value;
        RepliesAreLines(expected, h(d.data), |d.data|);
        DeliveredNar(f.traces, d.data, TraceSucceeded(info.storePath, d.traceUrl, |d.data|), SuccessLine(expected, |d.data|), capacity, dest);
      case _ =>
    }
  }

  // Wherever the connection breaks, a relay that has seen a terminal reply has
  // written the verified nar to its destination if the nar was delivered, and
  // nothing at all otherwise; and it has seen none if the nar did not get through.
  lemma CutShortIsSafe(h: Hasher, capacity: nat, q: Request, dest: string)
    requires q.hasWriter && OneLineTexts(q)
    ensures var o := Answered(h, Socket, capacity, q); var st := After(capacity, dest, o.ops);
            st.sawTerminal ==>
              && !o.ending.Broken? && !o.ending.Aborted?
              && (if o.ending.Delivered? then
                    o.fetch.Some? && o.fetch.value.nar.Some? && st.files == [(dest, o.fetch.value.nar.value.data)]
                  else st.files == [])
  {
    var o := Answered(h, Socket, capacity, q);
    if o.fetch.None? {
      CutWithoutFetch(h, capacity, dest);
    } else {
      TracesAreLines(q);
      CutSettled(h, capacity, q, Known(q).value, NixBase32.Sha256Spec(Known(q).value.narHash).value, o.fetch.value, dest);
    }
  }

  lemma CutWithoutFetch(h: Hasher, capacity: nat, dest: string)
    ensures After(capacity, dest, [Line("not-found")]).files == []
    ensures !After(capacity, dest, []).sawTerminal
  {
    RepliesAreLines([], h([]), 0);
    WithoutNar([], "not-found", capacity, dest);
    assert AsTraces([]) + [Line("not-found")] == [Line("not-found")];
    assert Lines(Cut("", capacity)) == [];
  }

  lemma CutSettled(h: Hasher, capacity: nat, q: Request, info: Narinfo, expected: Bytes, f: Fetch, dest: string)
    requires q.hasWriter && AllLines(f.traces) && NewlineFree(info.storePath) && (f.nar.Some? ==> NewlineFree(f.nar.value.traceUrl))
    ensures var o := Settled(h, Socket, capacity, q, info, expected, f); var st := After(capacity, dest, o.ops);
            st.sawTerminal ==>
              && !o.ending.Broken? && !o.ending.Aborted?
              && (if o.ending.Delivered? then f.nar.Some? && st.files == [(dest, f.nar.value.data)] else st.files == [])
  {
    CutKnown(h, capacity, q, info, expected, f, dest);
  }

  // ---- A connection that lasts ----

  function JoinedLines(lines: seq<string>): string {
    if lines == [] then "" else JoinedLines(lines[..|lines| - 1]) + (lines[|lines| - 1] + "\n")
  }

  // Without end markers, fd 4 gets the replies and nothing else.
  lemma {:induction false} Fd4IsReplies(ops: seq<Op>)
    requires EndFree(ops)
    ensures DirectFd4s(ops) == JoinedLines(Replies(ops))
  {
    if ops != [] {
      var front, last := ops[..|ops| - 1], ops[|ops| - 1];
      Fd4IsReplies(front);
      if last.Line? {
        var r := Replies(front) + [last.line];
        assert r[..|r| - 1] == Replies(front);
      } else {
        assert Replies(front) + [] == Replies(front) && DirectFd4s(front) + "" == DirectFd4s(front);
      }
    }
  }

  lemma {:induction false} ReplyIsTerminal(ops: seq<Op>, line: string)
    requires line in Replies(ops) && IsTerminal(line + "\n")
    ensures HasTerminal(ops)
  {
    if ops != [] {
      var n := |ops| - 1;
      if ops[n] == Line(line) {
        assert HasTerminal(ops);
      } else {
        ReplyIsTerminal(ops[..n], line);
        assert forall k :: 0 <= k < n ==> ops[..n][k] == ops[k];
      }
    }
  }

  lemma {:induction false} NarsAfterTraces(traces: seq<string>, ops: seq<Op>)
    ensures Nars(AsTraces(traces) + ops) == Nars(ops)
    decreases |ops|
  {
    var all := AsTraces(traces) + ops;
    if ops == [] {
      NarsOfTraces(traces);
      assert all == AsTraces(traces);
    } else {
      assert all[..|all| - 1] == AsTraces(traces) + ops[..|ops| - 1];
      NarsAfterTraces(traces, ops[..|ops| - 1]);
    }
  }

  lemma NarsOfParcel(data: Bytes, a: Op, b: Op)
    requires !a.Nar? && !b.Nar?
    ensures Nars([Nar(data)] + [a, b]) == [data] && Nars([Nar(data)]) == [data] && Nars([b]) == []
  {
    var one, two, three := [Nar(data)], [Nar(data), a], [Nar(data)] + [a, b];
    assert three[..2] == two && two[..1] == one && one[..0] == [] && [b][..0] == [];
    assert Nars(one) == [] + [data] == [data];
    assert Nars(two) == Nars(one) + [] == [data];
  }

  lemma NarsOfClosing(h: Hasher, capacity: nat, q: Request, info: Narinfo, expected: Bytes, f: Fetch)
    ensures var ending := EndingOf(h, Socket, capacity, q, expected, f);
            Nars(AsTraces(f.traces) + Closing(Socket, info, expected, f, ending))
            == if ending.Delivered? || ending.Broken? then [f.nar.value.data] else []
  {
    var ending := EndingOf(h, Socket, capacity, q, expected, f);
    NarsAfterTraces(f.traces, Closing(Socket, info, expected, f, ending));
    NarsOfEnding(info, expected, f, ending);
  }

  lemma NarsOfEnding(info: Narinfo, expected: Bytes, f: Fetch, ending: Ending)
    requires ending.Broken? || ending.Delivered? ==> f.nar.Some?
    ensures Nars(Closing(Socket, info, expected, f, ending)) == if ending.Delivered? || ending.Broken? then [f.nar.value.data] else []
  {
    if ending.Delivered? || ending.Broken? {
      var report := Success(info, expected, f.nar.value);
      NarsOfParcel(f.nar.value.data, report[0], report[1]);
    } else if !ending.Aborted? {
      NarsOfParcel([], Trace(""), Closing(Socket, info, expected, f, ending)[0]);
    }
  }

  lemma KnownIsWellFormed(h: Hasher, capacity: nat, q: Request, info: Narinfo, expected: Bytes, f: Fetch)
    requires AllLines(f.traces) && NewlineFree(info.storePath) && (f.nar.Some? ==> NewlineFree(f.nar.value.traceUrl))
    requires var ending := EndingOf(h, Socket, capacity, q, expected, f);
             !ending.Broken? && (ending.Delivered? ==> f.nar.value.data != [])
    ensures var ops := AsTraces(f.traces) + Closing(Socket, info, expected, f, EndingOf(h, Socket, capacity, q, expected, f));
            WellFormed(ops) && EndFree(ops)
  {
    var ending := EndingOf(h, Socket, capacity, q, expected, f);
    ClosingIsWellFormed(info, expected, f, ending);
    NarsOfTraces(f.traces);
    WellFormedTogether(AsTraces(f.traces), Closing(Socket, info, expected, f, ending));
  }

  lemma ClosingIsWellFormed(info: Narinfo, expected: Bytes, f: Fetch, ending: Ending)
    requires NewlineFree(info.storePath) && (f.nar.Some? ==> NewlineFree(f.nar.value.traceUrl))
    requires !ending.Broken? && (ending.Delivered? ==> f.nar.Some? && f.nar.value.data != [])
    ensures WellFormed(Closing(Socket, info, expected, f, ending)) && EndFree(Closing(Socket, info, expected, f, ending))
  {
    match ending {
      case WrongHash(actual) => RepliesAreLines(expected, actual, 0);
      case Delivered => SuccessIsWellFormed(info, expected, f.nar.value);
      case _ => NotFoundIsLine();
    }
  }

  lemma NotFoundIsLine()
    ensures NewlineFree("not-found")
  {
  }

  lemma SuccessIsWellFormed(info: Narinfo, expected: Bytes, d: Download)
    requires NewlineFree(info.storePath) && NewlineFree(d.traceUrl) && d.data != []
    ensures WellFormed([Nar(d.data)] + Success(info, expected, d)) && EndFree([Nar(d.data)] + Success(info, expected, d))
  {
    HexIsLine(expected);
    assert NewlineFree(TraceSucceeded(info.storePath, d.traceUrl, |d.data|));
    assert NewlineFree(SuccessLine(expected, |d.data|));
  }

  ghost predicate EndFree(ops: seq<Op>) {
    forall k :: 0 <= k < |ops| ==> !ops[k].End?
  }

  lemma WellFormedTogether(a: seq<Op>, b: seq<Op>)
    requires WellFormed(a) && WellFormed(b) && EndFree(a) && EndFree(b)
    ensures WellFormed(a + b) && EndFree(a + b)
  {
  }

  // Over a connection that lasts, the relay ends well exactly when the request
  // was not aborted and a delivered nar was not empty. Then its fd 4 carries the
  // one reply, and the destination the nar's bytes exactly if that was a success.
  lemma WholeSessionIff(h: Hasher, capacity: nat, q: Request, dest: string)
    requires q.hasWriter && OneLineTexts(q)
    requires |SocketTexts(Answered(h, Socket, capacity, q).ops)| <= capacity
    ensures var o := Answered(h, Socket, capacity, q); var st := After(capacity, dest, o.ops);
            EndsWell(st) <==> !o.ending.Aborted? && (o.ending.Delivered? ==> o.fetch.value.nar.value.data != [])
    ensures var o := Answered(h, Socket, capacity, q); var st := After(capacity, dest, o.ops);
            EndsWell(st) ==>
              && |Replies(o.ops)| == 1 && st.fd4 == Replies(o.ops)[0] + "\n"
              && st.files == if o.ending.Delivered? then [(dest, o.fetch.value.nar.value.data)] else []
  {
    var o := Answered(h, Socket, capacity, q);
    if o.ending.Aborted? {
      assert Lines(Cut(SocketTexts(o.ops), capacity)) == [];
    } else if o.ending.Delivered? && o.fetch.value.nar.value.data == [] {
      EmptyNarFails(h, capacity, q, dest);
    } else {
      NotBroken(h, capacity, q);
      OpsAreWellFormed(h, capacity, q);
      AtMostOneReply(h, Socket, capacity, q);
      OneReplySession(o.ops, Replies(o.ops)[0], capacity, dest);
    }
  }

  lemma OneReplySession(ops: seq<Op>, line: string, capacity: nat, dest: string)
    requires |SocketTexts(ops)| <= capacity && WellFormed(ops) && EndFree(ops)
    requires Replies(ops) == [line] && IsTerminal(line + "\n") && |Nars(ops)| <= 1
    ensures EndsWell(After(capacity, dest, ops)) && After(capacity, dest, ops).fd4 == line + "\n"
    ensures After(capacity, dest, ops).files == if Nars(ops) == [] then [] else [(dest, Nars(ops)[0])]
  {
    assert Cut(SocketTexts(ops), capacity) == SocketTexts(ops);
    SessionEndsWellIff(RelayMode.Substitute, [dest], ops);
    Fd4IsReplies(ops);
    ReplyIsTerminal(ops, line);
    assert [line][..0] == [] && JoinedLines([line]) == "" + (line + "\n");
    assert Nars(ops) != [] ==> Deliveries([dest], Nars(ops)) == [(dest, Nars(ops)[0])];
  }

  lemma NotBroken(h: Hasher, capacity: nat, q: Request)
    requires |SocketTexts(Answered(h, Socket, capacity, q).ops)| <= capacity
    ensures !Answered(h, Socket, capacity, q).ending.Broken?
  {
    var o := Answered(h, Socket, capacity, q);
    if o.fetch.Some? {
      SettledNotBroken(h, capacity, q, Known(q).value, NixBase32.Sha256Spec(Known(q).value.narHash).value, o.fetch.value);
    }
  }

  lemma SettledNotBroken(h: Hasher, capacity: nat, q: Request, info: Narinfo, expected: Bytes, f: Fetch)
    requires |SocketTexts(Settled(h, Socket, capacity, q, info, expected, f).ops)| <= capacity
    ensures !Settled(h, Socket, capacity, q, info, expected, f).ending.Broken?
  {
  }

  lemma EmptyNarFails(h: Hasher, capacity: nat, q: Request, dest: string)
    requires OneLineTexts(q)
    requires var o := Answered(h, Socket, capacity, q); o.ending.Delivered? && o.fetch.value.nar.value.data == []
    ensures After(capacity, dest, Answered(h, Socket, capacity, q).ops).status == Failed
  {
    var f, info := Answered(h, Socket, capacity, q).fetch.value, Known(q).value;
    var expected := NixBase32.Sha256Spec(info.narHash).value;
    TracesAreLines(q);
    EmptySettledFails(h, capacity, q, info, expected, f, dest);
  }

  lemma EmptySettledFails(h: Hasher, capacity: nat, q: Request, info: Narinfo, expected: Bytes, f: Fetch, dest: string)
    requires AllLines(f.traces) && NewlineFree(info.storePath) && f.nar.Some? && NewlineFree(f.nar.value.traceUrl) && f.nar.value.data == []
    requires EndingOf(h, Socket, capacity, q, expected, f).Delivered?
    ensures After(capacity, dest, AsTraces(f.traces) + Closing(Socket, info, expected, f, Delivered)).status == Failed
  {
    var d := f.nar.value;
    RepliesAreLines(expected, h(d.data), |d.data|);
    DeliveredNar(f.traces, d.data, TraceSucceeded(info.storePath, d.traceUrl, |d.data|), SuccessLine(expected, |d.data|), capacity, dest);
  }

  lemma OpsAreWellFormed(h: Hasher, capacity: nat, q: Request)
    requires OneLineTexts(q)
    requires var o := Answered(h, Socket, capacity, q); !o.ending.Broken? && (o.ending.Delivered? ==> o.fetch.value.nar.value.data != [])
    ensures var o := Answered(h, Socket, capacity, q);
            && WellFormed(o.ops) && EndFree(o.ops)
            && Nars(o.ops) == if o.ending.Delivered? then [o.fetch.value.nar.value.data] else []
  {
    var o := Answered(h, Socket, capacity, q);
    if o.fetch.Some? {
      var f, info := o.fetch.value, Known(q).value;
      var expected := NixBase32.Sha256Spec(info.narHash).value;
      TracesAreLines(q);
      NarsOfClosing(h, capacity, q, info, expected, f);
      KnownIsWellFormed(h, capacity, q, info, expected, f);
    }
  }
}
