// Fetching a nar over HTTP: which URLs are tried and in which order, and what
// the attempts together amount to. What a server answers to the k-th request is
// an input; decompression and SHA-256 are uninterpreted.

module HttpFallback {
  import opened Common
  import NixBase32

  datatype Compression = Zstd | Gzip | Lzip | Plain

  datatype NarUrl = NarUrl(url: string, compression: string)

  datatype NarDownload = NarDownload(url: string, compression: Compression)

  datatype HttpError =
    | NotFound
    | UnsupportedCompression(name: string)
    | Unreachable
    | BadStatus(status: nat)
    | BodyRead
    | BadArchive
    | InvalidNarHash
    | CandidatesFailed(last: HttpError)
    | Panicked

  datatype Answer = NoConnection | Status(status: nat) | BrokenBody | Body(body: Bytes)

  datatype HttpNarDownload = HttpNarDownload(data: Bytes, sourceUrl: string, verified: bool)

  type Decompressor = (Compression, Bytes) -> Option<Bytes>

  // ---- Which URLs ----

  function ParseCompression(name: string): Option<Compression> {
    if name == "zstd" then Some(Zstd)
    else if name == "gzip" then Some(Gzip)
    else if name == "lzip" then Some(Lzip)
    else if name == "none" || name == "" then Some(Plain)
    else None
  }

  function Rank(c: Compression): nat {
    match c case Zstd => 0 case Gzip => 1 case Lzip => 2 case Plain => 3
  }

  const PREFERENCE: seq<Compression> := [Zstd, Gzip, Lzip, Plain]

  function WithCompression(urls: seq<NarUrl>, c: Compression): seq<NarDownload> {
    if urls == [] then []
    else
      var n := |urls| - 1;
      WithCompression(urls[..n], c) + (if ParseCompression(urls[n].compression) == Some(c) then [NarDownload(urls[n].url, c)] else [])
  }

  function ByPreference(urls: seq<NarUrl>, prefs: seq<Compression>): seq<NarDownload> {
    if prefs == [] then [] else ByPreference(urls, prefs[..|prefs| - 1]) + WithCompression(urls, prefs[|prefs| - 1])
  }

  ghost predicate FirstUnsupported(urls: seq<NarUrl>, name: string) {
    exists k :: 0 <= k < |urls| && urls[k].compression == name && ParseCompression(name).None? &&
                forall j :: 0 <= j < k ==> ParseCompression(urls[j].compression).Some?
  }

  predicate AllSupported(urls: seq<NarUrl>) {
    forall k :: 0 <= k < |urls| ==> ParseCompression(urls[k].compression).Some?
  }

  lemma OneMoreUrl(urls: seq<NarUrl>, k: nat, c: Compression)
    requires k < |urls|
    ensures var parsed := ParseCompression(urls[k].compression);
            && WithCompression(urls[..k + 1], c) == WithCompression(urls[..k], c) + (if parsed == Some(c) then [NarDownload(urls[k].url, c)] else [])
            && (AllSupported(urls[..k]) && parsed.Some? ==> AllSupported(urls[..k + 1]))
            && (AllSupported(urls[..k]) && parsed.None? ==> FirstUnsupported(urls, urls[k].compression))
  {
    assert urls[..k + 1][..k] == urls[..k];
    assert forall j :: 0 <= j < k ==> urls[..k][j] == urls[j];
  }

  // One pass over the entries, for one preference.
  method AddCandidates(urls: seq<NarUrl>, c: Compression, before: seq<NarDownload>, was: Option<string>)
    returns (candidates: seq<NarDownload>, unsupported: Option<string>)
    requires was.Some? ==> FirstUnsupported(urls, was.value)
    ensures candidates == before + WithCompression(urls, c)
    ensures unsupported.Some? ==> FirstUnsupported(urls, unsupported.value)
    ensures unsupported.None? ==> AllSupported(urls)
  {
    candidates, unsupported := before, was;
    for k := 0 to |urls|
      invariant candidates == before + WithCompression(urls[..k], c)
      invariant unsupported.Some? ==> FirstUnsupported(urls, unsupported.value)
      invariant unsupported.None? ==> AllSupported(urls[..k])
    {
      OneMoreUrl(urls, k, c);
      var compression := ParseCompression(urls[k].compression);
      if compression == Some(c) {
        candidates := candidates + [NarDownload(urls[k].url, c)];
      } else if compression.None? && unsupported.None? {
        unsupported := Some(urls[k].compression);
      }
    }
    assert urls[..|urls|] == urls;
  }

  method DownloadCandidates(urls: seq<NarUrl>) returns (r: Result<seq<NarDownload>, HttpError>)
    ensures r.Ok? ==> r.value == ByPreference(urls, PREFERENCE) && (r.value == [] ==> AllSupported(urls))
    ensures r.Err? ==> ByPreference(urls, PREFERENCE) == [] && r.error.UnsupportedCompression? && FirstUnsupported(urls, r.error.name)
  {
    var candidates: seq<NarDownload>, unsupported: Option<string> := [], None;
    for p := 0 to |PREFERENCE|
      invariant candidates == ByPreference(urls, PREFERENCE[..p])
      invariant unsupported.Some? ==> FirstUnsupported(urls, unsupported.value)
      invariant p > 0 && unsupported.None? ==> AllSupported(urls)
    {
      assert PREFERENCE[..p + 1][..p] == PREFERENCE[..p];
      candidates, unsupported := AddCandidates(urls, PREFERENCE[p], candidates, unsupported);
    }
    assert PREFERENCE[..|PREFERENCE|] == PREFERENCE;
    if candidates == [] && unsupported.Some? {
      return Err(UnsupportedCompression(unsupported.value));
    }
    return Ok(candidates);
  }

  function TrimEndSlashes(s: string): string {
    if s != "" && s[|s| - 1] == '/' then TrimEndSlashes(s[..|s| - 1]) else s
  }

  function TrimStartSlashes(s: string): string {
    if s != "" && s[0] == '/' then TrimStartSlashes(s[1..]) else s
  }

  predicate IsAbsolute(url: string) {
    "http://" <= url || "https://" <= url
  }

  function DownloadUrls(bases: seq<string>, url: string): (urls: seq<string>)
    ensures IsAbsolute(url) ==> urls == [url]
    ensures !IsAbsolute(url) ==> |urls| == |bases|
  {
    if IsAbsolute(url) then [url]
    else seq(|bases|, k requires 0 <= k < |bases| => TrimEndSlashes(bases[k]) + "/" + TrimStartSlashes(url))
  }

  // ---- Candidates are a stable sort of the supported entries ----

  predicate Supported(urls: seq<NarUrl>, k: nat) {
    k < |urls| && ParseCompression(urls[k].compression).Some?
  }

  function RankAt(urls: seq<NarUrl>, k: nat): nat
    requires Supported(urls, k)
  {
    Rank(ParseCompression(urls[k].compression).value)
  }

  // Before in the order of preference, file order deciding between equals.
  predicate Precedes(urls: seq<NarUrl>, a: nat, b: nat)
    requires Supported(urls, a) && Supported(urls, b)
  {
    RankAt(urls, a) < RankAt(urls, b) || (RankAt(urls, a) == RankAt(urls, b) && a < b)
  }

  ghost predicate InOrder(urls: seq<NarUrl>, s: seq<nat>) {
    forall i, j :: 0 <= i < j < |s| ==> Supported(urls, s[i]) && Supported(urls, s[j]) && Precedes(urls, s[i], s[j])
  }

  ghost predicate IsRanking(urls: seq<NarUrl>, order: seq<nat>) {
    && (forall i :: 0 <= i < |order| ==> Supported(urls, order[i]))
    && (forall k: nat :: Supported(urls, k) ==> k in order)
    && InOrder(urls, order)
  }

  predicate IsOf(urls: seq<NarUrl>, c: Compression, k: nat) {
    k < |urls| && ParseCompression(urls[k].compression) == Some(c)
  }

  // The positions one preference contributes, and those the first p contribute.
  function PositionsWith(urls: seq<NarUrl>, c: Compression): (s: seq<nat>)
    ensures forall i :: 0 <= i < |s| ==> IsOf(urls, c, s[i])
    ensures forall k: nat :: IsOf(urls, c, k) ==> k in s
    ensures forall i, j :: 0 <= i < j < |s| ==> s[i] < s[j]
  {
    if urls == [] then []
    else
      var n := |urls| - 1;
      var front := PositionsWith(urls[..n], c);
      assert forall i :: 0 <= i < |front| ==> IsOf(urls[..n], c, front[i]);
      assert forall k: nat :: IsOf(urls[..n], c, k) <==> k != n && IsOf(urls, c, k);
      if ParseCompression(urls[n].compression) == Some(c) then front + [n] else front
  }

  function PositionsBy(urls: seq<NarUrl>, p: nat): (s: seq<nat>)
    requires p <= 4
    ensures forall i :: 0 <= i < |s| ==> Supported(urls, s[i]) && RankAt(urls, s[i]) < p
  {
    if p == 0 then [] else PositionsBy(urls, p - 1) + PositionsWith(urls, PREFERENCE[p - 1])
  }

  lemma AppendInOrder(urls: seq<NarUrl>, r: nat, front: seq<nat>, last: seq<nat>)
    requires forall i :: 0 <= i < |front| ==> Supported(urls, front[i]) && RankAt(urls, front[i]) < r
    requires forall i :: 0 <= i < |last| ==> Supported(urls, last[i]) && RankAt(urls, last[i]) == r
    requires InOrder(urls, front)
    requires forall i, j :: 0 <= i < j < |last| ==> last[i] < last[j]
    ensures InOrder(urls, front + last)
  {
  }

  lemma {:induction false} PositionsInOrder(urls: seq<NarUrl>, p: nat)
    requires p <= 4
    ensures InOrder(urls, PositionsBy(urls, p))
  {
    if p > 0 {
      PositionsInOrder(urls, p - 1);
      AppendPreference(urls, p, PositionsBy(urls, p - 1));
    }
  }

  lemma AppendPreference(urls: seq<NarUrl>, p: nat, front: seq<nat>)
    requires 0 < p <= 4 && InOrder(urls, front)
    requires forall i :: 0 <= i < |front| ==> Supported(urls, front[i]) && RankAt(urls, front[i]) < p - 1
    ensures InOrder(urls, front + PositionsWith(urls, PREFERENCE[p - 1]))
  {
    var last := PositionsWith(urls, PREFERENCE[p - 1]);
    forall i | 0 <= i < |last|
      ensures Supported(urls, last[i]) && RankAt(urls, last[i]) == p - 1
    {
      assert IsOf(urls, PREFERENCE[p - 1], last[i]);
    }
    AppendInOrder(urls, p - 1, front, last);
  }

  lemma {:induction false} PositionsReach(urls: seq<NarUrl>, p: nat, k: nat)
    requires p <= 4 && Supported(urls, k) && RankAt(urls, k) < p
    ensures k in PositionsBy(urls, p)
  {
    if RankAt(urls, k) < p - 1 {
      PositionsReach(urls, p - 1, k);
    } else {
      assert IsOf(urls, PREFERENCE[p - 1], k);
    }
  }

  function DownloadAt(urls: seq<NarUrl>, k: nat): NarDownload
    requires Supported(urls, k)
  {
    NarDownload(urls[k].url, ParseCompression(urls[k].compression).value)
  }

  function DownloadsAt(urls: seq<NarUrl>, order: seq<nat>): seq<NarDownload>
    requires forall i :: 0 <= i < |order| ==> Supported(urls, order[i])
  {
    seq(|order|, i requires 0 <= i < |order| => DownloadAt(urls, order[i]))
  }

  lemma {:induction false} WithCompressionPositions(urls: seq<NarUrl>, c: Compression)
    ensures WithCompression(urls, c) == DownloadsAt(urls, PositionsWith(urls, c))
  {
    if urls != [] {
      var n := |urls| - 1;
      WithCompressionPositions(urls[..n], c);
      var front := PositionsWith(urls[..n], c);
      assert DownloadsAt(urls[..n], front) == DownloadsAt(urls, front);
    }
  }

  lemma {:induction false} ByPreferencePositions(urls: seq<NarUrl>, p: nat)
    requires p <= 4
    ensures ByPreference(urls, PREFERENCE[..p]) == DownloadsAt(urls, PositionsBy(urls, p))
  {
    if p > 0 {
      ByPreferencePositions(urls, p - 1);
      assert PREFERENCE[..p][..p - 1] == PREFERENCE[..p - 1] && PREFERENCE[..p][p - 1] == PREFERENCE[p - 1];
      WithCompressionPositions(urls, PREFERENCE[p - 1]);
      DownloadsJoin(urls, PositionsBy(urls, p - 1), PositionsWith(urls, PREFERENCE[p - 1]));
    }
  }

  lemma DownloadsJoin(urls: seq<NarUrl>, a: seq<nat>, b: seq<nat>)
    requires forall i :: 0 <= i < |a| ==> Supported(urls, a[i])
    requires forall i :: 0 <= i < |b| ==> Supported(urls, b[i])
    ensures forall i :: 0 <= i < |a + b| ==> Supported(urls, (a + b)[i])
    ensures DownloadsAt(urls, a + b) == DownloadsAt(urls, a) + DownloadsAt(urls, b)
  {
  }

  // The candidates are exactly the supported entries, each once, best
  // compression first and in file order within one compression.
  lemma CandidatesAreStablySorted(urls: seq<NarUrl>)
    ensures exists order :: IsRanking(urls, order) && ByPreference(urls, PREFERENCE) == DownloadsAt(urls, order)
  {
    var order := PositionsBy(urls, 4);
    ByPreferencePositions(urls, 4);
    PositionsInOrder(urls, 4);
    forall k: nat | Supported(urls, k)
      ensures k in order
    {
      PositionsReach(urls, 4, k);
    }
    assert PREFERENCE[..4] == PREFERENCE;
    assert IsRanking(urls, order);
  }

  // ---- What one request gives ----

  datatype Try =
    | Failed(error: HttpError)
    | Fatal(fatal: HttpError)
    | Mismatched(wrong: Bytes)
    | Matched(right: Bytes)

  // Only failures before the body and bad archives let the next URL be tried.
  function TryOf(h: Hasher, unpack: Decompressor, wanted: NixBase32.Outcome<Bytes>, compression: Compression, answer: Answer): Try {
    match answer
    case NoConnection => Failed(Unreachable)
    case Status(status) => Failed(BadStatus(status))
    case BrokenBody => Fatal(BodyRead)
    case Body(body) =>
      match unpack(compression, body)
      case None => Failed(BadArchive)
      case Some(data) =>
        match wanted
        case Panic => Fatal(Panicked)
        case Rejected => Fatal(InvalidNarHash)
        case Decoded(expected) => if h(data) == expected then Matched(data) else Mismatched(data)
  }

  datatype Target = Target(url: string, compression: Compression)

  function TargetsOf(bases: seq<string>, download: NarDownload): (targets: seq<Target>)
    ensures |targets| == |DownloadUrls(bases, download.url)|
  {
    var urls := DownloadUrls(bases, download.url);
    seq(|urls|, k requires 0 <= k < |urls| => Target(urls[k], download.compression))
  }

  // Every (candidate, URL) pair in the order the nested loops visit them.
  function Targets(bases: seq<string>, downloads: seq<NarDownload>): seq<Target> {
    if downloads == [] then []
    else Targets(bases, downloads[..|downloads| - 1]) + TargetsOf(bases, downloads[|downloads| - 1])
  }

  lemma {:induction false} TargetsPrefix(bases: seq<string>, downloads: seq<NarDownload>, d: nat)
    requires d < |downloads|
    ensures Targets(bases, downloads[..d]) + TargetsOf(bases, downloads[d]) <= Targets(bases, downloads)
    decreases |downloads|
  {
    var front := downloads[..|downloads| - 1];
    if d < |front| {
      TargetsPrefix(bases, front, d);
      assert front[..d] == downloads[..d];
    }
  }

  ghost function Tries(h: Hasher, unpack: Decompressor, wanted: NixBase32.Outcome<Bytes>, targets: seq<Target>, net: nat -> Answer): (tries: seq<Try>)
    ensures |tries| == |targets|
    ensures forall k :: 0 <= k < |tries| ==> tries[k] == TryOf(h, unpack, wanted, targets[k].compression, net(k))
  {
    seq(|targets|, k requires 0 <= k < |targets| => TryOf(h, unpack, wanted, targets[k].compression, net(k)))
  }

  predicate Undecided(tries: seq<Try>, n: nat)
    requires n <= |tries|
  {
    forall j :: 0 <= j < n ==> tries[j].Failed? || tries[j].Mismatched?
  }

  // The k-th try is the last of its kind among the first n.
  predicate LastMismatch(tries: seq<Try>, n: nat, k: int)
    requires n <= |tries|
  {
    0 <= k < n && tries[k].Mismatched? && forall j :: k < j < n ==> !tries[j].Mismatched?
  }

  predicate LastFailure(tries: seq<Try>, n: nat, k: int)
    requires n <= |tries|
  {
    0 <= k < n && tries[k].Failed? && forall j :: k < j < n ==> !tries[j].Failed?
  }

  ghost predicate ComesFrom(tries: seq<Try>, targets: seq<Target>, n: nat, download: HttpNarDownload)
    requires n <= |tries| == |targets|
  {
    exists k :: LastMismatch(tries, n, k) && download == HttpNarDownload(tries[k].wrong, targets[k].url, false)
  }

  ghost predicate ErrorComesFrom(tries: seq<Try>, n: nat, e: HttpError)
    requires n <= |tries|
  {
    exists k :: LastFailure(tries, n, k) && tries[k].error == e
  }

  predicate MatchesAt(tries: seq<Try>, targets: seq<Target>, download: HttpNarDownload, k: int)
    requires |tries| == |targets|
  {
    0 <= k < |tries| && Undecided(tries, k) && tries[k].Matched? && download == HttpNarDownload(tries[k].right, targets[k].url, true)
  }

  predicate FatalAt(tries: seq<Try>, e: HttpError, k: int) {
    0 <= k < |tries| && Undecided(tries, k) && tries[k] == Fatal(e)
  }

  // What the download as a whole should be, without any loop: the first try that
  // settles the matter, else the last mismatch, else the last failure.
  ghost predicate Resolves(tries: seq<Try>, targets: seq<Target>, r: Result<HttpNarDownload, HttpError>)
    requires |tries| == |targets|
  {
    var n := |tries|;
    match r
    case Ok(download) =>
      if download.verified then exists k :: MatchesAt(tries, targets, download, k)
      else Undecided(tries, n) && ComesFrom(tries, targets, n, download)
    case Err(e) =>
      if e == NotFound then n == 0
      else if e.CandidatesFailed? then (forall j :: 0 <= j < n ==> tries[j].Failed?) && ErrorComesFrom(tries, n, e.last)
      else exists k :: FatalAt(tries, e, k)
  }

  // What the loop remembers of n undecided tries.
  ghost predicate Seen(tries: seq<Try>, targets: seq<Target>, n: nat, lastError: Option<HttpError>, lastMismatch: Option<HttpNarDownload>)
    requires n <= |tries| == |targets|
  {
    && Undecided(tries, n)
    && (if lastMismatch.None? then forall j :: 0 <= j < n ==> tries[j].Failed? else ComesFrom(tries, targets, n, lastMismatch.value))
    && (if lastError.None? then forall j :: 0 <= j < n ==> tries[j].Mismatched? else ErrorComesFrom(tries, n, lastError.value))
  }

  lemma SeenFailure(tries: seq<Try>, targets: seq<Target>, n: nat, lastError: Option<HttpError>, lastMismatch: Option<HttpNarDownload>)
    requires n < |tries| == |targets| && Seen(tries, targets, n, lastError, lastMismatch) && tries[n].Failed?
    ensures Seen(tries, targets, n + 1, Some(tries[n].error), lastMismatch)
  {
    assert LastFailure(tries, n + 1, n);
    if lastMismatch.Some? {
      var k :| LastMismatch(tries, n, k) && lastMismatch.value == HttpNarDownload(tries[k].wrong, targets[k].url, false);
      assert LastMismatch(tries, n + 1, k);
    }
  }

  lemma SeenMismatch(tries: seq<Try>, targets: seq<Target>, n: nat, lastError: Option<HttpError>, lastMismatch: Option<HttpNarDownload>)
    requires n < |tries| == |targets| && Seen(tries, targets, n, lastError, lastMismatch) && tries[n].Mismatched?
    ensures Seen(tries, targets, n + 1, lastError, Some(HttpNarDownload(tries[n].wrong, targets[n].url, false)))
  {
    assert LastMismatch(tries, n + 1, n);
    if lastError.Some? {
      var k :| LastFailure(tries, n, k) && tries[k].error == lastError.value;
      assert LastFailure(tries, n + 1, k);
    }
  }

  // One request: a decision, or what to remember of it.
  method Attempt(h: Hasher, unpack: Decompressor, narHash: string, target: Target, answer: Answer) returns (t: Try)
    ensures t == TryOf(h, unpack, NixBase32.Sha256Spec(narHash), target.compression, answer)
    ensures t.Fatal? ==> t.fatal != NotFound && !t.fatal.CandidatesFailed?
  {
    match answer {
      case NoConnection => return Failed(Unreachable);
      case Status(status) => return Failed(BadStatus(status));
      case BrokenBody => return Fatal(BodyRead);
      case Body(body) =>
        var data := unpack(target.compression, body);
        if data.None? {
          return Failed(BadArchive);
        }
        var expected := NixBase32.Sha256Bytes(narHash);
        match expected {
          case Panic => return Fatal(Panicked);
          case Rejected => return Fatal(InvalidNarHash);
          case Decoded(digest) =>
            if h(data.value) != digest {
              return Mismatched(data.value);
            }
            return Matched(data.value);
        }
    }
  }

  // The three ways the loops end.
  lemma FatalResolves(tries: seq<Try>, targets: seq<Target>, n: nat, e: HttpError)
    requires n < |tries| == |targets| && Undecided(tries, n) && tries[n] == Fatal(e) && e != NotFound && !e.CandidatesFailed?
    ensures Resolves(tries, targets, Err(e))
  {
    assert FatalAt(tries, e, n);
  }

  lemma MatchResolves(tries: seq<Try>, targets: seq<Target>, n: nat, data: Bytes)
    requires n < |tries| == |targets| && Undecided(tries, n) && tries[n] == Matched(data)
    ensures Resolves(tries, targets, Ok(HttpNarDownload(data, targets[n].url, true)))
  {
    assert MatchesAt(tries, targets, HttpNarDownload(data, targets[n].url, true), n);
  }

  function Leftover(lastError: Option<HttpError>, lastMismatch: Option<HttpNarDownload>): Result<HttpNarDownload, HttpError> {
    if lastMismatch.Some? then Ok(lastMismatch.value)
    else if lastError.Some? then Err(CandidatesFailed(lastError.value))
    else Err(NotFound)
  }

  lemma ExhaustionResolves(tries: seq<Try>, targets: seq<Target>, lastError: Option<HttpError>, lastMismatch: Option<HttpNarDownload>)
    requires |tries| == |targets| && Seen(tries, targets, |tries|, lastError, lastMismatch)
    ensures Resolves(tries, targets, Leftover(lastError, lastMismatch))
  {
    assert |tries| > 0 && tries[0].Failed? ==> !tries[0].Mismatched?;
  }

  lemma TargetsHere(bases: seq<string>, downloads: seq<NarDownload>, d: nat)
    requires d < |downloads|
    ensures var n, here, targets := |Targets(bases, downloads[..d])|, TargetsOf(bases, downloads[d]), Targets(bases, downloads);
            && n + |here| == |Targets(bases, downloads[..d + 1])| <= |targets|
            && here == targets[n..n + |here|]
  {
    TargetsPrefix(bases, downloads, d);
    assert downloads[..d + 1][..d] == downloads[..d];
    var before, here := Targets(bases, downloads[..d]), TargetsOf(bases, downloads[d]);
    assert (before + here)[|before|..] == here;
  }

  method DownloadNarHttp(h: Hasher, unpack: Decompressor, bases: seq<string>, narHash: string, urls: seq<NarUrl>, net: nat -> Answer)
    returns (r: Result<HttpNarDownload, HttpError>)
    ensures ByPreference(urls, PREFERENCE) == [] ==>
              (r == Err(NotFound) && AllSupported(urls)) || (r.Err? && r.error.UnsupportedCompression? && FirstUnsupported(urls, r.error.name))
    ensures ByPreference(urls, PREFERENCE) != [] ==>
              var targets := Targets(bases, ByPreference(urls, PREFERENCE));
              Resolves(Tries(h, unpack, NixBase32.Sha256Spec(narHash), targets, net), targets, r)
  {
    var candidates := DownloadCandidates(urls);
    if candidates.Err? {
      return Err(candidates.error);
    }
    if candidates.value == [] {
      return Err(NotFound);
    }
    ghost var targets := Targets(bases, candidates.value);
    r := TryInTurn(h, unpack, bases, narHash, candidates.value, net, Tries(h, unpack, NixBase32.Sha256Spec(narHash), targets, net), targets);
  }

  // What the loop remembers of mismatches and failures.
  datatype Memory = Memory(lastError: Option<HttpError>, lastMismatch: Option<HttpNarDownload>)

  ghost predicate Remembers(tries: seq<Try>, targets: seq<Target>, n: nat, m: Memory) {
    n <= |tries| == |targets| && Seen(tries, targets, n, m.lastError, m.lastMismatch)
  }

  // One try is settled, or remembered.
  method TakeTry(t: Try, url: string, m: Memory, ghost tries: seq<Try>, ghost targets: seq<Target>, ghost n: nat)
    returns (next: Memory, settled: Option<Result<HttpNarDownload, HttpError>>)
    requires Remembers(tries, targets, n, m) && n < |tries| && tries[n] == t && targets[n].url == url
    requires t.Fatal? ==> t.fatal != NotFound && !t.fatal.CandidatesFailed?
    ensures settled.None? ==> Remembers(tries, targets, n + 1, next)
    ensures settled.Some? ==> Resolves(tries, targets, settled.value)
  {
    next, settled := m, None;
    match t {
      case Fatal(e) =>
        FatalResolves(tries, targets, n, e);
        settled := Some(Err(e));
      case Matched(data) =>
        MatchResolves(tries, targets, n, data);
        settled := Some(Ok(HttpNarDownload(data, url, true)));
      case Failed(e) =>
        SeenFailure(tries, targets, n, m.lastError, m.lastMismatch);
        next := m.(lastError := Some(e));
      case Mismatched(data) =>
        SeenMismatch(tries, targets, n, m.lastError, m.lastMismatch);
        next := m.(lastMismatch := Some(HttpNarDownload(data, url, false)));
    }
  }

  // The tries from the n-th on are what the given targets yield.
  ghost predicate AreTries(h: Hasher, unpack: Decompressor, narHash: string, here: seq<Target>, net: nat -> Answer, tries: seq<Try>, n: nat) {
    n + |here| <= |tries| &&
    forall k :: 0 <= k < |here| ==> tries[n + k] == TryOf(h, unpack, NixBase32.Sha256Spec(narHash), here[k].compression, net(n + k))
  }

  lemma TriesHere(h: Hasher, unpack: Decompressor, narHash: string, targets: seq<Target>, net: nat -> Answer, tries: seq<Try>, n: nat, m: nat)
    requires AreTries(h, unpack, narHash, targets, net, tries, 0) && n <= m <= |targets|
    ensures AreTries(h, unpack, narHash, targets[n..m], net, tries, n)
  {
    forall k | 0 <= k < m - n
      ensures tries[n + k] == TryOf(h, unpack, NixBase32.Sha256Spec(narHash), targets[n..m][k].compression, net(n + k))
    {
      assert targets[n..m][k] == targets[n + k];
      assert tries[0 + (n + k)] == TryOf(h, unpack, NixBase32.Sha256Spec(narHash), targets[n + k].compression, net(0 + (n + k)));
    }
  }

  // The URLs of one candidate, from the n-th request on.
  method TryUrls(h: Hasher, unpack: Decompressor, narHash: string, here: seq<Target>, net: nat -> Answer, n: nat, m: Memory,
                 ghost tries: seq<Try>, ghost targets: seq<Target>)
    returns (next: Memory, settled: Option<Result<HttpNarDownload, HttpError>>)
    requires Remembers(tries, targets, n, m) && n + |here| <= |tries|
    requires here == targets[n..n + |here|] && AreTries(h, unpack, narHash, here, net, tries, n)
    ensures settled.None? ==> Remembers(tries, targets, n + |here|, next)
    ensures settled.Some? ==> Resolves(tries, targets, settled.value)
  {
    next, settled := m, None;
    for k := 0 to |here|
      invariant settled.None? && Remembers(tries, targets, n + k, next)
    {
      var t := Attempt(h, unpack, narHash, here[k], net(n + k));
      next, settled := TakeTry(t, here[k].url, next, tries, targets, n + k);
      if settled.Some? {
        return;
      }
    }
  }

  method TryInTurn(h: Hasher, unpack: Decompressor, bases: seq<string>, narHash: string, downloads: seq<NarDownload>, net: nat -> Answer,
                   ghost tries: seq<Try>, ghost targets: seq<Target>)
    returns (r: Result<HttpNarDownload, HttpError>)
    requires targets == Targets(bases, downloads) && |tries| == |targets|
    requires AreTries(h, unpack, narHash, targets, net, tries, 0)
    ensures Resolves(tries, targets, r)
  {
    var m := Memory(None, None);
    var n := 0;
    for d := 0 to |downloads|
      invariant n == |Targets(bases, downloads[..d])| && Remembers(tries, targets, n, m)
    {
      TargetsHere(bases, downloads, d);
      var here := TargetsOf(bases, downloads[d]);
      TriesHere(h, unpack, narHash, targets, net, tries, n, n + |here|);
      var settled;
      m, settled := TryUrls(h, unpack, narHash, here, net, n, m, tries, targets);
      if settled.Some? {
        return settled.value;
      }
      n := n + |here|;
    }
    assert downloads[..|downloads|] == downloads;
    ExhaustionResolves(tries, targets, m.lastError, m.lastMismatch);
    return Leftover(m.lastError, m.lastMismatch);
  }

  // The loop-free description settles the result: no two results meet it.
  lemma ResolvesUniquely(tries: seq<Try>, targets: seq<Target>, a: Result<HttpNarDownload, HttpError>, b: Result<HttpNarDownload, HttpError>)
    requires |tries| == |targets|
    requires forall k :: 0 <= k < |tries| && tries[k].Fatal? ==> tries[k].fatal != NotFound && !tries[k].fatal.CandidatesFailed?
    requires Resolves(tries, targets, a) && Resolves(tries, targets, b)
    ensures a == b
  {
  }

  // `wanted` is what the narinfo's hash field decodes to. A copy of the nar is
  // returned as verified exactly when some URL serves it and no body breaks off
  // before; the flag can be trusted both ways.
  lemma VerifiedIff(h: Hasher, unpack: Decompressor, wanted: NixBase32.Outcome<Bytes>, targets: seq<Target>, net: nat -> Answer, r: Result<HttpNarDownload, HttpError>)
    requires Resolves(Tries(h, unpack, wanted, targets, net), targets, r)
    ensures r.Ok? ==> (r.value.verified <==> wanted == NixBase32.Decoded(h(r.value.data)))
    ensures var tries := Tries(h, unpack, wanted, targets, net);
            (r.Ok? && r.value.verified) <==>
            exists k :: 0 <= k < |tries| && tries[k].Matched? && forall j :: 0 <= j < k ==> !tries[j].Fatal?
  {
    var tries := Tries(h, unpack, wanted, targets, net);
    FlagIsTrue(h, unpack, wanted, targets, net, tries, r);
    FoundIff(tries, targets, r);
  }

  lemma FlagIsTrue(h: Hasher, unpack: Decompressor, wanted: NixBase32.Outcome<Bytes>, targets: seq<Target>, net: nat -> Answer, tries: seq<Try>, r: Result<HttpNarDownload, HttpError>)
    requires tries == Tries(h, unpack, wanted, targets, net) && Resolves(tries, targets, r)
    ensures r.Ok? ==> (r.value.verified <==> wanted == NixBase32.Decoded(h(r.value.data)))
  {
    if r.Ok? {
      var k := if r.value.verified then MatchPlace(tries, targets, r.value) else MismatchPlace(tries, targets, r.value);
      assert tries[k] == TryOf(h, unpack, wanted, targets[k].compression, net(k));
    }
  }

  ghost function MatchPlace(tries: seq<Try>, targets: seq<Target>, download: HttpNarDownload): (k: nat)
    requires |tries| == |targets| && download.verified && Resolves(tries, targets, Ok(download))
    ensures k < |tries| && tries[k] == Matched(download.data)
  {
    var k :| MatchesAt(tries, targets, download, k);
    k
  }

  ghost function MismatchPlace(tries: seq<Try>, targets: seq<Target>, download: HttpNarDownload): (k: nat)
    requires |tries| == |targets| && !download.verified && Resolves(tries, targets, Ok(download))
    ensures k < |tries| && tries[k] == Mismatched(download.data)
  {
    var k :| LastMismatch(tries, |tries|, k) && download == HttpNarDownload(tries[k].wrong, targets[k].url, false);
    k
  }

  lemma FoundIff(tries: seq<Try>, targets: seq<Target>, r: Result<HttpNarDownload, HttpError>)
    requires |tries| == |targets| && Resolves(tries, targets, r)
    ensures (r.Ok? && r.value.verified) <==>
            exists k :: 0 <= k < |tries| && tries[k].Matched? && forall j :: 0 <= j < k ==> !tries[j].Fatal?
  {
    if r.Ok? && r.value.verified {
      var m :| MatchesAt(tries, targets, r.value, m);
      assert tries[m].Matched? && forall j :: 0 <= j < m ==> !tries[j].Fatal?;
    }
  }
}
