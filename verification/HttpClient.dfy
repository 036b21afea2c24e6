/**
 The HTTP client of the Discover sources: a body is read up to a limit, and a
 failed attempt is repeated only if that can help. The network is a parameter:
 the chunks of a body, and the outcome of each attempt.
 */
module HttpClient {
  import opened Wrappers

  const DEFAULT_MAX_ATTEMPTS := 2
  const MAX_ATTEMPTS := 3
  const MAX_RETRY_DELAY_MS := 2_000
  const MAX_SAFE_INTEGER := 9_007_199_254_740_991

  datatype Reason = InvalidRequest | Timeout | Network | RateLimited | Upstream | InvalidResponse

  type Bytes = seq<bv8>

  /** A response body: its chunks, and whether the stream breaks after them. */
  datatype Stream = Stream(chunks: seq<Bytes>, broken: bool)

  function Concat(chunks: seq<Bytes>): (bytes: Bytes) {
    if chunks == [] then [] else Concat(chunks[..|chunks| - 1]) + chunks[|chunks| - 1]
  }

  lemma {:induction false} ConcatGrows(chunks: seq<Bytes>, i: nat)
    requires i <= |chunks|
    ensures |Concat(chunks[..i])| <= |Concat(chunks)| && Concat(chunks[..i]) == Concat(chunks)[..|Concat(chunks[..i])|]
  {
    if i < |chunks| {
      var init := chunks[..|chunks| - 1];
      ConcatGrows(init, i);
      assert init[..i] == chunks[..i];
    } else {
      assert chunks[..i] == chunks;
    }
  }

  lemma ConcatNext(chunks: seq<Bytes>, i: nat)
    requires i < |chunks|
    ensures Concat(chunks[..i + 1]) == Concat(chunks[..i]) + chunks[i]
  {
    assert chunks[..i + 1][..i] == chunks[..i];
  }

  /** A body within the limit is returned whole and unchanged; a longer one fails, however it is cut into
      chunks; and at no time are more bytes kept than the limit. */
  method ReadBoundedBody(body: Option<Stream>, maxResponseBytes: nat)
    returns (r: Result<Bytes, Reason>, ghost kept: nat)
    ensures kept <= maxResponseBytes
    ensures body.None? ==> r == Ok([])
    ensures body.Some? && |Concat(body.value.chunks)| > maxResponseBytes ==> r == Err(InvalidResponse)
    ensures body.Some? && |Concat(body.value.chunks)| <= maxResponseBytes ==>
      r == if body.value.broken then Err(Network) else Ok(Concat(body.value.chunks))
  {
    kept := 0;
    if body.None? { return Ok([]), kept; }
    var incoming := body.value.chunks;
    var chunks: seq<Bytes>, totalBytes := [], 0;
    for i := 0 to |incoming|
      invariant chunks == incoming[..i] && totalBytes == |Concat(chunks)|
      invariant kept == totalBytes <= maxResponseBytes
    {
      ConcatNext(incoming, i);
      ConcatGrows(incoming, i + 1);
      totalBytes := totalBytes + |incoming[i]|;
      if totalBytes > maxResponseBytes { return Err(InvalidResponse), kept; }
      assert incoming[..i + 1] == incoming[..i] + [incoming[i]];
      chunks := chunks + [incoming[i]];
      kept := totalBytes;
    }
    assert incoming[..|incoming|] == incoming;
    if body.value.broken { return Err(Network), kept; }
    var bytes := CopyChunks(chunks, totalBytes);
    return Ok(bytes), kept;
  }

  /** Writes one chunk after the other into a buffer of the right size. */
  method CopyChunks(chunks: seq<Bytes>, totalBytes: nat) returns (bytes: Bytes)
    requires totalBytes == |Concat(chunks)|
    ensures bytes == Concat(chunks)
  {
    var buffer := new bv8[totalBytes];
    var offset := 0;
    for i := 0 to |chunks|
      invariant offset == |Concat(chunks[..i])| <= totalBytes
      invariant buffer[..offset] == Concat(chunks[..i])
    {
      ConcatNext(chunks, i);
      ConcatGrows(chunks, i + 1);
      var chunk := chunks[i];
      ghost var before := buffer[..offset];
      forall k | 0 <= k < |chunk| { buffer[offset + k] := chunk[k]; }
      assert buffer[..offset] == before;
      assert buffer[offset..offset + |chunk|] == chunk;
      assert buffer[..offset + |chunk|] == buffer[..offset] + buffer[offset..offset + |chunk|];
      offset := offset + |chunk|;
    }
    assert chunks[..|chunks|] == chunks;
    bytes := buffer[..];
    assert bytes == buffer[..offset];
  }

  // ---- One attempt ----

  /** Which failure a status is, if any; the first match counts. */
  function StatusFailure(status: int, rateLimitCodes: set<int>): Option<Reason> {
    if 300 <= status < 400 then Some(InvalidResponse)
    else if status in rateLimitCodes then Some(RateLimited)
    else if status == 408 || status == 425 then Some(Upstream)
    else if status < 200 || status >= 300 then Some(if status >= 500 then Upstream else InvalidResponse)
    else None
  }

  predicate IsRetryable(r: Reason) { r.Timeout? || r.Network? || r.RateLimited? || r.Upstream? }

  /** The only statuses that may be reported as rate limits. */
  predicate ValidRateLimitCodes(codes: set<int>) { codes != {} && codes <= {403, 429} }

  /** Success is a status of the 200s that is no rate limit. A rate limit, "try again" and a server error
      are told apart from an invalid response, and exactly they lead to another attempt. */
  lemma RetriedStatuses(status: int, codes: set<int>)
    requires ValidRateLimitCodes(codes)
    ensures
      var failure := StatusFailure(status, codes);
      && (failure == None <==> 200 <= status < 300)
      && (failure == Some(RateLimited) <==> status in codes)
      && (failure == Some(Upstream) <==> status == 408 || status == 425 || status >= 500)
      && (failure.Some? ==> failure.value in {RateLimited, Upstream, InvalidResponse})
      && (failure.Some? && IsRetryable(failure.value) <==>
            status in codes || status == 408 || status == 425 || status >= 500)
  {}

  datatype Response = Response(status: int, jsonType: bool, declaredLength: Option<int>, body: Option<Stream>,
    parses: bool)

  /** What the network does in one attempt: no response, or one; and whether the timeout cut it short. */
  datatype Exchange = Exchange(response: Option<Response>, aborted: bool)

  predicate BreaksOff(p: Response) { p.body.Some? && p.body.value.broken }

  /** Not JSON by its header, longer than allowed by its header or in fact, or complete but not JSON. */
  predicate Malformed(p: Response, maxResponseBytes: nat) {
    || !p.jsonType
    || (p.declaredLength.Some? && p.declaredLength.value > maxResponseBytes)
    || (p.body.Some? && |Concat(p.body.value.chunks)| > maxResponseBytes)
    || (!BreaksOff(p) && !p.parses)
  }

  method FetchOnce(e: Exchange, rateLimitCodes: set<int>, maxResponseBytes: nat) returns (r: Result<Bytes, Reason>)
    ensures r.Ok? ==>
      && e.response.Some? && 200 <= e.response.value.status < 300 && e.response.value.status !in rateLimitCodes
      && e.response.value.jsonType && e.response.value.parses
      && |r.value| <= maxResponseBytes
      && r.value == if e.response.value.body.Some? then Concat(e.response.value.body.value.chunks) else []
    ensures r.Err? && e.aborted ==> r.error == Timeout
    ensures r.Err? && !e.aborted && e.response.Some? && StatusFailure(e.response.value.status, rateLimitCodes).Some? ==>
      r.error == StatusFailure(e.response.value.status, rateLimitCodes).value
    ensures e.response.None? && !e.aborted ==> r == Err(Network)
    ensures e.response.Some? && !e.aborted && StatusFailure(e.response.value.status, rateLimitCodes).None? ==>
      && (r == Err(InvalidResponse) <==> Malformed(e.response.value, maxResponseBytes))
      && (r == Err(Network) <==> !Malformed(e.response.value, maxResponseBytes) && BreaksOff(e.response.value))
      && (r.Ok? <==> !Malformed(e.response.value, maxResponseBytes) && !BreaksOff(e.response.value))
  {
    r := Receive(e.response, rateLimitCodes, maxResponseBytes);
    if r.Err? && e.aborted { r := Err(Timeout); }
  }

  method Receive(response: Option<Response>, rateLimitCodes: set<int>, maxResponseBytes: nat)
    returns (r: Result<Bytes, Reason>)
    ensures response.None? ==> r == Err(Network)
    ensures response.Some? ==>
      var p := response.value;
      var failure := StatusFailure(p.status, rateLimitCodes);
      var bytes := if p.body.Some? then Concat(p.body.value.chunks) else [];
      r == if failure.Some? then Err(failure.value)
           else if !p.jsonType || (p.declaredLength.Some? && p.declaredLength.value > maxResponseBytes)
             || |bytes| > maxResponseBytes
           then Err(InvalidResponse)
           else if p.body.Some? && p.body.value.broken then Err(Network)
           else if !p.parses then Err(InvalidResponse) else Ok(bytes)
  {
    if response.None? { return Err(Network); }
    var p := response.value;
    var failure := StatusFailure(p.status, rateLimitCodes);
    if failure.Some? { return Err(failure.value); }
    if !p.jsonType { return Err(InvalidResponse); }
    if p.declaredLength.Some? && p.declaredLength.value > maxResponseBytes { return Err(InvalidResponse); }
    ghost var kept;
    r, kept := ReadBoundedBody(p.body, maxResponseBytes);
    if r.Ok? && !p.parses { return Err(InvalidResponse); }
  }

  // ---- The retry loop ----

  function Power(n: nat): nat { if n == 0 then 1 else 2 * Power(n - 1) }

  function Total(delays: seq<int>): int {
    if delays == [] then 0 else Total(delays[..|delays| - 1]) + delays[|delays| - 1]
  }

  /** The loop over attempts; the outcomes say what each attempt would give. */
  method GetJsonResponse<T>(requestedAttempts: Option<int>, outcomes: seq<Result<T, Reason>>)
    returns (r: Result<T, Reason>, attempts: nat, delays: seq<int>)
    requires |outcomes| >= MAX_ATTEMPTS
    ensures
      var max := if requestedAttempts.Some? then requestedAttempts.value else 2;
      if 1 <= max <= 3 then
        && 1 <= attempts <= max && r == outcomes[attempts - 1]
        && (forall k | 0 <= k < attempts - 1 ::
              outcomes[k].Err? && outcomes[k].error in {Timeout, Network, RateLimited, Upstream})
        && (r.Ok? || r.error !in {Timeout, Network, RateLimited, Upstream} || attempts == max)
      else
        r == Err(InvalidRequest) && attempts == 0
    ensures |delays| == Max(0, attempts - 1) && delays <= [250, 500] && Total(delays) <= 750
  {
    var maxAttempts := if requestedAttempts.Some? then requestedAttempts.value else DEFAULT_MAX_ATTEMPTS;
    attempts, delays := 0, [];
    if maxAttempts <= 0 || maxAttempts > MAX_SAFE_INTEGER { return Err(InvalidRequest), attempts, delays; }
    if maxAttempts > MAX_ATTEMPTS { return Err(InvalidRequest), attempts, delays; }
    var attempt := 1;
    while true
      invariant 1 <= attempt <= maxAttempts && attempts == attempt - 1
      invariant forall k | 0 <= k < attempts :: outcomes[k].Err? && IsRetryable(outcomes[k].error)
      invariant |delays| == attempts && delays <= [250, 500]
      decreases maxAttempts - attempt
    {
      attempts := attempt;
      r := outcomes[attempt - 1];
      if r.Ok? || attempt == maxAttempts || !IsRetryable(r.error) {
        TotalDelay(delays);
        return;
      }
      assert Power(1) == 2 && Power(0) == 1;
      delays := delays + [Min(250 * Power(attempt - 1), MAX_RETRY_DELAY_MS)];
      attempt := attempt + 1;
    }
  }

  lemma TotalDelay(delays: seq<int>)
    requires delays <= [250, 500]
    ensures Total(delays) <= 750
  {
    var one, two := [250], [250, 500];
    assert two[..1] == one && one[..0] == [];
    assert Total(one) == 250 && Total(two) == 750;
    assert delays == [] || delays == one || delays == two;
  }
}
